/**
 Moving blobs out of a response tree onto streams, and back.

 The three walks of the source are written over a value tree.  A map keeps its keys and its values
 in two parallel sequences, so that an array and a map share the field `vals` and every walk
 descends the same way.
 */
module Attach {
  import opened Base

  type StreamId = s: int | 0 <= s < 0x1_0000_0000

  datatype Value =
    | Nil
    | Bool(b: bool)
    | Integer(i: int)
    | Str(s: string)
    | Binary(bytes: Bytes)
    | Opaque(tag: nat)   // floats, extensions, strings that are not UTF-8
    | Arr(vals: seq<Value>)
    | Map(keys: seq<Value>, vals: seq<Value>)

  datatype AttachmentRef = AttachmentRef(stream: StreamId, size: nat, sha256: Option<string>, offset: nat)

  datatype Detached = Detached(stream: StreamId, bytes: Bytes, sha256: string)

  /** What a walk is run with: the inline limit, the stream allocator and the digest. */
  datatype Ctx = Ctx(threshold: nat, alloc: nat -> StreamId, sha: seq<byte> -> string)

  // ---------------------------------------------------------------- reading the wire shape

  /** Position of the first key spelled `name`, or the number of keys. */
  function Find(keys: seq<Value>, name: string): (k: nat)
    ensures k <= |keys|
  {
    if keys == [] || keys[0] == Str(name) then 0 else 1 + Find(keys[1..], name)
  }

  function Entry(v: Value, name: string): (r: Option<Value>)
    requires v.Map?
  {
    var k := Find(v.keys, name);
    if k < |v.keys| && k < |v.vals| then Some(v.vals[k]) else None
  }

  function AsU64(v: Value): Option<nat>
  {
    if v.Integer? && 0 <= v.i < 0x1_0000_0000_0000_0000 then Some(v.i) else None
  }

  function AsStr(v: Value): Option<string>
  {
    if v.Str? then Some(v.s) else None
  }

  predicate IsDatum(v: Value)
  {
    v.Map? && Entry(v, "kind") in {Some(Str("image")), Some(Str("file"))}
  }

  function ParseAttachment(v: Value): (r: Option<AttachmentRef>)
  {
    if !v.Map? then None else
    match Entry(v, "attachment")
    case None => None
    case Some(inner) =>
      if !inner.Map? then None else
      match (Entry(inner, "stream"), Entry(inner, "size"))
      case (Some(stream), Some(size)) =>
        if AsU64(stream).None? || AsU64(size).None? then None else
        Some(AttachmentRef(
          AsU64(stream).value % 0x1_0000_0000,
          AsU64(size).value,
          match Entry(inner, "sha256") case Some(x) => AsStr(x) case None => None,
          match Entry(inner, "offset")
          case Some(x) => (match AsU64(x) case Some(n) => n case None => 0)
          case None => 0))
      case _ => None
  }

  function AttachmentValue(r: AttachmentRef): Value
  {
    var keys := [Str("stream"), Str("size"), Str("offset")];
    var vals := [Integer(r.stream), Integer(r.size), Integer(r.offset)];
    var inner := match r.sha256
      case None => Map(keys, vals)
      case Some(d) => Map(keys + [Str("sha256")], vals + [Str(d)]);
    Map([Str("attachment")], [inner])
  }

  // ---------------------------------------------------------------- the walks

  /** Where a datum keeps its blob; `None` when it has no such entry. */
  function Slot(v: Value): (r: Option<nat>)
    requires v.Map?
    ensures r.Some? ==> r.value < |v.keys| && r.value < |v.vals|
  {
    var k := Find(v.keys, "blob");
    if k < |v.keys| && k < |v.vals| then Some(k) else None
  }

  /** A datum whose blob is inline and over the limit: the only thing `detach` rewrites. */
  predicate Big(v: Value, threshold: nat)
  {
    IsDatum(v) && Slot(v).Some?
    && v.vals[Slot(v).value].Binary? && |v.vals[Slot(v).value].bytes| > threshold
  }

  /** The reference a datum carries in its blob entry, if it carries one. */
  function Carried(v: Value): (r: Option<AttachmentRef>)
  {
    if IsDatum(v) && Slot(v).Some? then ParseAttachment(v.vals[Slot(v).value]) else None
  }

  function RefTo(d: Detached): AttachmentRef
  {
    AttachmentRef(d.stream, |d.bytes|, Some(d.sha256), 0)
  }

  /** `walk_detach`; `k` counts the calls already made to the allocator. */
  function Detach(v: Value, c: Ctx, k: nat): (r: (Value, seq<Detached>))
    decreases v, 1
  {
    if Big(v, c.threshold) then
      var at := Slot(v).value;
      var blob := v.vals[at].bytes;
      var d := Detached(c.alloc(k), blob, c.sha(blob));
      (v.(vals := v.vals[at := AttachmentValue(RefTo(d))]), [d])
    else if v.Arr? || v.Map? then
      var (vals, out) := DetachAll(v.vals, c, k);
      (v.(vals := vals), out)
    else
      (v, [])
  }

  function DetachAll(vs: seq<Value>, c: Ctx, k: nat): (r: (seq<Value>, seq<Detached>))
    ensures |r.0| == |vs|
    decreases vs, 0
  {
    if vs == [] then ([], []) else
    var (v, out) := Detach(vs[0], c, k);
    var (rest, more) := DetachAll(vs[1..], c, k + |out|);
    ([v] + rest, out + more)
  }

  /** `walk_refs`: a datum that carries a reference is listed and not descended into. */
  function Refs(v: Value): (r: seq<AttachmentRef>)
    decreases v, 1
  {
    match Carried(v)
    case Some(found) => [found]
    case None => if v.Arr? || v.Map? then RefsAll(v.vals) else []
  }

  function RefsAll(vs: seq<Value>): (r: seq<AttachmentRef>)
    decreases vs, 0
  {
    if vs == [] then [] else Refs(vs[0]) + RefsAll(vs[1..])
  }

  /** `splice`: fills the first reference that names `stream`; says whether there was one. */
  function Splice(v: Value, stream: StreamId, bytes: Bytes): (r: (Value, bool))
    decreases v, 1
  {
    if Carried(v).Some? && Carried(v).value.stream == stream then
      (v.(vals := v.vals[Slot(v).value := Binary(bytes)]), true)
    else if v.Arr? || v.Map? then
      var (vals, hit) := SpliceAny(v.vals, stream, bytes);
      (v.(vals := vals), hit)
    else
      (v, false)
  }

  function SpliceAny(vs: seq<Value>, stream: StreamId, bytes: Bytes): (r: (seq<Value>, bool))
    ensures |r.0| == |vs|
    decreases vs, 0
  {
    if vs == [] then ([], false) else
    var (v, hit) := Splice(vs[0], stream, bytes);
    if hit then ([v] + vs[1..], true) else
    var (rest, later) := SpliceAny(vs[1..], stream, bytes);
    ([v] + rest, later)
  }

  // ---------------------------------------------------------------- reference definitions

  /** The blobs that are over the limit, in walk order. */
  function Blobs(v: Value, threshold: nat): (r: seq<Bytes>)
    decreases v, 1
  {
    if Big(v, threshold) then [v.vals[Slot(v).value].bytes]
    else if v.Arr? || v.Map? then BlobsAll(v.vals, threshold)
    else []
  }

  function BlobsAll(vs: seq<Value>, threshold: nat): (r: seq<Bytes>)
    decreases vs, 0
  {
    if vs == [] then [] else Blobs(vs[0], threshold) + BlobsAll(vs[1..], threshold)
  }

  /** References the tree already holds outside any datum that `detach` rewrites. */
  function Visible(v: Value, threshold: nat): (r: seq<AttachmentRef>)
    decreases v, 1
  {
    if Big(v, threshold) then [] else
    match Carried(v)
    case Some(found) => [found]
    case None => if v.Arr? || v.Map? then VisibleAll(v.vals, threshold) else []
  }

  function VisibleAll(vs: seq<Value>, threshold: nat): (r: seq<AttachmentRef>)
    decreases vs, 0
  {
    if vs == [] then [] else Visible(vs[0], threshold) + VisibleAll(vs[1..], threshold)
  }

  /** Every stream some reference in the tree names, at any depth. */
  function Named(v: Value): (r: set<StreamId>)
    decreases v, 1
  {
    (if Carried(v).Some? then {Carried(v).value.stream} else {})
    + (if v.Arr? || v.Map? then NamedAll(v.vals) else {})
  }

  function NamedAll(vs: seq<Value>): (r: set<StreamId>)
    decreases vs, 0
  {
    if vs == [] then {} else Named(vs[0]) + NamedAll(vs[1..])
  }

  /** What the walk over `n` blobs starting at allocator call `k` sends. */
  function Sends(blobs: seq<Bytes>, c: Ctx, k: nat): (r: seq<Detached>)
  {
    seq(|blobs|, i requires 0 <= i < |blobs| => Detached(c.alloc(k + i), blobs[i], c.sha(blobs[i])))
  }

  function RefsTo(ds: seq<Detached>): (r: seq<AttachmentRef>)
  {
    seq(|ds|, i requires 0 <= i < |ds| => RefTo(ds[i]))
  }

  /** The streams handed out for `n` blobs starting at allocator call `k`. */
  function Streams(c: Ctx, k: nat, n: nat): (r: set<StreamId>)
  {
    set i | k <= i < k + n :: c.alloc(i)
  }

  /** The `n` streams handed out from allocator call `k` on are all different. */
  ghost predicate Distinct(c: Ctx, k: nat, n: nat)
  {
    forall i, j :: k <= i < j < k + n ==> c.alloc(i) != c.alloc(j)
  }

  /**
   The detached tree with only the streams in `still` left out of it: all of them gives what
   `detach` produces, none of them the original.
   */
  function Weave(v: Value, c: Ctx, k: nat, still: set<StreamId>): (r: Value)
    decreases v, 1
  {
    if Big(v, c.threshold) then
      var at := Slot(v).value;
      var blob := v.vals[at].bytes;
      if c.alloc(k) in still
      then v.(vals := v.vals[at := AttachmentValue(RefTo(Detached(c.alloc(k), blob, c.sha(blob))))])
      else v
    else if v.Arr? || v.Map? then
      v.(vals := WeaveAll(v.vals, c, k, still))
    else
      v
  }

  function WeaveAll(vs: seq<Value>, c: Ctx, k: nat, still: set<StreamId>): (r: seq<Value>)
    ensures |r| == |vs|
    decreases vs, 0
  {
    if vs == [] then [] else
    [Weave(vs[0], c, k, still)]
    + WeaveAll(vs[1..], c, k + |Blobs(vs[0], c.threshold)|, still)
  }

  /** Splices `ds` back one after the other; says whether every one found its place. */
  function SpliceAll(v: Value, ds: seq<Detached>): (r: (Value, bool))
    decreases |ds|
  {
    if ds == [] then (v, true) else
    var (next, hit) := Splice(v, ds[0].stream, ds[0].bytes);
    var (last, all) := SpliceAll(next, ds[1..]);
    (last, hit && all)
  }

  // ---------------------------------------------------------------- lemmas

  lemma {:induction false} FindNamed(keys: seq<Value>, name: string, k: nat)
    requires k < |keys| && keys[k] == Str(name)
    requires forall j :: 0 <= j < k ==> keys[j] != Str(name)
    ensures Find(keys, name) == k
  {
    if k > 0 { FindNamed(keys[1..], name, k - 1); }
  }

  lemma {:induction false} FoundKey(keys: seq<Value>, name: string)
    ensures Find(keys, name) < |keys| ==> keys[Find(keys, name)] == Str(name)
  {
    if keys != [] { FoundKey(keys[1..], name); }
  }

  lemma {:induction false} FindNothing(keys: seq<Value>, name: string)
    requires forall j :: 0 <= j < |keys| ==> keys[j] != Str(name)
    ensures Find(keys, name) == |keys|
  {
    if keys != [] { FindNothing(keys[1..], name); }
  }

  lemma WrittenNames()
    ensures Str("stream") != Str("size") && Str("stream") != Str("offset") && Str("size") != Str("offset")
    ensures Str("sha256") !in [Str("stream"), Str("size"), Str("offset")]
  {
    assert |"stream"| == 6 && |"size"| == 4 && |"offset"| == 6 && |"sha256"| == 6;
    assert "stream"[0] == 's' && "offset"[0] == 'o' && "sha256"[1] == 'h' && "stream"[1] == 't';
  }

  lemma EntryAt(m: Value, name: string, k: nat)
    requires m.Map? && k < |m.keys| && k < |m.vals| && m.keys[k] == Str(name)
    requires forall j :: 0 <= j < k ==> m.keys[j] != Str(name)
    ensures Entry(m, name) == Some(m.vals[k])
  {
    FindNamed(m.keys, name, k);
  }

  lemma EntryMissing(m: Value, name: string)
    requires m.Map? && forall j :: 0 <= j < |m.keys| ==> m.keys[j] != Str(name)
    ensures Entry(m, name) == None
  {
    FindNothing(m.keys, name);
  }

  lemma WrittenEntries(m: Value, r: AttachmentRef)
    requires m.Map? && |m.keys| == |m.vals| >= 3
    requires m.keys[0] == Str("stream") && m.keys[1] == Str("size") && m.keys[2] == Str("offset")
    requires m.vals[0] == Integer(r.stream) && m.vals[1] == Integer(r.size) && m.vals[2] == Integer(r.offset)
    requires r.sha256.None? ==> |m.keys| == 3
    requires r.sha256.Some? ==> |m.keys| == 4 && m.keys[3] == Str("sha256") && m.vals[3] == Str(r.sha256.value)
    ensures Entry(m, "stream") == Some(Integer(r.stream))
    ensures Entry(m, "size") == Some(Integer(r.size))
    ensures Entry(m, "offset") == Some(Integer(r.offset))
    ensures Entry(m, "sha256") == if r.sha256.Some? then Some(Str(r.sha256.value)) else None
  {
    WrittenNames();
    EntryAt(m, "stream", 0);
    EntryAt(m, "size", 1);
    EntryAt(m, "offset", 2);
    if r.sha256.Some? { EntryAt(m, "sha256", 3); } else { EntryMissing(m, "sha256"); }
  }

  lemma ParseFromEntries(v: Value, inner: Value, r: AttachmentRef)
    requires r.size < 0x1_0000_0000_0000_0000 && r.offset < 0x1_0000_0000_0000_0000
    requires v.Map? && Entry(v, "attachment") == Some(inner) && inner.Map?
    requires Entry(inner, "stream") == Some(Integer(r.stream))
    requires Entry(inner, "size") == Some(Integer(r.size))
    requires Entry(inner, "offset") == Some(Integer(r.offset))
    requires Entry(inner, "sha256") == if r.sha256.Some? then Some(Str(r.sha256.value)) else None
    ensures ParseAttachment(v) == Some(r)
  {
  }

  /** A reference that was written is the reference that is read back. */
  lemma ParseWritten(r: AttachmentRef)
    requires r.size < 0x1_0000_0000_0000_0000 && r.offset < 0x1_0000_0000_0000_0000
    ensures ParseAttachment(AttachmentValue(r)) == Some(r)
  {
    var v := AttachmentValue(r);
    var inner := v.vals[0];
    WrittenEntries(inner, r);
    assert v.keys[0] == Str("attachment");
    EntryAt(v, "attachment", 0);
    ParseFromEntries(v, inner, r);
  }

  /** A tree with no blob over the limit goes out as it is. */
  lemma {:induction false} DetachNothing(v: Value, c: Ctx, k: nat)
    requires Blobs(v, c.threshold) == []
    ensures Detach(v, c, k) == (v, [])
    decreases v, 1
  {
    if v.Arr? || v.Map? { DetachNothingIn(v.vals, c, k); }
  }

  lemma {:induction false} DetachNothingIn(vs: seq<Value>, c: Ctx, k: nat)
    requires BlobsAll(vs, c.threshold) == []
    ensures DetachAll(vs, c, k) == (vs, [])
    decreases vs, 0
  {
    if vs != [] {
      DetachNothing(vs[0], c, k);
      DetachNothingIn(vs[1..], c, k);
      assert vs == [vs[0]] + vs[1..];
    }
  }

  /** What `detach` hands to the senders. */
  lemma {:induction false} DetachSends(v: Value, c: Ctx, k: nat)
    ensures Detach(v, c, k).1 == Sends(Blobs(v, c.threshold), c, k)
    decreases v, 1
  {
    if !Big(v, c.threshold) && (v.Arr? || v.Map?) { DetachAllSends(v.vals, c, k); }
  }

  lemma {:induction false} DetachAllSends(vs: seq<Value>, c: Ctx, k: nat)
    ensures DetachAll(vs, c, k).1 == Sends(BlobsAll(vs, c.threshold), c, k)
    decreases vs, 0
  {
    if vs != [] {
      DetachSends(vs[0], c, k);
      DetachAllSends(vs[1..], c, k + |Blobs(vs[0], c.threshold)|);
    }
  }

  lemma {:induction false} DetachIsWeave(v: Value, c: Ctx, k: nat, still: set<StreamId>)
    requires Streams(c, k, |Blobs(v, c.threshold)|) <= still
    ensures Detach(v, c, k).0 == Weave(v, c, k, still)
    decreases v, 1
  {
    if Big(v, c.threshold) {
      assert c.alloc(k) in Streams(c, k, 1);
    } else if v.Arr? || v.Map? {
      DetachAllIsWeave(v.vals, c, k, still);
    }
  }

  lemma {:induction false} DetachAllIsWeave(vs: seq<Value>, c: Ctx, k: nat, still: set<StreamId>)
    requires Streams(c, k, |BlobsAll(vs, c.threshold)|) <= still
    ensures DetachAll(vs, c, k).0 == WeaveAll(vs, c, k, still)
    decreases vs, 0
  {
    if vs != [] {
      var at := Parted(vs, c, k);
      DetachSends(vs[0], c, k);
      DetachIsWeave(vs[0], c, k, still);
      DetachAllIsWeave(vs[1..], c, at, still);
      DetachAllStep(vs, c, k, at);
      WeaveAllIs(vs, c, k, at, still);
    }
  }

  lemma DetachAllStep(vs: seq<Value>, c: Ctx, k: nat, at: nat)
    requires vs != [] && at == k + |Detach(vs[0], c, k).1|
    ensures DetachAll(vs, c, k).0 == [Detach(vs[0], c, k).0] + DetachAll(vs[1..], c, at).0
  {
  }

  lemma StreamsSplit(c: Ctx, k: nat, n: nat, m: nat, at: nat)
    requires at == k + n
    ensures Streams(c, k, n + m) == Streams(c, k, n) + Streams(c, at, m)
  {
  }

  /** A list's streams are its head's and then, from `at` on, its rest's. */
  lemma Parted(vs: seq<Value>, c: Ctx, k: nat) returns (at: nat)
    requires vs != []
    ensures at == k + |Blobs(vs[0], c.threshold)|
    ensures |BlobsAll(vs, c.threshold)| == |Blobs(vs[0], c.threshold)| + |BlobsAll(vs[1..], c.threshold)|
    ensures Streams(c, k, |BlobsAll(vs, c.threshold)|)
         == Streams(c, k, |Blobs(vs[0], c.threshold)|) + Streams(c, at, |BlobsAll(vs[1..], c.threshold)|)
  {
    var n, m := |Blobs(vs[0], c.threshold)|, |BlobsAll(vs[1..], c.threshold)|;
    at := k + n;
    StreamsSplit(c, k, n, m, at);
  }

  lemma WeaveAllIs(vs: seq<Value>, c: Ctx, k: nat, at: nat, still: set<StreamId>)
    requires vs != [] && at == k + |Blobs(vs[0], c.threshold)|
    ensures WeaveAll(vs, c, k, still) == [Weave(vs[0], c, k, still)] + WeaveAll(vs[1..], c, at, still)
  {
  }

  lemma {:induction false} WeaveNone(v: Value, c: Ctx, k: nat, still: set<StreamId>)
    requires Streams(c, k, |Blobs(v, c.threshold)|) !! still
    ensures Weave(v, c, k, still) == v
    decreases v, 1
  {
    if Big(v, c.threshold) {
      assert c.alloc(k) in Streams(c, k, 1);
    } else if v.Arr? || v.Map? {
      WeaveAllNone(v.vals, c, k, still);
    }
  }

  lemma {:induction false} WeaveAllNone(vs: seq<Value>, c: Ctx, k: nat, still: set<StreamId>)
    requires Streams(c, k, |BlobsAll(vs, c.threshold)|) !! still
    ensures WeaveAll(vs, c, k, still) == vs
    decreases vs, 0
  {
    if vs != [] {
      var at := Parted(vs, c, k);
      WeaveNone(vs[0], c, k, still);
      WeaveAllNone(vs[1..], c, at, still);
      WeaveAllIs(vs, c, k, at, still);
      assert vs == [vs[0]] + vs[1..];
    }
  }

  // ---------------------------------------------------------------- what a rewrite leaves readable

  lemma SlotNames()
    ensures Str("blob") !in {Str("kind"), Str("attachment"), Str("stream"), Str("size"), Str("sha256"), Str("offset")}
    ensures Str("kind") != Str("attachment")
  {
    assert "blob"[0] == 'b' && "kind"[0] == 'k' && "attachment"[0] == 'a' && "stream"[0] == 's';
    assert "size"[0] == 's' && "sha256"[0] == 's' && "offset"[0] == 'o';
  }

  /** Position `i` of a woven list is the weave of position `i`, at some allocator call. */
  lemma {:induction false} WeaveAllAt(vs: seq<Value>, c: Ctx, k: nat, still: set<StreamId>, i: nat)
      returns (at: nat)
    requires i < |vs|
    ensures WeaveAll(vs, c, k, still)[i] == Weave(vs[i], c, at, still)
    decreases |vs|
  {
    var after := k + |Blobs(vs[0], c.threshold)|;
    WeaveAllIs(vs, c, k, after, still);
    if i == 0 { at := k; } else { at := WeaveAllAt(vs[1..], c, after, still, i - 1); }
  }

  /** An entry other than the blob is left alone or woven itself. */
  lemma EntryKept(v: Value, c: Ctx, k: nat, still: set<StreamId>, name: string) returns (at: nat)
    requires v.Map? && Str(name) != Str("blob")
    ensures Weave(v, c, k, still).Map?
    ensures Entry(v, name).None? ==> Entry(Weave(v, c, k, still), name).None?
    ensures Entry(v, name).Some? ==>
      Entry(Weave(v, c, k, still), name) in
        {Entry(v, name), Some(Weave(Entry(v, name).value, c, at, still))}
  {
    at := k;
    var i := Find(v.keys, name);
    FoundKey(v.keys, name);
    FoundKey(v.keys, "blob");
    if !Big(v, c.threshold) && i < |v.keys| && i < |v.vals| {
      at := WeaveAllAt(v.vals, c, k, still, i);
    }
  }

  lemma WeaveIsDatum(v: Value, c: Ctx, k: nat, still: set<StreamId>)
    ensures IsDatum(Weave(v, c, k, still)) == IsDatum(v)
  {
    if v.Map? {
      SlotNames();
      var at := EntryKept(v, c, k, still, "kind");
    }
  }

  /** Equal as far as `parse_attachment` looks at a leaf. */
  predicate ReadsAlike(a: Option<Value>, b: Option<Value>)
  {
    a.Some? == b.Some?
    && (a.Some? ==> AsU64(a.value) == AsU64(b.value) && AsStr(a.value) == AsStr(b.value))
  }

  lemma EntryReadsAlike(v: Value, c: Ctx, k: nat, still: set<StreamId>, name: string)
    requires v.Map? && Str(name) != Str("blob")
    ensures Weave(v, c, k, still).Map? && ReadsAlike(Entry(Weave(v, c, k, still), name), Entry(v, name))
  {
    var at := EntryKept(v, c, k, still, name);
  }

  lemma ParseAlike(v: Value, w: Value, x: Value, y: Value)
    requires v.Map? && w.Map? && Entry(v, "attachment") == Some(x) && Entry(w, "attachment") == Some(y)
    requires x.Map? == y.Map?
    requires x.Map? ==>
      && ReadsAlike(Entry(x, "stream"), Entry(y, "stream"))
      && ReadsAlike(Entry(x, "size"), Entry(y, "size"))
      && ReadsAlike(Entry(x, "sha256"), Entry(y, "sha256"))
      && ReadsAlike(Entry(x, "offset"), Entry(y, "offset"))
    ensures ParseAttachment(v) == ParseAttachment(w)
  {
  }

  lemma WeaveParse(v: Value, c: Ctx, k: nat, still: set<StreamId>)
    ensures ParseAttachment(Weave(v, c, k, still)) == ParseAttachment(v)
  {
    if v.Map? {
      SlotNames();
      var w := Weave(v, c, k, still);
      var at := EntryKept(v, c, k, still, "attachment");
      if Entry(v, "attachment").Some? {
        var x, y := Entry(v, "attachment").value, Entry(w, "attachment").value;
        if x.Map? && y != x {
          EntryReadsAlike(x, c, at, still, "stream");
          EntryReadsAlike(x, c, at, still, "size");
          EntryReadsAlike(x, c, at, still, "sha256");
          EntryReadsAlike(x, c, at, still, "offset");
        }
        ParseAlike(v, w, x, y);
      }
    }
  }

  /** The reference a woven datum carries: its own, or the one `detach` just put there. */
  lemma WeaveCarried(v: Value, c: Ctx, k: nat, still: set<StreamId>)
    ensures !Big(v, c.threshold) ==> Carried(Weave(v, c, k, still)) == Carried(v)
    ensures Big(v, c.threshold) && c.alloc(k) in still ==>
      var blob := v.vals[Slot(v).value].bytes;
      Carried(Weave(v, c, k, still)) == Some(RefTo(Detached(c.alloc(k), blob, c.sha(blob))))
  {
    WeaveIsDatum(v, c, k, still);
    if Big(v, c.threshold) {
      var blob := v.vals[Slot(v).value].bytes;
      ParseWritten(RefTo(Detached(c.alloc(k), blob, c.sha(blob))));
    } else if IsDatum(v) && Slot(v).Some? {
      var at := WeaveAllAt(v.vals, c, k, still, Slot(v).value);
      WeaveParse(v.vals[Slot(v).value], c, at, still);
    }
  }

  // ---------------------------------------------------------------- what `refs` lists

  lemma SendsSplit(a: seq<Bytes>, b: seq<Bytes>, c: Ctx, k: nat, at: nat)
    requires at == k + |a|
    ensures RefsTo(Sends(a + b, c, k)) == RefsTo(Sends(a, c, k)) + RefsTo(Sends(b, c, at))
  {
  }

  lemma WeaveAllStep(vs: seq<Value>, c: Ctx, k: nat, at: nat, still: set<StreamId>)
    requires vs != [] && at == k + |Blobs(vs[0], c.threshold)|
    ensures WeaveAll(vs, c, k, still)[0] == Weave(vs[0], c, k, still)
    ensures WeaveAll(vs, c, k, still)[1..] == WeaveAll(vs[1..], c, at, still)
  {
    WeaveAllIs(vs, c, k, at, still);
  }

  lemma RefsAllStep(ws: seq<Value>, a: seq<AttachmentRef>, b: seq<AttachmentRef>)
    requires ws != [] && Refs(ws[0]) == a && RefsAll(ws[1..]) == b
    ensures RefsAll(ws) == a + b
  {
  }

  /** `refs` of the woven tree, and of the woven list, are the references to these blobs. */
  ghost predicate Lists(v: Value, c: Ctx, k: nat, still: set<StreamId>, blobs: seq<Bytes>)
  {
    Refs(Weave(v, c, k, still)) == RefsTo(Sends(blobs, c, k))
  }

  ghost predicate ListsAll(vs: seq<Value>, c: Ctx, k: nat, still: set<StreamId>, blobs: seq<Bytes>)
  {
    RefsAll(WeaveAll(vs, c, k, still)) == RefsTo(Sends(blobs, c, k))
  }

  lemma {:induction false} RefsOfWeave(v: Value, c: Ctx, k: nat, still: set<StreamId>, blobs: seq<Bytes>)
    requires Visible(v, c.threshold) == [] && blobs == Blobs(v, c.threshold) && Streams(c, k, |blobs|) <= still
    ensures Lists(v, c, k, still, blobs)
    decreases v, 1
  {
    WeaveCarried(v, c, k, still);
    if Big(v, c.threshold) {
      assert c.alloc(k) in Streams(c, k, 1);
    } else if v.Arr? || v.Map? {
      RefsOfWeaveAll(v.vals, c, k, still, blobs);
    }
  }

  lemma {:induction false} RefsOfWeaveAll(vs: seq<Value>, c: Ctx, k: nat, still: set<StreamId>, blobs: seq<Bytes>)
    requires VisibleAll(vs, c.threshold) == [] && blobs == BlobsAll(vs, c.threshold) && Streams(c, k, |blobs|) <= still
    ensures ListsAll(vs, c, k, still, blobs)
    decreases vs, 0
  {
    if vs != [] {
      var first, rest := Blobs(vs[0], c.threshold), BlobsAll(vs[1..], c.threshold);
      var at := Parted(vs, c, k);
      RefsOfWeave(vs[0], c, k, still, first);
      RefsOfWeaveAll(vs[1..], c, at, still, rest);
      RefsJoin(vs, c, k, at, still, first, rest);
      assert blobs == first + rest;
    }
  }

  lemma RefsJoin(vs: seq<Value>, c: Ctx, k: nat, at: nat, still: set<StreamId>, first: seq<Bytes>, rest: seq<Bytes>)
    requires vs != [] && |first| == |Blobs(vs[0], c.threshold)| && at == k + |first|
    requires Lists(vs[0], c, k, still, first) && ListsAll(vs[1..], c, at, still, rest)
    ensures ListsAll(vs, c, k, still, first + rest)
  {
    SendsSplit(first, rest, c, k, at);
    WeaveAllStep(vs, c, k, at, still);
    RefsAllStep(WeaveAll(vs, c, k, still), RefsTo(Sends(first, c, k)), RefsTo(Sends(rest, c, at)));
  }

  /** A reference that was in the tree before is still listed after `detach`. */
  lemma {:induction false} VisibleStays(v: Value, c: Ctx, k: nat, still: set<StreamId>, r: AttachmentRef)
    requires r in Visible(v, c.threshold)
    ensures r in Refs(Weave(v, c, k, still)) && r.stream in Named(v)
    decreases v, 1
  {
    WeaveCarried(v, c, k, still);
    if Carried(v).None? { VisibleAllStays(v.vals, c, k, still, r); }
  }

  lemma {:induction false} VisibleAllStays(vs: seq<Value>, c: Ctx, k: nat, still: set<StreamId>, r: AttachmentRef)
    requires r in VisibleAll(vs, c.threshold)
    ensures r in RefsAll(WeaveAll(vs, c, k, still)) && r.stream in NamedAll(vs)
    decreases vs, 0
  {
    var at := k + |Blobs(vs[0], c.threshold)|;
    WeaveAllStep(vs, c, k, at, still);
    if r in Visible(vs[0], c.threshold) {
      VisibleStays(vs[0], c, k, still, r);
    } else {
      VisibleAllStays(vs[1..], c, at, still, r);
    }
  }

  /**
   After `detach`, `refs` lists exactly the detached blobs, in walk order, precisely when no
   reference sat in the tree beforehand outside a datum that was itself detached.
   */
  lemma RefsListWhatLeft(v: Value, c: Ctx, k: nat)
    requires Named(v) !! Streams(c, k, |Blobs(v, c.threshold)|)
    ensures Refs(Detach(v, c, k).0) == RefsTo(Detach(v, c, k).1) <==> Visible(v, c.threshold) == []
  {
    var all := Streams(c, k, |Blobs(v, c.threshold)|);
    var (tree, ds) := Detach(v, c, k);
    DetachSends(v, c, k);
    DetachIsWeave(v, c, k, all);
    if Visible(v, c.threshold) == [] {
      RefsOfWeave(v, c, k, all, Blobs(v, c.threshold));
    } else {
      var r := Visible(v, c.threshold)[0];
      VisibleStays(v, c, k, all, r);
      SentTo(Blobs(v, c.threshold), c, k, r);
      assert r in Refs(tree) && r !in RefsTo(ds);
    }
  }

  /** A reference to a blob that was sent names one of the streams handed out. */
  lemma SentTo(blobs: seq<Bytes>, c: Ctx, k: nat, r: AttachmentRef)
    ensures r in RefsTo(Sends(blobs, c, k)) ==> r.stream in Streams(c, k, |blobs|)
  {
    var refs := RefsTo(Sends(blobs, c, k));
    if r in refs {
      var i :| 0 <= i < |refs| && refs[i] == r;
      assert r.stream == c.alloc(k + i);
    }
  }

  // ---------------------------------------------------------------- what `splice` puts back

  lemma {:induction false} SpliceMiss(v: Value, s: StreamId, bytes: Bytes)
    requires s !in Named(v)
    ensures Splice(v, s, bytes) == (v, false)
    decreases v, 1
  {
    if v.Arr? || v.Map? { SpliceAnyMiss(v.vals, s, bytes); }
  }

  lemma {:induction false} SpliceAnyMiss(vs: seq<Value>, s: StreamId, bytes: Bytes)
    requires s !in NamedAll(vs)
    ensures SpliceAny(vs, s, bytes) == (vs, false)
    decreases vs, 0
  {
    if vs != [] {
      SpliceMiss(vs[0], s, bytes);
      SpliceAnyMiss(vs[1..], s, bytes);
      assert vs == [vs[0]] + vs[1..];
    }
  }

  lemma {:induction false} NamedAllUpdate(vs: seq<Value>, i: nat, v: Value)
    requires i < |vs|
    ensures NamedAll(vs[i := v]) <= NamedAll(vs) + Named(v)
    decreases |vs|
  {
    if i == 0 {
      assert vs[0 := v][1..] == vs[1..];
    } else {
      assert vs[i := v][1..] == vs[1..][i - 1 := v];
      NamedAllUpdate(vs[1..], i - 1, v);
    }
  }

  lemma WrittenNamesNothing(r: AttachmentRef)
    ensures Named(AttachmentValue(r)) == {}
  {
    SlotNames();
    var v := AttachmentValue(r);
    var inner := v.vals[0];
    EntryMissing(v, "kind");
    KindMissing(inner, r);
    LeavesNameNothing(inner.vals);
    assert Named(inner) == {};
    assert v.vals == [inner] && v.vals[1..] == [];
    assert NamedAll(v.vals) == Named(inner) + NamedAll([]);
  }

  lemma KindMissing(inner: Value, r: AttachmentRef)
    requires AttachmentValue(r).vals == [inner]
    ensures inner.Map? && !IsDatum(inner)
    ensures forall i :: 0 <= i < |inner.vals| ==> inner.vals[i].Integer? || inner.vals[i].Str?
  {
    assert "kind"[0] == 'k' && "stream"[0] == 's' && "size"[0] == 's' && "offset"[0] == 'o' && "sha256"[0] == 's';
    EntryMissing(inner, "kind");
  }

  lemma {:induction false} LeavesNameNothing(vs: seq<Value>)
    requires forall i :: 0 <= i < |vs| ==> vs[i].Integer? || vs[i].Str?
    ensures NamedAll(vs) == {}
  {
    if vs != [] { LeavesNameNothing(vs[1..]); }
  }

  lemma {:induction false} WeaveNamed(v: Value, c: Ctx, k: nat, still: set<StreamId>)
    ensures Named(Weave(v, c, k, still)) <= Named(v) + Streams(c, k, |Blobs(v, c.threshold)|) * still
    decreases v, 1
  {
    WeaveCarried(v, c, k, still);
    if Big(v, c.threshold) {
      if c.alloc(k) in still {
        var at := Slot(v).value;
        var blob := v.vals[at].bytes;
        var ref := RefTo(Detached(c.alloc(k), blob, c.sha(blob)));
        WrittenNamesNothing(ref);
        NamedAllUpdate(v.vals, at, AttachmentValue(ref));
        assert c.alloc(k) in Streams(c, k, 1);
      }
    } else if v.Arr? || v.Map? {
      WeaveAllNamed(v.vals, c, k, still);
    }
  }

  lemma NamedAllStep(ws: seq<Value>, a: set<StreamId>, b: set<StreamId>)
    requires ws != [] && Named(ws[0]) <= a && NamedAll(ws[1..]) <= b
    ensures NamedAll(ws) <= a + b
  {
  }

  lemma Regroup(a: set<StreamId>, b: set<StreamId>, p: set<StreamId>, q: set<StreamId>, still: set<StreamId>)
    ensures (a + p * still) + (b + q * still) == (a + b) + (p + q) * still
  {
  }

  lemma {:induction false} WeaveAllNamed(vs: seq<Value>, c: Ctx, k: nat, still: set<StreamId>)
    ensures NamedAll(WeaveAll(vs, c, k, still)) <= NamedAll(vs) + Streams(c, k, |BlobsAll(vs, c.threshold)|) * still
    decreases vs, 0
  {
    if vs != [] {
      var at := Parted(vs, c, k);
      var first, rest := Streams(c, k, |Blobs(vs[0], c.threshold)|), Streams(c, at, |BlobsAll(vs[1..], c.threshold)|);
      WeaveNamed(vs[0], c, k, still);
      WeaveAllNamed(vs[1..], c, at, still);
      WeaveAllStep(vs, c, k, at, still);
      NamedAllStep(WeaveAll(vs, c, k, still), Named(vs[0]) + first * still, NamedAll(vs[1..]) + rest * still);
      Regroup(Named(vs[0]), NamedAll(vs[1..]), first, rest, still);
    }
  }

  /** Only the streams handed out inside a subtree decide how it is woven. */
  lemma {:induction false} WeaveFrame(v: Value, c: Ctx, k: nat, a: set<StreamId>, b: set<StreamId>)
    requires a * Streams(c, k, |Blobs(v, c.threshold)|) == b * Streams(c, k, |Blobs(v, c.threshold)|)
    ensures Weave(v, c, k, a) == Weave(v, c, k, b)
    decreases v, 1
  {
    if Big(v, c.threshold) {
      var mine := Streams(c, k, 1);
      assert c.alloc(k) in mine;
      assert c.alloc(k) in a <==> c.alloc(k) in a * mine;
      assert c.alloc(k) in b <==> c.alloc(k) in b * mine;
    } else if v.Arr? || v.Map? {
      WeaveAllFrame(v.vals, c, k, a, b);
    }
  }

  lemma {:induction false} WeaveAllFrame(vs: seq<Value>, c: Ctx, k: nat, a: set<StreamId>, b: set<StreamId>)
    requires a * Streams(c, k, |BlobsAll(vs, c.threshold)|) == b * Streams(c, k, |BlobsAll(vs, c.threshold)|)
    ensures WeaveAll(vs, c, k, a) == WeaveAll(vs, c, k, b)
    decreases vs, 0
  {
    if vs != [] {
      var at := Parted(vs, c, k);
      var all := Streams(c, k, |BlobsAll(vs, c.threshold)|);
      var first, rest := Streams(c, k, |Blobs(vs[0], c.threshold)|), Streams(c, at, |BlobsAll(vs[1..], c.threshold)|);
      assert a * first == (a * all) * first && b * first == (b * all) * first;
      assert a * rest == (a * all) * rest && b * rest == (b * all) * rest;
      WeaveFrame(vs[0], c, k, a, b);
      WeaveAllFrame(vs[1..], c, at, a, b);
      WeaveAllIs(vs, c, k, at, a);
      WeaveAllIs(vs, c, k, at, b);
    }
  }

  /** Splicing one blob back undoes its detachment and nothing else. */
  lemma {:induction false} SpliceWeave(v: Value, c: Ctx, k: nat, still: set<StreamId>, i: nat, s: StreamId, bytes: Bytes)
    requires Distinct(c, k, |Blobs(v, c.threshold)|) && i < |Blobs(v, c.threshold)|
    requires s == c.alloc(k + i) && bytes == Blobs(v, c.threshold)[i] && s in still && s !in Named(v)
    ensures Splice(Weave(v, c, k, still), s, bytes) == (Weave(v, c, k, still - {s}), true)
    decreases v, 1
  {
    WeaveCarried(v, c, k, still);
    if Big(v, c.threshold) {
      var at := Slot(v).value;
      var woven := Weave(v, c, k, still);
      assert woven.vals[at := v.vals[at]] == v.vals;
    } else {
      SpliceWeaveAll(v.vals, c, k, still, i, s, bytes);
    }
  }

  lemma SpliceAnyHit(ws: seq<Value>, s: StreamId, bytes: Bytes, less: seq<Value>)
    requires ws != [] && |less| == |ws| && ws[1..] == less[1..]
    requires Splice(ws[0], s, bytes) == (less[0], true)
    ensures SpliceAny(ws, s, bytes) == (less, true)
  {
    assert less == [less[0]] + ws[1..];
  }

  lemma SpliceAnyLater(ws: seq<Value>, s: StreamId, bytes: Bytes, less: seq<Value>)
    requires ws != [] && |less| == |ws| && ws[0] == less[0]
    requires Splice(ws[0], s, bytes) == (ws[0], false) && SpliceAny(ws[1..], s, bytes) == (less[1..], true)
    ensures SpliceAny(ws, s, bytes) == (less, true)
  {
    assert less == [ws[0]] + less[1..];
  }

  lemma HandedOut(c: Ctx, k: nat, n: nat, m: nat, at: nat, i: nat, s: StreamId)
    requires at == k + n && Distinct(c, k, n + m) && i < n + m && s == c.alloc(k + i)
    ensures Distinct(c, k, n) && Distinct(c, at, m)
    ensures if i < n then s !in Streams(c, at, m) else s !in Streams(c, k, n) && s == c.alloc(at + (i - n))
  {
  }

  lemma Unaffected(vs: seq<Value>, c: Ctx, k: nat, still: set<StreamId>, s: StreamId)
    requires s !in Streams(c, k, |BlobsAll(vs, c.threshold)|)
    ensures WeaveAll(vs, c, k, still - {s}) == WeaveAll(vs, c, k, still)
  {
    WeaveAllFrame(vs, c, k, still - {s}, still);
  }

  /** The head of the list holds the place. */
  lemma SpliceFirst(vs: seq<Value>, c: Ctx, k: nat, at: nat, still: set<StreamId>, less: set<StreamId>, s: StreamId, bytes: Bytes)
    requires vs != [] && at == k + |Blobs(vs[0], c.threshold)|
    requires Splice(Weave(vs[0], c, k, still), s, bytes) == (Weave(vs[0], c, k, less), true)
    requires WeaveAll(vs[1..], c, at, less) == WeaveAll(vs[1..], c, at, still)
    ensures SpliceAny(WeaveAll(vs, c, k, still), s, bytes) == (WeaveAll(vs, c, k, less), true)
  {
    WeaveAllStep(vs, c, k, at, still);
    WeaveAllStep(vs, c, k, at, less);
    SpliceAnyHit(WeaveAll(vs, c, k, still), s, bytes, WeaveAll(vs, c, k, less));
  }

  /** The head of the list does not hold the place. */
  lemma SpliceRest(vs: seq<Value>, c: Ctx, k: nat, at: nat, still: set<StreamId>, less: set<StreamId>, s: StreamId, bytes: Bytes)
    requires vs != [] && at == k + |Blobs(vs[0], c.threshold)|
    requires Splice(Weave(vs[0], c, k, still), s, bytes) == (Weave(vs[0], c, k, less), false)
    requires Weave(vs[0], c, k, still) == Weave(vs[0], c, k, less)
    requires SpliceAny(WeaveAll(vs[1..], c, at, still), s, bytes) == (WeaveAll(vs[1..], c, at, less), true)
    ensures SpliceAny(WeaveAll(vs, c, k, still), s, bytes) == (WeaveAll(vs, c, k, less), true)
  {
    WeaveAllStep(vs, c, k, at, still);
    WeaveAllStep(vs, c, k, at, less);
    SpliceAnyLater(WeaveAll(vs, c, k, still), s, bytes, WeaveAll(vs, c, k, less));
  }

  lemma SpliceElsewhere(v: Value, c: Ctx, k: nat, still: set<StreamId>, s: StreamId, bytes: Bytes)
    requires s !in Named(v) && s !in Streams(c, k, |Blobs(v, c.threshold)|)
    ensures Weave(v, c, k, still - {s}) == Weave(v, c, k, still)
    ensures Splice(Weave(v, c, k, still), s, bytes) == (Weave(v, c, k, still), false)
  {
    WeaveNamed(v, c, k, still);
    SpliceMiss(Weave(v, c, k, still), s, bytes);
    WeaveFrame(v, c, k, still - {s}, still);
  }

  /** Blob `i` of a list is the head's, or the rest's. */
  lemma BlobAt(vs: seq<Value>, threshold: nat, i: nat)
    requires i < |BlobsAll(vs, threshold)|
    ensures vs != []
    ensures var n := |Blobs(vs[0], threshold)|;
      && |BlobsAll(vs, threshold)| == n + |BlobsAll(vs[1..], threshold)|
      && BlobsAll(vs, threshold)[i] == if i < n then Blobs(vs[0], threshold)[i] else BlobsAll(vs[1..], threshold)[i - n]
  {
  }

  lemma {:induction false} SpliceWeaveAll(vs: seq<Value>, c: Ctx, k: nat, still: set<StreamId>, i: nat, s: StreamId, bytes: Bytes)
    requires Distinct(c, k, |BlobsAll(vs, c.threshold)|) && i < |BlobsAll(vs, c.threshold)|
    requires s == c.alloc(k + i) && bytes == BlobsAll(vs, c.threshold)[i] && s in still && s !in NamedAll(vs)
    ensures SpliceAny(WeaveAll(vs, c, k, still), s, bytes) == (WeaveAll(vs, c, k, still - {s}), true)
    decreases vs, 0
  {
    BlobAt(vs, c.threshold, i);
    var n, m := |Blobs(vs[0], c.threshold)|, |BlobsAll(vs[1..], c.threshold)|;
    var at := k + n;
    HandedOut(c, k, n, m, at, i, s);
    if i < n {
      SpliceWeave(vs[0], c, k, still, i, s, bytes);
      SpliceAtHead(vs, c, k, at, still, s, bytes);
    } else {
      SpliceWeaveAll(vs[1..], c, at, still, i - n, s, bytes);
      SpliceInRest(vs, c, k, at, still, s, bytes);
    }
  }

  lemma SpliceAtHead(vs: seq<Value>, c: Ctx, k: nat, at: nat, still: set<StreamId>, s: StreamId, bytes: Bytes)
    requires vs != [] && at == k + |Blobs(vs[0], c.threshold)| && s !in Streams(c, at, |BlobsAll(vs[1..], c.threshold)|)
    requires Splice(Weave(vs[0], c, k, still), s, bytes) == (Weave(vs[0], c, k, still - {s}), true)
    ensures SpliceAny(WeaveAll(vs, c, k, still), s, bytes) == (WeaveAll(vs, c, k, still - {s}), true)
  {
    Unaffected(vs[1..], c, at, still, s);
    SpliceFirst(vs, c, k, at, still, still - {s}, s, bytes);
  }

  lemma SpliceInRest(vs: seq<Value>, c: Ctx, k: nat, at: nat, still: set<StreamId>, s: StreamId, bytes: Bytes)
    requires vs != [] && at == k + |Blobs(vs[0], c.threshold)| && s !in Named(vs[0]) && s !in Streams(c, k, |Blobs(vs[0], c.threshold)|)
    requires SpliceAny(WeaveAll(vs[1..], c, at, still), s, bytes) == (WeaveAll(vs[1..], c, at, still - {s}), true)
    ensures SpliceAny(WeaveAll(vs, c, k, still), s, bytes) == (WeaveAll(vs, c, k, still - {s}), true)
  {
    SpliceElsewhere(vs[0], c, k, still, s, bytes);
    SpliceRest(vs, c, k, at, still, still - {s}, s, bytes);
  }

  /** `order` visits each of the `n` positions exactly once. */
  ghost predicate Permutes(order: seq<nat>, n: nat)
  {
    && (forall i :: 0 <= i < |order| ==> order[i] < n)
    && (forall i, j :: 0 <= i < j < |order| ==> order[i] != order[j])
    && (forall i: nat :: i < n ==> i in order)
  }

  function Pick(ds: seq<Detached>, order: seq<nat>): (r: seq<Detached>)
    requires forall i :: 0 <= i < |order| ==> order[i] < |ds|
  {
    seq(|order|, i requires 0 <= i < |order| => ds[order[i]])
  }

  lemma PickStep(ds: seq<Detached>, order: seq<nat>)
    requires order != [] && forall i :: 0 <= i < |order| ==> order[i] < |ds|
    ensures Pick(ds, order) != [] && Pick(ds, order)[0] == ds[order[0]] && Pick(ds, order)[1..] == Pick(ds, order[1..])
  {
  }

  lemma SpliceAllStep(v: Value, ds: seq<Detached>, next: Value, rest: seq<Detached>, last: Value)
    requires ds != [] && ds[1..] == rest
    requires Splice(v, ds[0].stream, ds[0].bytes) == (next, true) && SpliceAll(next, rest) == (last, true)
    ensures SpliceAll(v, ds) == (last, true)
  {
  }

  /** The streams of the positions `order` still has to visit. */
  function Left(c: Ctx, k: nat, order: seq<nat>): (r: set<StreamId>)
  {
    set x | x in order :: c.alloc(k + x)
  }

  lemma LeftStep(c: Ctx, k: nat, n: nat, order: seq<nat>)
    requires order != [] && Distinct(c, k, n) && forall i :: 0 <= i < |order| ==> order[i] < n
    requires forall i, j :: 0 <= i < j < |order| ==> order[i] != order[j]
    ensures Left(c, k, order[1..]) == Left(c, k, order) - {c.alloc(k + order[0])}
    ensures c.alloc(k + order[0]) in Left(c, k, order)
  {
    var rest, s := order[1..], c.alloc(k + order[0]);
    assert order[0] in order && order[0] !in rest;
    forall x | x in order ensures x != order[0] ==> x in rest && c.alloc(k + x) != s {
      if x != order[0] { DifferentStreams(c, k, n, x, order[0]); }
    }
    forall x | x in rest ensures x in order && x != order[0] {}
  }

  lemma DifferentStreams(c: Ctx, k: nat, n: nat, x: nat, y: nat)
    requires Distinct(c, k, n) && x < n && y < n && x != y
    ensures c.alloc(k + x) != c.alloc(k + y)
  {
    var lo, hi := if x < y then k + x else k + y, if x < y then k + y else k + x;
    assert k <= lo < hi < k + n;
  }

  lemma {:induction false} SpliceBack(v: Value, c: Ctx, k: nat, still: set<StreamId>, order: seq<nat>)
    requires Distinct(c, k, |Blobs(v, c.threshold)|)
    requires Named(v) !! Streams(c, k, |Blobs(v, c.threshold)|)
    requires forall i :: 0 <= i < |order| ==> order[i] < |Blobs(v, c.threshold)|
    requires forall i, j :: 0 <= i < j < |order| ==> order[i] != order[j]
    requires still == Left(c, k, order)
    ensures SpliceAll(Weave(v, c, k, still), Pick(Sends(Blobs(v, c.threshold), c, k), order)) == (v, true)
    decreases |order|
  {
    var ds := Sends(Blobs(v, c.threshold), c, k);
    if order == [] {
      WeaveNone(v, c, k, still);
    } else {
      var rest, less := order[1..], Left(c, k, order[1..]);
      LeftStep(c, k, |Blobs(v, c.threshold)|, order);
      assert c.alloc(k + order[0]) in Streams(c, k, |Blobs(v, c.threshold)|);
      SpliceWeave(v, c, k, still, order[0], c.alloc(k + order[0]), Blobs(v, c.threshold)[order[0]]);
      SpliceBack(v, c, k, less, rest);
      PickStep(ds, order);
      SpliceAllStep(Weave(v, c, k, still), Pick(ds, order), Weave(v, c, k, less), Pick(ds, rest), v);
    }
  }

  /**
   `detach` then `splice` is the identity on every tree whose own references name other streams: the
   detached blobs may come back in any order, each one finds its place, and the tree is the one the
   sender started with.
   */
  lemma DetachThenSplice(v: Value, c: Ctx, k: nat, order: seq<nat>)
    requires Distinct(c, k, |Blobs(v, c.threshold)|)
    requires Named(v) !! Streams(c, k, |Blobs(v, c.threshold)|)
    requires Permutes(order, |Detach(v, c, k).1|)
    ensures SpliceAll(Detach(v, c, k).0, Pick(Detach(v, c, k).1, order)) == (v, true)
  {
    var n := |Blobs(v, c.threshold)|;
    DetachSends(v, c, k);
    var still := Left(c, k, order);
    assert Streams(c, k, n) <= still by {
      forall s | s in Streams(c, k, n) ensures s in still {
        var i :| k <= i < k + n && s == c.alloc(i);
        assert i - k in order && s == c.alloc(k + (i - k));
      }
    }
    DetachIsWeave(v, c, k, still);
    SpliceBack(v, c, k, still, order);
  }

  /** A tree in which `refs` finds nothing holds no reference at any depth. */
  lemma {:induction false} NoRefs(v: Value, threshold: nat)
    requires Refs(v) == []
    ensures Visible(v, threshold) == [] && Named(v) == {}
    decreases v, 1
  {
    if v.Arr? || v.Map? { NoRefsAll(v.vals, threshold); }
  }

  lemma {:induction false} NoRefsAll(vs: seq<Value>, threshold: nat)
    requires RefsAll(vs) == []
    ensures VisibleAll(vs, threshold) == [] && NamedAll(vs) == {}
    decreases vs, 0
  {
    if vs != [] {
      assert Refs(vs[0]) == [] && RefsAll(vs[1..]) == [];
      NoRefs(vs[0], threshold);
      NoRefsAll(vs[1..], threshold);
    }
  }
}
