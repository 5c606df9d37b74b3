/**
 What the walks do with one datum, said of its keys and values themselves: which maps are rewritten,
 listed and filled, and which are only walked through.
 */
module Datums {
  import opened Base
  import opened Attach

  /** Key `k` is the first one spelled `name`, and has a value. */
  ghost predicate FirstAt(v: Value, name: string, k: nat)
  {
    v.Map? && k < |v.keys| && k < |v.vals| && v.keys[k] == Str(name) && forall j :: 0 <= j < k ==> v.keys[j] != Str(name)
  }

  /** The map is tagged at `i` as an image or a file, and keeps its blob at `j`. */
  ghost predicate Datum(v: Value, i: nat, j: nat)
  {
    FirstAt(v, "kind", i) && (v.vals[i] == Str("image") || v.vals[i] == Str("file")) && FirstAt(v, "blob", j)
  }

  /** The map's first tag, if it has one, is neither. */
  ghost predicate Untagged(v: Value)
  {
    v.Map? && |v.keys| == |v.vals| && forall i: nat :: FirstAt(v, "kind", i) ==> v.vals[i] != Str("image") && v.vals[i] != Str("file")
  }

  lemma DatumIs(v: Value, i: nat, j: nat)
    requires Datum(v, i, j)
    ensures IsDatum(v) && Slot(v) == Some(j)
  {
    EntryAt(v, "kind", i);
    FindNamed(v.keys, "blob", j);
  }

  lemma UntaggedIsNot(v: Value)
    requires Untagged(v)
    ensures !IsDatum(v)
  {
    var k := Find(v.keys, "kind");
    FindIsFirst(v.keys, "kind");
    if k < |v.keys| { assert FirstAt(v, "kind", k); }
  }

  lemma {:induction false} FindIsFirst(keys: seq<Value>, name: string)
    ensures var k := Find(keys, name); (k < |keys| ==> keys[k] == Str(name)) && forall j :: 0 <= j < k ==> keys[j] != Str(name)
    decreases |keys|
  {
    if keys != [] && keys[0] != Str(name) {
      FindIsFirst(keys[1..], name);
      forall j | 0 <= j < Find(keys, name) ensures keys[j] != Str(name) { assert j > 0 ==> keys[j] == keys[1..][j - 1]; }
    }
  }

  /** A blob over the limit goes out on the next stream, and a reference to it stays in its place; nothing else changes. */
  lemma BigBlobIsDetached(v: Value, i: nat, j: nat, bytes: Bytes, c: Ctx, k: nat)
    requires Datum(v, i, j) && v.vals[j] == Binary(bytes) && c.threshold < |bytes|
    ensures var s, digest := c.alloc(k), c.sha(bytes);
      && Detach(v, c, k).1 == [Detached(s, bytes, digest)]
      && Detach(v, c, k).0 == Map(v.keys, v.vals[j := AttachmentValue(AttachmentRef(s, |bytes|, Some(digest), 0))])
  {
    DatumIs(v, i, j);
  }

  /** A blob within the limit stays where it is. */
  lemma SmallBlobStays(v: Value, i: nat, j: nat, bytes: Bytes, c: Ctx, k: nat)
    requires Datum(v, i, j) && v.vals[j] == Binary(bytes) && |bytes| <= c.threshold
    ensures Detach(v, c, k) == (Map(v.keys, DetachAll(v.vals, c, k).0), DetachAll(v.vals, c, k).1)
    ensures Detach(v, c, k).0.vals[j] == Binary(bytes)
  {
    DatumIs(v, i, j);
    LeafStays(v.vals, c, k, j);
  }

  lemma {:induction false} LeafStays(vs: seq<Value>, c: Ctx, k: nat, j: nat)
    requires j < |vs| && !vs[j].Arr? && !vs[j].Map?
    ensures DetachAll(vs, c, k).0[j] == vs[j]
    decreases |vs|
  {
    if j > 0 { LeafStays(vs[1..], c, k + |Detach(vs[0], c, k).1|, j - 1); }
  }

  /** The map is a datum whose blob, over the limit, is this one. */
  ghost predicate Holds(v: Value, limit: nat, bytes: Bytes)
  {
    limit < |bytes| && exists i: nat, j: nat :: Datum(v, i, j) && v.vals[j] == Binary(bytes)
  }

  /** Some datum of the tree holds it, and no other datum with a blob over the limit is around that one. */
  ghost predicate Reaches(v: Value, limit: nat, bytes: Bytes)
    decreases v
  {
    || Holds(v, limit, bytes)
    || ((v.Arr? || v.Map?) && (forall b :: !Holds(v, limit, b))
        && exists i :: 0 <= i < |v.vals| && Reaches(v.vals[i], limit, bytes))
  }

  lemma HoldsIsBig(v: Value, limit: nat, bytes: Bytes)
    ensures Holds(v, limit, bytes) <==> Big(v, limit) && v.vals[Slot(v).value] == Binary(bytes)
  {
    if Holds(v, limit, bytes) {
      var i: nat, j: nat :| Datum(v, i, j) && v.vals[j] == Binary(bytes);
      DatumIs(v, i, j);
    }
    if Big(v, limit) && v.vals[Slot(v).value] == Binary(bytes) {
      FindIsFirst(v.keys, "kind");
      FindIsFirst(v.keys, "blob");
      assert Datum(v, Find(v.keys, "kind"), Slot(v).value);
    }
  }

  lemma {:induction false} BlobsExactlyWhen(v: Value, limit: nat, bytes: Bytes)
    ensures bytes in Blobs(v, limit) <==> Reaches(v, limit, bytes)
    decreases v, 1
  {
    HoldsIsBig(v, limit, bytes);
    if Big(v, limit) {
      HoldsIsBig(v, limit, v.vals[Slot(v).value].bytes);
    } else if v.Arr? || v.Map? {
      forall b ensures !Holds(v, limit, b) { HoldsIsBig(v, limit, b); }
      BlobsInExactlyWhen(v.vals, limit, bytes);
    }
  }

  lemma {:induction false} BlobsInExactlyWhen(vs: seq<Value>, limit: nat, bytes: Bytes)
    ensures bytes in BlobsAll(vs, limit) <==> exists i :: 0 <= i < |vs| && Reaches(vs[i], limit, bytes)
    decreases vs, 0
  {
    if vs != [] {
      BlobsExactlyWhen(vs[0], limit, bytes);
      BlobsInExactlyWhen(vs[1..], limit, bytes);
      assert forall i :: 1 <= i < |vs| ==> vs[i] == vs[1..][i - 1];
    }
  }

  /** Some blob of these is this one. */
  ghost predicate Sent(ds: seq<Detached>, bytes: Bytes)
  {
    exists i :: 0 <= i < |ds| && ds[i].bytes == bytes
  }

  /** Over any tree: a blob is sent exactly when the walk comes to a datum that holds it over the limit. */
  lemma SentExactlyWhen(v: Value, c: Ctx, k: nat, bytes: Bytes)
    ensures Sent(Detach(v, c, k).1, bytes) <==> Reaches(v, c.threshold, bytes)
  {
    DetachSends(v, c, k);
    BlobsExactlyWhen(v, c.threshold, bytes);
    var ds, blobs := Detach(v, c, k).1, Blobs(v, c.threshold);
    assert |ds| == |blobs| && forall i :: 0 <= i < |blobs| ==> ds[i].bytes == blobs[i];
  }

  /** A datum that carries a reference is listed, once, and not looked into. */
  lemma CarriedIsListed(v: Value, i: nat, j: nat, r: AttachmentRef)
    requires Datum(v, i, j) && v.vals[j] == AttachmentValue(r)
    requires r.size < 0x1_0000_0000_0000_0000 && r.offset < 0x1_0000_0000_0000_0000
    ensures Refs(v) == [r]
  {
    DatumIs(v, i, j);
    ParseWritten(r);
  }

  /** Filling it puts the bytes in its place and nowhere else. */
  lemma CarriedIsFilled(v: Value, i: nat, j: nat, r: AttachmentRef, bytes: Bytes)
    requires Datum(v, i, j) && v.vals[j] == AttachmentValue(r)
    requires r.size < 0x1_0000_0000_0000_0000 && r.offset < 0x1_0000_0000_0000_0000
    ensures Splice(v, r.stream, bytes) == (Map(v.keys, v.vals[j := Binary(bytes)]), true)
  {
    DatumIs(v, i, j);
    ParseWritten(r);
  }

  /** A map that is not tagged as an image or a file is never itself rewritten, listed or filled: only its values are. */
  lemma OtherMapsAreWalkedThrough(v: Value, c: Ctx, k: nat, s: StreamId, bytes: Bytes)
    requires Untagged(v)
    ensures Detach(v, c, k) == (Map(v.keys, DetachAll(v.vals, c, k).0), DetachAll(v.vals, c, k).1)
    ensures Refs(v) == RefsAll(v.vals)
    ensures Splice(v, s, bytes) == (Map(v.keys, SpliceAny(v.vals, s, bytes).0), SpliceAny(v.vals, s, bytes).1)
  {
    UntaggedIsNot(v);
  }

  // ---------------------------------------------------------------- what reads as a reference

  /** The number at the first key `name`, when it fits 64 bits. */
  ghost predicate Number(v: Value, name: string, n: nat)
  {
    exists k: nat :: FirstAt(v, name, k) && v.vals[k] == Integer(n) && n < 0x1_0000_0000_0000_0000
  }

  lemma EntryFirst(v: Value, name: string)
    requires v.Map?
    ensures forall k: nat :: FirstAt(v, name, k) ==> Entry(v, name) == Some(v.vals[k])
    ensures Entry(v, name).Some? ==> exists k: nat :: FirstAt(v, name, k) && Entry(v, name) == Some(v.vals[k])
  {
    FindIsFirst(v.keys, name);
    forall k: nat | FirstAt(v, name, k) ensures Entry(v, name) == Some(v.vals[k]) { EntryAt(v, name, k); }
    if Entry(v, name).Some? { assert FirstAt(v, name, Find(v.keys, name)); }
  }

  lemma NumberIs(v: Value, name: string)
    requires v.Map?
    ensures forall n: nat :: Number(v, name, n) <==> Entry(v, name).Some? && AsU64(Entry(v, name).value) == Some(n)
  {
    EntryFirst(v, name);
    forall n: nat | Entry(v, name).Some? && AsU64(Entry(v, name).value) == Some(n) ensures Number(v, name, n) {
      var k: nat :| FirstAt(v, name, k) && Entry(v, name) == Some(v.vals[k]);
    }
  }

  /** The map under the first "attachment", when there is one. */
  ghost predicate Wraps(v: Value, inner: Value)
  {
    inner.Map? && exists k: nat :: FirstAt(v, "attachment", k) && v.vals[k] == inner
  }

  /** What the envelope says: the stream cut to 32 bits, the size, the digest if it is text, the offset or 0. */
  ghost predicate Says(inner: Value, r: AttachmentRef)
  {
    && inner.Map?
    && (exists n: nat :: Number(inner, "stream", n) && r.stream == n % 0x1_0000_0000)
    && Number(inner, "size", r.size)
    && SaysDigest(inner, r.sha256) && SaysOffset(inner, r.offset)
  }

  ghost predicate SaysDigest(inner: Value, digest: Option<string>)
  {
    match digest
    case Some(d) => exists k: nat :: FirstAt(inner, "sha256", k) && inner.vals[k] == Str(d)
    case None => forall k: nat :: FirstAt(inner, "sha256", k) ==> !inner.vals[k].Str?
  }

  ghost predicate SaysOffset(inner: Value, offset: nat)
  {
    Number(inner, "offset", offset) || (offset == 0 && forall n: nat :: !Number(inner, "offset", n))
  }

  lemma DigestIs(inner: Value, digest: Option<string>)
    requires inner.Map?
    ensures SaysDigest(inner, digest) <==> digest == match Entry(inner, "sha256") case Some(x) => AsStr(x) case None => None
  {
    EntryFirst(inner, "sha256");
  }

  lemma OffsetIs(inner: Value, offset: nat)
    requires inner.Map?
    ensures SaysOffset(inner, offset) <==>
      offset == match Entry(inner, "offset") case Some(x) => (match AsU64(x) case Some(n) => n case None => 0) case None => 0
  {
    NumberIs(inner, "offset");
    assert forall n: nat :: Number(inner, "offset", n) ==> AsU64(Entry(inner, "offset").value) == Some(n);
  }

  lemma StreamIs(inner: Value, s: StreamId)
    requires inner.Map?
    ensures (exists n: nat :: Number(inner, "stream", n) && s == n % 0x1_0000_0000) <==>
      Entry(inner, "stream").Some? && AsU64(Entry(inner, "stream").value).Some? && s == AsU64(Entry(inner, "stream").value).value % 0x1_0000_0000
  {
    NumberIs(inner, "stream");
    if Entry(inner, "stream").Some? && AsU64(Entry(inner, "stream").value).Some? {
      assert Number(inner, "stream", AsU64(Entry(inner, "stream").value).value);
    }
  }

  /** A value reads as a reference exactly when it wraps an envelope that says so. */
  lemma ParsesExactlyWhen(v: Value, r: AttachmentRef)
    ensures ParseAttachment(v) == Some(r) <==> exists inner :: Wraps(v, inner) && Says(inner, r)
  {
    if v.Map? {
      EntryFirst(v, "attachment");
      if ParseAttachment(v) == Some(r) {
        var k: nat :| FirstAt(v, "attachment", k) && Entry(v, "attachment") == Some(v.vals[k]);
        EnvelopeSays(v, v.vals[k], r);
        assert Wraps(v, v.vals[k]);
      }
      if exists inner :: Wraps(v, inner) && Says(inner, r) {
        var inner :| Wraps(v, inner) && Says(inner, r);
        EnvelopeSays(v, inner, r);
      }
    }
  }

  lemma EnvelopeSays(v: Value, inner: Value, r: AttachmentRef)
    requires v.Map? && Entry(v, "attachment") == Some(inner)
    ensures ParseAttachment(v) == Some(r) <==> Says(inner, r)
  {
    if inner.Map? {
      StreamIs(inner, r.stream);
      NumberIs(inner, "size");
      DigestIs(inner, r.sha256);
      OffsetIs(inner, r.offset);
    }
  }

  /** The map is a datum that carries this reference. */
  ghost predicate Bears(v: Value, r: AttachmentRef)
  {
    exists i: nat, j: nat, inner :: Datum(v, i, j) && Wraps(v.vals[j], inner) && Says(inner, r)
  }

  /** Some datum of the tree carries it, and no other datum that carries one is around that one. */
  ghost predicate Shows(v: Value, r: AttachmentRef)
    decreases v
  {
    || Bears(v, r)
    || ((v.Arr? || v.Map?) && (forall x :: !Bears(v, x)) && exists i :: 0 <= i < |v.vals| && Shows(v.vals[i], r))
  }

  lemma BearsIsCarried(v: Value, r: AttachmentRef)
    ensures Bears(v, r) <==> Carried(v) == Some(r)
  {
    if Bears(v, r) {
      var i: nat, j: nat, inner :| Datum(v, i, j) && Wraps(v.vals[j], inner) && Says(inner, r);
      DatumIs(v, i, j);
      ParsesExactlyWhen(v.vals[j], r);
    }
    if Carried(v) == Some(r) {
      FindIsFirst(v.keys, "kind");
      FindIsFirst(v.keys, "blob");
      ParsesExactlyWhen(v.vals[Slot(v).value], r);
      assert Datum(v, Find(v.keys, "kind"), Slot(v).value);
    }
  }

  /** Over any tree: a reference is listed exactly when the walk comes to a datum that carries it. */
  lemma {:induction false} ListedExactlyWhen(v: Value, r: AttachmentRef)
    ensures r in Refs(v) <==> Shows(v, r)
    decreases v, 1
  {
    BearsIsCarried(v, r);
    if Carried(v).Some? {
      BearsIsCarried(v, Carried(v).value);
    } else if v.Arr? || v.Map? {
      forall x ensures !Bears(v, x) { BearsIsCarried(v, x); }
      ListedInExactlyWhen(v.vals, r);
    }
  }

  lemma {:induction false} ListedInExactlyWhen(vs: seq<Value>, r: AttachmentRef)
    ensures r in RefsAll(vs) <==> exists i :: 0 <= i < |vs| && Shows(vs[i], r)
    decreases vs, 0
  {
    if vs != [] {
      ListedExactlyWhen(vs[0], r);
      ListedInExactlyWhen(vs[1..], r);
      assert forall i :: 1 <= i < |vs| ==> vs[i] == vs[1..][i - 1];
    }
  }
}
