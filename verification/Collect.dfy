/**
 Taking attachments back in: `collect_attachment` and `hydrate`.
 */
module Collect {
  import opened Base
  import opened Attach
  import Flow

  datatype Failure = AttachmentGone | PayloadTooLarge | StreamFailed | ConnectionLost | Truncated | Corrupt

  datatype Outcome = Ok(bytes: Bytes) | Err(error: Failure)

  /** An announced attachment: its reference, and what whoever claims it will hear on its stream. */
  datatype Pending = Pending(reference: AttachmentRef, events: seq<Flow.Event>)

  type Table = map<StreamId, Pending>

  /** A `usize`. */
  type Limit = n: int | 0 <= n < 0x1_0000_0000_0000_0000

  // ---------------------------------------------------------------- what the two calls compute

  function Drain(events: seq<Flow.Event>, buf: Bytes, max: Limit): (r: Outcome)
    decreases |events|
  {
    if events == [] then Err(ConnectionLost) else
    match events[0]
    case Chunk(x) => if |buf + x| > max then Err(PayloadTooLarge) else Drain(events[1..], buf + x, max)
    case End => Ok(buf)
    case Broken => Err(StreamFailed)
  }

  function Checked(bytes: Bytes, reference: AttachmentRef, sha: seq<byte> -> string): Outcome
  {
    if |bytes| != reference.size then Err(Truncated)
    else if reference.sha256.Some? && reference.sha256.value != sha(bytes) then Err(Corrupt)
    else Ok(bytes)
  }

  function Collected(table: Table, stream: StreamId, max: Limit, sha: seq<byte> -> string): (r: Outcome)
  {
    if stream !in table then Err(AttachmentGone) else
    var p := table[stream];
    if p.reference.size > max then Err(PayloadTooLarge) else
    match Drain(p.events, [], max)
    case Ok(bytes) => Checked(bytes, p.reference, sha)
    case Err(e) => Err(e)
  }

  /** The tree with each reference of `refs` filled in turn, up to the first that fails. */
  function Hydrated(v: Value, refs: seq<AttachmentRef>, table: Table, max: Limit, sha: seq<byte> -> string): (r: (Value, Option<Failure>))
    decreases |refs|
  {
    if refs == [] then (v, None) else
    var stream := refs[0].stream;
    match Collected(table, stream, max, sha)
    case Err(e) => (v, Some(e))
    case Ok(bytes) => Hydrated(Splice(v, stream, bytes).0, refs[1..], table - {stream}, max, sha)
  }

  // ---------------------------------------------------------------- the calls

  /** The receiving end's table of attachments nobody has claimed, and the cancels it has sent. */
  class Inbox {
    const sha: seq<byte> -> string
    var attachments: Table
    var cancels: seq<StreamId>

    constructor (sha: seq<byte> -> string)
      ensures this.sha == sha && attachments == map[] && cancels == []
    {
      this.sha, attachments, cancels := sha, map[], [];
    }

    /** A claimed attachment leaves the table whatever comes of it; one too large is cancelled. */
    method CollectAttachment(stream: StreamId, max: Limit) returns (r: Outcome)
      modifies this
      ensures r == Collected(old(attachments), stream, max, sha)
      ensures attachments == old(attachments) - {stream}
      ensures cancels == old(cancels) + if r == Err(PayloadTooLarge) then [stream] else []
    {
      if stream !in attachments { return Err(AttachmentGone); }
      var p := attachments[stream];
      attachments := attachments - {stream};
      if p.reference.size > max {
        cancels := cancels + [stream];
        return Err(PayloadTooLarge);
      }
      var buf: Bytes, i := [], 0;
      while i < |p.events| && p.events[i].Chunk?
        invariant 0 <= i <= |p.events| && |buf| <= max
        invariant Drain(p.events[i..], buf, max) == Drain(p.events, [], max)
        invariant attachments == old(attachments) - {stream} && cancels == old(cancels)
      {
        assert p.events[i..][1..] == p.events[i + 1..];
        if |buf + p.events[i].item| > max {
          cancels := cancels + [stream];
          return Err(PayloadTooLarge);
        }
        buf, i := buf + p.events[i].item, i + 1;
      }
      if i == |p.events| { return Err(ConnectionLost); }
      if p.events[i].Broken? { return Err(StreamFailed); }
      if |buf| != p.reference.size { return Err(Truncated); }
      if p.reference.sha256.Some? {
        if p.reference.sha256.value != sha(buf) { return Err(Corrupt); }
      }
      r := Ok(buf);
    }

    /** The payload is changed in place, so a failure leaves the references before it filled. */
    method Hydrate(payload: Value, max: Limit) returns (tree: Value, failure: Option<Failure>)
      modifies this
      ensures (tree, failure) == Hydrated(payload, Refs(payload), old(attachments), max, sha)
    {
      var refs, i := Refs(payload), 0;
      tree, failure := payload, None;
      while i < |refs|
        invariant 0 <= i <= |refs| && failure == None
        invariant Hydrated(tree, refs[i..], attachments, max, sha) == Hydrated(payload, refs, old(attachments), max, sha)
      {
        var r := CollectAttachment(refs[i].stream, max);
        assert refs[i..][1..] == refs[i + 1..];
        if r.Err? { failure := Some(r.error); return; }
        tree, i := Splice(tree, refs[i].stream, r.bytes).0, i + 1;
      }
    }
  }

  // ---------------------------------------------------------------- what they give back

  /** Everything the consumer of a stream that sent `items` and ended hears. */
  function Told(items: seq<seq<byte>>): (r: seq<Flow.Event>)
  {
    seq(|items|, i requires 0 <= i < |items| => Flow.Chunk(items[i])) + [Flow.End]
  }

  lemma {:induction false} DrainTold(items: seq<seq<byte>>, buf: Bytes, max: Limit)
    requires |buf| <= max
    ensures |buf + Concat(items)| <= max ==> Drain(Told(items), buf, max) == Ok(buf + Concat(items))
    ensures |buf + Concat(items)| > max ==> Drain(Told(items), buf, max) == Err(PayloadTooLarge)
    decreases |items|
  {
    if items == [] {
      assert buf + [] == buf;
    } else {
      assert Told(items)[1..] == Told(items[1..]);
      assert buf + Concat(items) == (buf + items[0]) + Concat(items[1..]);
      if |buf + items[0]| <= max { DrainTold(items[1..], buf + items[0], max); }
    }
  }

  /**
   What hydrating gets to see of `ds` under the limit `max`: each, up to the first that is over it, is in
   the table under its own reference, and each within it came in whole, as the chunks `parts` has for it.
   */
  ghost predicate Arrived(table: Table, ds: seq<Detached>, parts: seq<seq<seq<byte>>>, max: Limit)
    decreases |ds|
  {
    |parts| == |ds|
    && (ds == []
        || (&& ds[0].stream in table && table[ds[0].stream].reference == RefTo(ds[0])
            && (|ds[0].bytes| <= max ==>
                  && Concat(parts[0]) == ds[0].bytes && table[ds[0].stream].events == Told(parts[0])
                  && Arrived(table, ds[1..], parts[1..], max))))
  }

  /** Claiming one of the others takes nothing away. */
  lemma {:induction false} ArrivedStill(table: Table, ds: seq<Detached>, parts: seq<seq<seq<byte>>>, max: Limit, s: StreamId)
    requires Arrived(table, ds, parts, max) && forall i :: 0 <= i < |ds| ==> ds[i].stream != s
    ensures Arrived(table - {s}, ds, parts, max)
    decreases |ds|
  {
    if ds != [] && |ds[0].bytes| <= max { ArrivedStill(table, ds[1..], parts[1..], max, s); }
  }

  ghost predicate Apart(ds: seq<Detached>)
  {
    forall i, j :: 0 <= i < j < |ds| ==> ds[i].stream != ds[j].stream
  }

  ghost predicate Fit(ds: seq<Detached>, max: Limit)
  {
    forall i :: 0 <= i < |ds| ==> |ds[i].bytes| <= max
  }

  lemma CollectsWhole(table: Table, d: Detached, items: seq<seq<byte>>, max: Limit, sha: seq<byte> -> string)
    requires d.stream in table && table[d.stream].reference == RefTo(d) && d.sha256 == sha(d.bytes)
    requires |d.bytes| <= max ==> Concat(items) == d.bytes && table[d.stream].events == Told(items)
    ensures Collected(table, d.stream, max, sha) == if |d.bytes| <= max then Ok(d.bytes) else Err(PayloadTooLarge)
  {
    if |d.bytes| <= max {
      DrainTold(items, [], max);
      assert [] + d.bytes == d.bytes;
    }
  }

  lemma {:induction false} HydratesAll(v: Value, table: Table, ds: seq<Detached>, parts: seq<seq<seq<byte>>>, max: Limit, sha: seq<byte> -> string)
    requires Arrived(table, ds, parts, max) && Apart(ds) && forall i :: 0 <= i < |ds| ==> ds[i].sha256 == sha(ds[i].bytes)
    ensures Fit(ds, max) ==> Hydrated(v, RefsTo(ds), table, max, sha) == (SpliceAll(v, ds).0, None)
    ensures !Fit(ds, max) ==> Hydrated(v, RefsTo(ds), table, max, sha).1 == Some(PayloadTooLarge)
    decreases |ds|
  {
    if ds != [] {
      CollectsWhole(table, ds[0], parts[0], max, sha);
      assert RefsTo(ds)[1..] == RefsTo(ds[1..]);
      if |ds[0].bytes| <= max {
        ArrivedStill(table, ds[1..], parts[1..], max, ds[0].stream);
        HydratesAll(Splice(v, ds[0].stream, ds[0].bytes).0, table - {ds[0].stream}, ds[1..], parts[1..], max, sha);
        assert !Fit(ds, max) <==> !Fit(ds[1..], max);
      }
    }
  }

  lemma InWalkOrder(v: Value, c: Ctx)
    requires Refs(v) == [] && Distinct(c, 0, |Blobs(v, c.threshold)|)
    ensures SpliceAll(Detach(v, c, 0).0, Detach(v, c, 0).1) == (v, true)
    ensures Refs(Detach(v, c, 0).0) == RefsTo(Detach(v, c, 0).1) && Apart(Detach(v, c, 0).1)
    ensures forall i :: 0 <= i < |Detach(v, c, 0).1| ==> Detach(v, c, 0).1[i].sha256 == c.sha(Detach(v, c, 0).1[i].bytes)
  {
    var ds := Detach(v, c, 0).1;
    NoRefs(v, c.threshold);
    DetachSends(v, c, 0);
    RefsListWhatLeft(v, c, 0);
    var order: seq<nat> := seq(|ds|, i => i);
    forall i: nat | i < |ds| ensures i in order { assert order[i] == i; }
    DetachThenSplice(v, c, 0, order);
    assert Pick(ds, order) == ds;
  }

  /**
   The receiving half of transparency: when every blob `hydrate` gets to, of a response with no
   reference in it, has come in whole, in chunks of any sizes, it gives back the tree the sender had; it
   fails exactly when a blob is over the caller's limit, and then only for that reason.
   */
  lemma HydrateUndoesDetach(v: Value, c: Ctx, table: Table, parts: seq<seq<seq<byte>>>, max: Limit)
    requires Refs(v) == [] && Distinct(c, 0, |Blobs(v, c.threshold)|)
    requires Arrived(table, Detach(v, c, 0).1, parts, max)
    ensures var (tree, ds) := Detach(v, c, 0);
      var (out, failure) := Hydrated(tree, Refs(tree), table, max, c.sha);
      && (Fit(ds, max) ==> out == v && failure == None)
      && (!Fit(ds, max) ==> failure == Some(PayloadTooLarge))
  {
    InWalkOrder(v, c);
    HydratesAll(Detach(v, c, 0).0, table, Detach(v, c, 0).1, parts, max, c.sha);
  }
}
