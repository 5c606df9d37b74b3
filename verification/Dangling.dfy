/**
 Responses that hold references of their own, such as a tree that was relayed without being hydrated.
 `register_attachments` passes over a stream it already has, so such a reference can stand in the way of
 a later stream of the same id.  The runs of the other modules leave these responses out; here is what
 goes wrong with them, and exactly when.
 */
module Dangling {
  import opened Base
  import opened Attach
  import opened Wire
  import Collect

  /** Every reference of the response waits to be claimed, as it stands. */
  ghost predicate AsAnnounced(end: End, refs: seq<AttachmentRef>)
  {
    forall i :: 0 <= i < |refs| ==> refs[i].stream in end.attachments && end.attachments[refs[i].stream] == refs[i]
  }

  /** The first reference to `s`. */
  function FirstTo(refs: seq<AttachmentRef>, s: StreamId): (k: nat)
    ensures k <= |refs| && (k < |refs| ==> refs[k].stream == s) && forall i :: 0 <= i < k ==> refs[i].stream != s
  {
    if refs == [] || refs[0].stream == s then 0 else 1 + FirstTo(refs[1..], s)
  }

  /** What waits for a stream after a response was registered: the first reference to it, if it is new. */
  lemma {:induction false} RegisteredIs(end: End, refs: seq<AttachmentRef>, s: StreamId)
    ensures var end', k := RegisterAll(end, refs), FirstTo(refs, s);
      && (s in end'.incoming <==> s in end.incoming || k < |refs|)
      && if s in end.incoming || k == |refs|
         then (s in end'.attachments <==> s in end.attachments) && (s in end.attachments ==> end'.attachments[s] == end.attachments[s])
         else s in end'.attachments && end'.attachments[s] == refs[k]
    decreases |refs|
  {
    if refs != [] {
      var front := refs[..|refs| - 1];
      RegisteredIs(end, front, s);
      FirstOfFront(refs, s);
    }
  }

  lemma FirstOfFront(refs: seq<AttachmentRef>, s: StreamId)
    requires refs != []
    ensures var front, k := refs[..|refs| - 1], FirstTo(refs, s);
      FirstTo(front, s) == if k < |refs| then (if k < |refs| - 1 then k else |refs| - 1) else |refs| - 1
  {
    var front := refs[..|refs| - 1];
    var j, k := FirstTo(front, s), FirstTo(refs, s);
    assert forall i :: 0 <= i < |front| ==> front[i] == refs[i];
    assert j < |front| ==> refs[j].stream == s;
    assert k < |front| ==> front[k].stream == s;
  }

  /**
   Registering a response leaves every reference of it to be claimed as it stands exactly when none of
   their streams is being received already, unless it waits with that very reference, and the response
   does not say two different things of one stream.
   */
  lemma RegisteredExactlyWhen(end: End, refs: seq<AttachmentRef>)
    ensures AsAnnounced(RegisterAll(end, refs), refs) <==>
      && (forall i :: 0 <= i < |refs| && refs[i].stream in end.incoming ==>
            refs[i].stream in end.attachments && end.attachments[refs[i].stream] == refs[i])
      && (forall i, j :: 0 <= i < j < |refs| && refs[i].stream == refs[j].stream ==> refs[i] == refs[j])
  {
    var end' := RegisterAll(end, refs);
    forall i | 0 <= i < |refs| ensures
      refs[i].stream in end'.attachments && end'.attachments[refs[i].stream] == refs[i] <==>
        if refs[i].stream in end.incoming
        then refs[i].stream in end.attachments && end.attachments[refs[i].stream] == refs[i]
        else refs[FirstTo(refs, refs[i].stream)] == refs[i]
    {
      RegisteredIs(end, refs, refs[i].stream);
    }
    if AsAnnounced(end', refs) {
      forall i, j | 0 <= i < j < |refs| && refs[i].stream == refs[j].stream ensures refs[i] == refs[j] {
        assert end'.attachments[refs[i].stream] == refs[i] && end'.attachments[refs[j].stream] == refs[j];
      }
    }
    if forall i, j :: 0 <= i < j < |refs| && refs[i].stream == refs[j].stream ==> refs[i] == refs[j] {
      forall i | 0 <= i < |refs| ensures refs[FirstTo(refs, refs[i].stream)] == refs[i] {
        var k := FirstTo(refs, refs[i].stream);
        assert k <= i;
      }
    }
  }

  // ---------------------------------------------------------------- a run in which one is shadowed

  /** A datum whose blob entry is `blob`. */
  function Holding(blob: Value): Value
  {
    Map([Str("kind"), Str("blob")], [Str("file"), blob])
  }

  lemma HoldingIs(blob: Value)
    ensures IsDatum(Holding(blob)) && Slot(Holding(blob)) == Some(1) && Holding(blob).vals[1] == blob
  {
    var v := Holding(blob);
    SlotNames();
    EntryAt(v, "kind", 0);
    FindNamed(v.keys, "blob", 1);
  }

  lemma {:induction false} NoBlobsInLeaves(vs: seq<Value>, threshold: nat)
    requires forall i :: 0 <= i < |vs| ==> !vs[i].Arr? && !vs[i].Map?
    ensures BlobsAll(vs, threshold) == []
  {
    if vs != [] { NoBlobsInLeaves(vs[1..], threshold); }
  }

  lemma NoBlobsInReference(r: AttachmentRef, threshold: nat)
    ensures Blobs(AttachmentValue(r), threshold) == []
  {
    SlotNames();
    var v := AttachmentValue(r);
    var inner := v.vals[0];
    EntryMissing(v, "kind");
    KindMissing(inner, r);
    NoBlobsInLeaves(inner.vals, threshold);
    assert v.vals[1..] == [] && BlobsAll(v.vals, threshold) == Blobs(inner, threshold) + BlobsAll([], threshold);
  }

  /** A tree that holds a reference: nothing to detach, and the reference to be listed. */
  lemma HoldingReference(r: AttachmentRef, c: Ctx)
    requires r.size < 0x1_0000_0000_0000_0000 && r.offset < 0x1_0000_0000_0000_0000
    ensures var v := Holding(AttachmentValue(r)); Detach(v, c, 0) == (v, []) && Refs(v) == [r]
  {
    var v := Holding(AttachmentValue(r));
    HoldingIs(AttachmentValue(r));
    ParseWritten(r);
    NoBlobsInReference(r, c.threshold);
    var rest := v.vals[1..];
    assert rest == [AttachmentValue(r)] && rest[1..] == [];
    assert BlobsAll(rest, c.threshold) == Blobs(AttachmentValue(r), c.threshold) + BlobsAll([], c.threshold);
    assert BlobsAll(v.vals, c.threshold) == Blobs(v.vals[0], c.threshold) + BlobsAll(rest, c.threshold);
    DetachNothing(v, c, 0);
  }

  /** A tree that holds a blob over the limit: it goes out on the first stream handed out. */
  lemma HoldingBlob(bytes: Bytes, c: Ctx)
    requires c.threshold < |bytes|
    ensures var d := Detached(c.alloc(0), bytes, c.sha(bytes));
      Detach(Holding(Binary(bytes)), c, 0) == (Holding(AttachmentValue(RefTo(d))), [d]) && Blobs(Holding(Binary(bytes)), c.threshold) == [bytes]
  {
    HoldingIs(Binary(bytes));
    var v, d := Holding(Binary(bytes)), Detached(c.alloc(0), bytes, c.sha(bytes));
    assert v.vals[1 := AttachmentValue(RefTo(d))] == Holding(AttachmentValue(RefTo(d))).vals;
  }

  /** What the dialer's end does with a response that refers to one stream. */
  lemma DeliversOne(w: Wire, tree: Value, r: AttachmentRef)
    requires w.fromAcceptor == [Res(None, tree)] && Refs(tree) == [r]
    ensures From(w, Acceptor) != [] && Delivered(w, Dialer) == w.(dialer := Register(w.dialer, r), fromAcceptor := [])
  {
    var refs := [r];
    assert refs[..0] == [] && RegisterAll(w.dialer, refs) == Register(RegisterAll(w.dialer, []), r);
    assert Refs(tree) == refs && Ready(RegisterAll(w.dialer, refs), None) == Register(w.dialer, r);
  }

  /** The acceptor answers with a tree that holds `r`, and the answer arrives. */
  lemma Relays(w: Wire, r: AttachmentRef, env: Env) returns (w1: Wire, w2: Wire)
    requires r.size < 0x1_0000_0000_0000_0000 && r.offset < 0x1_0000_0000_0000_0000 && w.fromAcceptor == []
    ensures w1 == Replied(w, Acceptor, None, false, Holding(AttachmentValue(r)), [], env)
    ensures From(w1, Acceptor) != [] && w2 == Delivered(w1, Dialer)
    ensures w2.dialer == Register(w.dialer, r) && w2.fromAcceptor == [] && w2.acceptor.next == w.acceptor.next
  {
    var v := Holding(AttachmentValue(r));
    HoldingReference(r, CtxOf(env, []));
    w1 := Replied(w, Acceptor, None, false, v, [], env);
    assert w1.fromAcceptor == [Res(None, v)] && w1.dialer == w.dialer;
    DeliversOne(w1, v, r);
    w2 := Delivered(w1, Dialer);
  }

  /** The acceptor answers with a blob, which goes out on stream `s`, and the answer arrives. */
  lemma Answers(w: Wire, bytes: Bytes, s: StreamId, env: Env) returns (w3: Wire, w4: Wire)
    requires w.fromAcceptor == [] && w.acceptor.next == s && env.threshold < |bytes| < 0x1_0000_0000_0000_0000
    ensures Enabled(w, Respond(Acceptor, None, false, Holding(Binary(bytes)), [s]), env)
    ensures w3 == Next(w, Respond(Acceptor, None, false, Holding(Binary(bytes)), [s]), env)
    ensures From(w3, Acceptor) != [] && w4 == Delivered(w3, Dialer)
    ensures From(w3, Acceptor)[0].Res? && Refs(From(w3, Acceptor)[0].result) == [AttachmentRef(s, |bytes|, Some(env.sha(bytes)), 0)]
    ensures w4.dialer == Register(w.dialer, AttachmentRef(s, |bytes|, Some(env.sha(bytes)), 0))
  {
    var d := Detached(s, bytes, env.sha(bytes));
    var tree := Holding(AttachmentValue(RefTo(d)));
    HoldingBlob(bytes, CtxOf(env, [s]));
    NoReferenceInBlob(bytes);
    w3 := Replied(w, Acceptor, None, false, Holding(Binary(bytes)), [s], env);
    HoldingReference(RefTo(d), CtxOf(env, []));
    assert w3.fromAcceptor == [Res(None, tree)] && w3.dialer == w.dialer;
    DeliversOne(w3, tree, RefTo(d));
    w4 := Delivered(w3, Dialer);
  }

  /**
   From any state, the start included: the acceptor relays a reference to the stream id its counter will
   hand out next, and then answers with a blob, which goes out on that stream.  Both responses arrive; but
   what waits for the stream is what the first one said of it, not what the second one announced.
   */
  lemma AReferenceIsShadowed(w: Wire, stale: AttachmentRef, bytes: Bytes, env: Env) returns (w1: Wire, w2: Wire, w3: Wire, w4: Wire)
    requires w.fromAcceptor == [] && stale.stream == w.acceptor.next && stale.stream !in w.dialer.incoming
    requires stale.size < 0x1_0000_0000_0000_0000 && stale.offset < 0x1_0000_0000_0000_0000
    requires env.threshold < |bytes| < 0x1_0000_0000_0000_0000
    ensures w1 == Replied(w, Acceptor, None, false, Holding(AttachmentValue(stale)), [], env)
    ensures From(w1, Acceptor) != [] && w2 == Delivered(w1, Dialer)
    ensures Enabled(w2, Respond(Acceptor, None, false, Holding(Binary(bytes)), [stale.stream]), env)
    ensures w3 == Next(w2, Respond(Acceptor, None, false, Holding(Binary(bytes)), [stale.stream]), env)
    ensures From(w3, Acceptor) != [] && w4 == Delivered(w3, Dialer) && From(w3, Acceptor)[0].Res?
    ensures Refs(From(w3, Acceptor)[0].result) == [AttachmentRef(stale.stream, |bytes|, Some(env.sha(bytes)), 0)]
    ensures stale.stream in w4.dialer.attachments && w4.dialer.attachments[stale.stream] == stale
  {
    w1, w2 := Relays(w, stale, env);
    w3, w4 := Answers(w2, bytes, stale.stream, env);
  }

  /** Whoever hears a blob out under another blob's reference is refused it. */
  lemma ShadowedIsRefused(table: Collect.Table, s: StreamId, bytes: Bytes, max: Collect.Limit, sha: seq<byte> -> string)
    requires s in table && Collect.Drain(table[s].events, [], max) == Collect.Ok(bytes)
    requires table[s].reference.size != |bytes| || (table[s].reference.sha256.Some? && table[s].reference.sha256.value != sha(bytes))
    ensures Collect.Collected(table, s, max, sha).Err?
  {
  }

  lemma NoReferenceInBlob(bytes: Bytes)
    ensures Refs(Holding(Binary(bytes))) == []
  {
    var v := Holding(Binary(bytes));
    HoldingIs(Binary(bytes));
    var rest := v.vals[1..];
    assert rest == [Binary(bytes)] && rest[1..] == [];
    assert RefsAll(rest) == Refs(Binary(bytes)) + RefsAll([]);
    assert RefsAll(v.vals) == Refs(v.vals[0]) + RefsAll(rest);
  }
}
