/**
 From the tree a tool returned to the tree its caller reads: detach, send, register, collect, hydrate.
 */
module EndToEnd {
  import opened Base
  import opened Attach
  import opened Wire
  import opened Session
  import opened Claims
  import opened Collect
  import Flow

  /** Everything a stream's claimant hears: what was taken, what waits, and the ending if there was one. */
  function Story(rx: Flow.Receiver): (r: seq<Flow.Event>)
    requires rx.Rx?
  {
    seq(|rx.got|, i requires 0 <= i < |rx.got| => Flow.Chunk(rx.got[i])) + rx.chan
    + (match rx.finished case Still => [] case Good => [Flow.End] case Bad => [Flow.Broken])
  }

  /** The stream has been heard to its end by a consumer that did not hang up. */
  predicate HeardOut(end: End, s: StreamId)
  {
    s in end.ins && end.ins[s].Rx? && !end.ins[s].finished.Still?
  }

  /** What whoever claimed the streams holds: the references handed over, and what was heard on each stream. */
  ghost function Held(claims: map<StreamId, AttachmentRef>, end: End): (t: Table)
  {
    map s | s in claims :: Pending(claims[s], if s in end.ins && end.ins[s].Rx? then Story(end.ins[s]) else [])
  }

  /**
   A caller hydrating `refs` under the limit `max` has got to the end: it heard out each stream up to the
   first whose reference is over the limit, and of that one it has the reference.
   */
  ghost predicate Worked(claims: map<StreamId, AttachmentRef>, end: End, refs: seq<AttachmentRef>, max: Limit)
    decreases |refs|
  {
    refs == []
    || (if refs[0].size <= max then HeardOut(end, refs[0].stream) && Worked(claims, end, refs[1..], max)
        else refs[0].stream in claims)
  }

  /** An attachment heard out was heard whole. */
  lemma HeardWhole(w: Wire, e: Side, s: StreamId, env: Env)
    requires SoundAt(w, s, env) && HeardOut(At(w, e), s)
    requires s in At(w, Peer(e)).outs && At(w, Peer(e)).outs[s].plan.Some?
    ensures Story(At(w, e).ins[s]) == Told(At(w, Peer(e)).outs[s].plan.value)
  {
    var p := Peer(e);
    SendsItsOwn(w, p, s, env);
    var f := View(w, s, p);
    assert Peer(p) == e && f.rx == At(w, e).ins[s] && Flow.Inv(f, env.window);
    assert f.rx.got + Flow.Waiting([]) == f.rx.got;
    assert f.rx.finished.Good? && f.closing.Ended? && f.rx.got == f.plan.value;
  }

  lemma {:induction false} RepliesStay(ws: seq<Wire>, acts: seq<Act>, env: Env, i: nat, j: nat)
    requires Run(ws, acts, env) && i <= j < |ws|
    ensures ws[i].replies <= ws[j].replies
    decreases j
  {
    if i < j {
      RepliesStay(ws, acts, env, i, j - 1);
      assert Took(ws, acts, env, j - 1);
      StepReplies(ws[j - 1], acts[j - 1], env);
    }
  }

  lemma StepReplies(w: Wire, a: Act, env: Env)
    requires Enabled(w, a, env)
    ensures w.replies <= Next(w, a, env).replies
  {
    match a
    case Call(e) =>
    case Respond(e, answers, streams, original, ids) =>
    case Deliver(e) => Session.DeliverKeeps(w, e);
    case Claim(e, s) =>
    case Poll(e, s) => ConsumerKeeps(w, e, s, true);
    case Drop(e, s) => ConsumerKeeps(w, e, s, false);
    case _ => SenderKeeps(w, a, env);
  }

  function Parts(r: Reply, env: Env): (parts: seq<seq<Item>>)
  {
    var blobs := Blobs(r.original, env.threshold);
    seq(|blobs|, i requires 0 <= i < |blobs| => Chunks(blobs[i], ChunkSize(env)))
  }

  /** Whatever was claimed is what the response said, and whatever was heard out was claimed. */
  ghost predicate HandedOver(claims: map<StreamId, AttachmentRef>, end: End, refs: seq<AttachmentRef>)
  {
    forall i :: 0 <= i < |refs| ==> OneHandedOver(claims, end, refs[i])
  }

  ghost predicate OneHandedOver(claims: map<StreamId, AttachmentRef>, end: End, r: AttachmentRef)
  {
    r.stream in claims || HeardOut(end, r.stream) ==> r.stream in claims && claims[r.stream] == r
  }

  /** What the reply's streams carry is what the caller holds. */
  lemma {:induction false} SuffixArrived(w: Wire, r: Reply, env: Env, claims: map<StreamId, AttachmentRef>, max: Limit, x: nat, ds: seq<Detached>)
    requires Inv(w, env) && Planned(w, r, env) && ds == Detach(r.original, CtxOf(env, r.ids), 0).1 && x <= |ds|
    requires HandedOver(claims, At(w, Peer(r.side)), RefsTo(ds)) && Worked(claims, At(w, Peer(r.side)), RefsTo(ds)[x..], max)
    ensures |Parts(r, env)| == |ds| && Arrived(Held(claims, At(w, Peer(r.side))), ds[x..], Parts(r, env)[x..], max)
    decreases |ds| - x
  {
    DetachSends(r.original, CtxOf(env, r.ids), 0);
    if x < |ds| {
      var refs := RefsTo(ds);
      assert refs[x..][0] == refs[x] == RefTo(ds[x]) && refs[x..][1..] == refs[x + 1..];
      assert ds[x..][0] == ds[x] && ds[x..][1..] == ds[x + 1..] && Parts(r, env)[x..][1..] == Parts(r, env)[x + 1..];
      if |ds[x].bytes| <= max {
        OneArrived(w, r, env, x, ds);
        SuffixArrived(w, r, env, claims, max, x + 1, ds);
      }
    }
  }

  lemma OneArrived(w: Wire, r: Reply, env: Env, x: nat, ds: seq<Detached>)
    requires Inv(w, env) && Planned(w, r, env) && ds == Detach(r.original, CtxOf(env, r.ids), 0).1 && x < |ds|
    requires HeardOut(At(w, Peer(r.side)), ds[x].stream)
    ensures x < |Parts(r, env)| && Concat(Parts(r, env)[x]) == ds[x].bytes
    ensures Story(At(w, Peer(r.side)).ins[ds[x].stream]) == Told(Parts(r, env)[x])
  {
    var e := Peer(r.side);
    DetachSends(r.original, CtxOf(env, r.ids), 0);
    assert ds[x].stream == r.ids[x] && Peer(e) == r.side;
    assert SoundAt(w, r.ids[x], env);
    HeardWhole(w, e, r.ids[x], env);
    ChunksWhole(Blobs(r.original, env.threshold)[x], ChunkSize(env));
  }

  /** The reply `r` comes back as its tool wrote it, or is refused for its size. */
  ghost predicate ComesBack(r: Reply, tree: Value, table: Table, max: Limit, env: Env)
  {
    var (out, failure) := Hydrated(tree, Refs(tree), table, max, env.sha);
    if forall i :: 0 <= i < |Blobs(r.original, env.threshold)| ==> |Blobs(r.original, env.threshold)[i]| <= max
    then out == r.original && failure == None
    else failure == Some(PayloadTooLarge)
  }

  lemma ReplyComesBack(w: Wire, r: Reply, env: Env, claims: map<StreamId, AttachmentRef>, max: Limit)
    requires Inv(w, env) && Planned(w, r, env)
    requires var refs, end := Refs(TreeOf(r, env)), At(w, Peer(r.side)); HandedOver(claims, end, refs) && Worked(claims, end, refs, max)
    ensures ComesBack(r, TreeOf(r, env), Held(claims, At(w, Peer(r.side))), max, env)
  {
    var c := CtxOf(env, r.ids);
    var ds, blobs := Detach(r.original, c, 0).1, Blobs(r.original, env.threshold);
    InWalkOrder(r.original, c);
    DetachSends(r.original, c, 0);
    assert RefsTo(ds)[0..] == RefsTo(ds);
    SuffixArrived(w, r, env, claims, max, 0, ds);
    assert ds[0..] == ds && Parts(r, env)[0..] == Parts(r, env);
    HydrateUndoesDetach(r.original, c, Held(claims, At(w, Peer(r.side))), Parts(r, env), max);
    assert forall i :: 0 <= i < |blobs| ==> ds[i].bytes == blobs[i];
  }

  /** In a run, what a response's references were claimed as is what it said. */
  lemma RunHandsOver(ws: seq<Wire>, acts: seq<Act>, env: Env, i: nat, j: nat, e: Side)
    requires Run(ws, acts, env) && i < j <= |acts|
    requires acts[i] == Deliver(e) && From(ws[i], Peer(e)) != [] && From(ws[i], Peer(e))[0].Res?
    ensures HandedOver(ClaimsOf(ws, acts, e, j), At(ws[j], e), Refs(From(ws[i], Peer(e))[0].result))
  {
    var refs := Refs(From(ws[i], Peer(e))[0].result);
    forall x | 0 <= x < |refs| ensures OneHandedOver(ClaimsOf(ws, acts, e, j), At(ws[j], e), refs[x]) {
      assert Brings(ws, acts, i, e, refs[x]);
      ReferencesAreAccountedFor(ws, acts, env, i, j, e, refs[x]);
      AccountedIsHandedOver(ws, acts, env, j, e, refs[x]);
    }
  }

  lemma AccountedIsHandedOver(ws: seq<Wire>, acts: seq<Act>, env: Env, j: nat, e: Side, r: AttachmentRef)
    requires Run(ws, acts, env) && j <= |acts| && Accounted(ws, acts, e, r, j)
    ensures OneHandedOver(ClaimsOf(ws, acts, e, j), At(ws[j], e), r)
  {
    RunClaims(ws, acts, env, e, r.stream, j);
  }

  /**
   Attachment transparency, end to end.  Take any run, any response delivered in it to side `e`, and
   any later state in which a caller hydrating it has got to the end: it claimed the streams the
   response refers to and heard them out, up to the first it refuses for its size.  Whatever else ran on
   the connection in between, it has exactly the tree the tool on the other side returned; a blob over
   the caller's limit is the only thing that can refuse it.  No reference is ever gone or changed when it
   is claimed, and the size and digest checks never fail.
   */
  lemma AttachmentsAreTransparent(ws: seq<Wire>, acts: seq<Act>, env: Env, i: nat, j: nat, e: Side, max: Limit)
    requires Run(ws, acts, env) && i < j <= |acts|
    requires acts[i] == Deliver(e) && From(ws[i], Peer(e)) != [] && From(ws[i], Peer(e))[0].Res?
    requires Worked(ClaimsOf(ws, acts, e, j), At(ws[j], e), Refs(From(ws[i], Peer(e))[0].result), max)
    ensures var tree := From(ws[i], Peer(e))[0].result;
      exists k :: 0 <= k < |ws[i].replies| && ws[i].replies[k].side == Peer(e) && tree == TreeOf(ws[i].replies[k], env)
                  && ComesBack(ws[i].replies[k], tree, Held(ClaimsOf(ws, acts, e, j), At(ws[j], e)), max, env)
  {
    var tree := From(ws[i], Peer(e))[0].result;
    RunInv(ws, acts, env, i);
    RunInv(ws, acts, env, j);
    RunHandsOver(ws, acts, env, i, j, e);
    assert Gave(ws[i], Peer(e), tree, env);
    var k :| 0 <= k < |ws[i].replies| && ws[i].replies[k].side == Peer(e) && tree == TreeOf(ws[i].replies[k], env);
    RepliesStay(ws, acts, env, i, j);
    assert ws[j].replies[k] == ws[i].replies[k] && Planned(ws[j], ws[j].replies[k], env);
    assert Peer(Peer(e)) == e;
    ReplyComesBack(ws[j], ws[j].replies[k], env, ClaimsOf(ws, acts, e, j), max);
  }

  // ---------------------------------------------------------------- it gets there

  lemma AttachmentFits(w: Wire, r: Reply, env: Env, x: nat)
    requires Inv(w, env) && Planned(w, r, env) && x < |r.ids| && ChunkSize(env) <= env.window
    ensures var f := View(w, r.ids[x], r.side);
      Flow.Inv(f, env.window) && f.plan.Some? && Flow.Fits(f, env.window)
  {
    var s := r.ids[x];
    assert SoundAt(w, s, env);
    SendsItsOwn(w, r.side, s, env);
    ChunksWhole(Blobs(r.original, env.threshold)[x], ChunkSize(env));
    var f := View(w, s, r.side);
    if f.snd.Sending? {
      forall i | 0 <= i < |f.snd.todo| ensures |f.snd.todo[i]| <= env.window {
        assert f.plan.value[|f.sent| + i] == f.snd.todo[i];
      }
    }
  }

  /** The moves that carry stream `s`, sent by `e`, along. */
  predicate Carries(a: Act, e: Side, s: StreamId)
  {
    a == Send(e, s) || a == Finish(e, s) || a == Deliver(e) || a == Deliver(Peer(e))
    || a == Claim(Peer(e), s) || a == Poll(Peer(e), s)
  }

  lemma StepHasAct(w: Wire, e: Side, s: StreamId, step: Flow.Step, env: Env)
    requires Flow.Forward(step) && Flow.Enabled(View(w, s, e), step)
    ensures exists a :: Carries(a, e, s) && Enabled(w, a, env)
  {
    assert Peer(Peer(e)) == e;
    match step
    case Send => assert Carries(Send(e, s), e, s) && Enabled(w, Send(e, s), env);
    case Finish => assert Carries(Finish(e, s), e, s) && Enabled(w, Finish(e, s), env);
    case RecvFwd => assert Carries(Deliver(Peer(e)), e, s) && Enabled(w, Deliver(Peer(e)), env);
    case RecvBack => assert Carries(Deliver(e), e, s) && Enabled(w, Deliver(e), env);
    case Poll =>
      if s in At(w, Peer(e)).attachments {
        assert Carries(Claim(Peer(e), s), e, s) && Enabled(w, Claim(Peer(e), s), env);
      } else {
        assert Carries(Poll(Peer(e), s), e, s) && Enabled(w, Poll(Peer(e), s), env);
      }
  }

  /**
   With a chunk size no larger than the initial credit, no reachable state is stuck: until an
   attachment has been heard out, or its consumer hangs up, some move that carries it along is
   always possible.
   */
  lemma NoAttachmentIsStuck(ws: seq<Wire>, acts: seq<Act>, env: Env, i: nat, k: nat, x: nat)
    requires Run(ws, acts, env) && i < |ws| && k < |ws[i].replies| && x < |ws[i].replies[k].ids|
    requires ChunkSize(env) <= env.window
    ensures var w, r, s := ws[i], ws[i].replies[k], ws[i].replies[k].ids[x];
      || HungUp(At(w, Peer(r.side)), s) || HeardOut(At(w, Peer(r.side)), s)
      || exists a :: Carries(a, r.side, s) && Enabled(w, a, env)
  {
    var w, r := ws[i], ws[i].replies[k];
    RunInv(ws, acts, env, i);
    AttachmentFits(w, r, env, x);
    var f := View(w, r.ids[x], r.side);
    if !f.rx.Dropped? && !(f.rx.Rx? && !f.rx.finished.Still?) {
      Flow.AttachmentNeverStuck(f, env.window);
      var step :| Flow.Forward(step) && Flow.Enabled(f, step);
      StepHasAct(w, r.side, r.ids[x], step, env);
    }
  }
}
