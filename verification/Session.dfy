/**
 Runs of the two endpoints, and what holds in every state a run reaches.
 */
module Session {
  import opened Base
  import opened Attach
  import opened Wire
  import Flow

  // ---------------------------------------------------------------- records only grow

  /** Every sending record stays, for the same kind of stream, and a new one has begun. */
  ghost predicate Grows(end: End, end': End)
  {
    && (forall s | s in end.outs :: s in end'.outs && end'.outs[s].plan == end.outs[s].plan)
    && (BegunAt(end) ==> BegunAt(end'))
  }

  lemma {:induction false} RegisterKeeps(end: End, refs: seq<AttachmentRef>)
    ensures RegisterAll(end, refs).outs == end.outs && RegisterAll(end, refs).next == end.next
    decreases |refs|
  {
    if refs != [] { RegisterKeeps(end, refs[..|refs| - 1]); }
  }

  lemma HandleGrows(end: End, frame: Frame)
    ensures Grows(end, Handle(end, frame).0) && Handle(end, frame).0.next == end.next
    ensures |Handle(end, frame).1| <= 1 && (Handle(end, frame).1 != [] ==> !Handle(end, frame).1[0].Res?)
  {
    if frame.Res? { RegisterKeeps(end, Refs(frame.result)); }
  }

  lemma MovedGrows(end: End, s: StreamId, o: Outgoing, listed: bool)
    requires s in end.outs && o.plan == end.outs[s].plan && !o.snd.Idle?
    ensures Grows(end, Moved(end, s, o, listed))
  {
  }

  /** The sending record of any stream after a response. */
  lemma RespondedOut(end: End, env: Env, answers: Option<StreamId>, streams: bool, original: Value, ids: seq<StreamId>, s: StreamId)
    requires MayRespond(end, env, answers, original, ids) && (s in ids ==> s !in end.outs)
    ensures var out := RowOf(Responded(end, env, answers, streams, original, ids), s).out;
      if s in ids then out.Some? && out.value.plan.Some? && out.value.snd.Sending?
      else if answers == Some(s) then out.Some? && out.value.plan.None? && !out.value.snd.Idle?
      else out == RowOf(end, s).out
  {
    if s in ids {
      var i :| 0 <= i < |ids| && ids[i] == s;
      RespondedNew(end, env, answers, streams, original, ids, i);
    } else {
      RespondedElse(end, env, answers, streams, original, ids, s);
    }
  }

  lemma RespondedGrows(end: End, env: Env, answers: Option<StreamId>, streams: bool, original: Value, ids: seq<StreamId>)
    requires MayRespond(end, env, answers, original, ids) && forall s | s in ids :: s !in end.outs
    requires answers.Some? ==> end.outs[answers.value].plan.None?
    ensures Grows(end, Responded(end, env, answers, streams, original, ids))
  {
    var after := Responded(end, env, answers, streams, original, ids);
    forall s | s in end.outs ensures s in after.outs && after.outs[s].plan == end.outs[s].plan {
      RespondedOut(end, env, answers, streams, original, ids, s);
    }
    forall s | s in after.outs ensures BegunAt(end) ==> !after.outs[s].snd.Idle? {
      RespondedOut(end, env, answers, streams, original, ids, s);
    }
  }

  lemma RespondedOpens(end: End, env: Env, answers: Option<StreamId>, streams: bool, original: Value, ids: seq<StreamId>, i: nat)
    requires MayRespond(end, env, answers, original, ids) && i < |ids| && ids[i] !in end.outs
    ensures var outs := Responded(end, env, answers, streams, original, ids).outs;
      ids[i] in outs && outs[ids[i]] == Opened(env, Blobs(original, env.threshold)[i])
  {
    RespondedNew(end, env, answers, streams, original, ids, i);
    assert RowOf(Responded(end, env, answers, streams, original, ids), ids[i]).out.Some?;
  }

  // ---------------------------------------------------------------- what a step leaves alone

  /** One side became `end` and put `frames` on the link; the other is as it was. */
  ghost predicate Moves(w: Wire, w': Wire, e: Side, frames: seq<Frame>)
  {
    && At(w', Peer(e)) == At(w, Peer(e)) && Grows(At(w, e), At(w', e))
    && From(w', e) == From(w, e) + frames
    && (From(w', Peer(e)) == From(w, Peer(e)) || (From(w, Peer(e)) != [] && From(w', Peer(e)) == From(w, Peer(e))[1..]))
    && |frames| <= 1
  }

  lemma MovesBegun(w: Wire, w': Wire, e: Side, frames: seq<Frame>)
    requires Moves(w, w', e, frames) && Begun(w)
    ensures Begun(w')
  {
    assert Dialer in {e, Peer(e)} && Acceptor in {e, Peer(e)};
  }

  lemma TaggedGrows(end: End, end': End, frame: Frame)
    requires frame.Res? && TaggedFrame(end, frame) && Grows(end, end')
    ensures TaggedFrame(end', frame)
  {
  }

  lemma MovesTagged(w: Wire, w': Wire, e: Side, frames: seq<Frame>)
    requires Moves(w, w', e, frames) && Tagged(w)
    requires frames != [] && frames[0].Res? ==> TaggedFrame(At(w', e), frames[0])
    ensures Tagged(w')
  {
    forall d: Side, i | 0 <= i < |From(w', d)| && From(w', d)[i].Res? ensures TaggedFrame(At(w', d), From(w', d)[i]) {
      if d == e {
        if i < |From(w, e)| { TaggedGrows(At(w, e), At(w', e), From(w, e)[i]); }
      } else {
        var j := if From(w', d) == From(w, d) then i else i + 1;
        assert d == Peer(e) && From(w', d)[i] == From(w, d)[j];
      }
    }
  }

  /** The response side `e` sent is one of the replies it gave. */
  ghost predicate Gave(w: Wire, e: Side, tree: Value, env: Env)
  {
    exists k :: 0 <= k < |w.replies| && w.replies[k].side == e && tree == TreeOf(w.replies[k], env)
  }

  /** What goes on the link in place of the tree the tool returned. */
  function TreeOf(r: Reply, env: Env): Value
  {
    Detach(r.original, CtxOf(env, r.ids), 0).0
  }

  ghost predicate Answered(w: Wire, env: Env)
  {
    forall e: Side, i | 0 <= i < |From(w, e)| && From(w, e)[i].Res? :: Gave(w, e, From(w, e)[i].result, env)
  }

  lemma GaveStays(w: Wire, w': Wire, e: Side, tree: Value, env: Env)
    requires Gave(w, e, tree, env) && w.replies <= w'.replies
    ensures Gave(w', e, tree, env)
  {
    var k :| 0 <= k < |w.replies| && w.replies[k].side == e && tree == TreeOf(w.replies[k], env);
    assert w'.replies[k] == w.replies[k];
  }

  lemma MovesAnswered(w: Wire, w': Wire, e: Side, frames: seq<Frame>, env: Env)
    requires Moves(w, w', e, frames) && Answered(w, env) && w.replies <= w'.replies
    requires frames != [] && frames[0].Res? ==> Gave(w', e, frames[0].result, env)
    ensures Answered(w', env)
  {
    forall d: Side, i | 0 <= i < |From(w', d)| && From(w', d)[i].Res? ensures Gave(w', d, From(w', d)[i].result, env) {
      if d != e || i < |From(w, e)| {
        var j := if d == e || From(w', d) == From(w, d) then i else i + 1;
        assert From(w', d)[i] == From(w, d)[j];
        GaveStays(w, w', d, From(w, d)[j].result, env);
      }
    }
  }

  /** A reply's blobs are what its streams are to send. */
  ghost predicate Planned(w: Wire, r: Reply, env: Env)
  {
    var blobs := Blobs(r.original, env.threshold);
    && Refs(r.original) == [] && |r.ids| == |blobs|
    && (forall i, j :: 0 <= i < j < |r.ids| ==> r.ids[i] < r.ids[j])
    && (forall i :: 0 <= i < |r.ids| ==>
          r.ids[i] in At(w, r.side).outs && At(w, r.side).outs[r.ids[i]].plan == Some(Chunks(blobs[i], ChunkSize(env))))
  }

  ghost predicate Recorded(w: Wire, env: Env)
  {
    forall k :: 0 <= k < |w.replies| ==> Planned(w, w.replies[k], env)
  }

  lemma PlannedGrows(w: Wire, w': Wire, r: Reply, env: Env)
    requires Planned(w, r, env) && Grows(At(w, r.side), At(w', r.side))
    ensures Planned(w', r, env)
  {
  }

  lemma MovesRecorded(w: Wire, w': Wire, e: Side, frames: seq<Frame>, env: Env)
    requires Moves(w, w', e, frames) && Recorded(w, env)
    requires w'.replies == w.replies
          || (|w'.replies| == |w.replies| + 1 && w.replies <= w'.replies && Planned(w', w'.replies[|w.replies|], env))
    ensures Recorded(w', env)
  {
    forall k | 0 <= k < |w'.replies| ensures Planned(w', w'.replies[k], env) {
      if k < |w.replies| {
        assert w'.replies[k] == w.replies[k];
        assert Planned(w, w.replies[k], env);
        PlannedGrows(w, w', w.replies[k], env);
      }
    }
  }

  // ---------------------------------------------------------------- every step

  ghost predicate Inv(w: Wire, env: Env)
  {
    Sound(w, env) && Answered(w, env) && Recorded(w, env)
  }

  /** What a step that hands out no id does to the counters and the births. */
  predicate Settled(w: Wire, w': Wire)
  {
    w'.born == w.born && w'.replies == w.replies && w'.dialer.next == w.dialer.next && w'.acceptor.next == w.acceptor.next
  }

  lemma SenderMoveKeeps(s: StreamId, o: Outgoing, listed: bool, a: Act)
    requires a.Send? ==> o.snd.Sending? && o.snd.todo != [] && |o.snd.todo[0]| <= o.snd.avail
    requires a.Produce? || a.Close? ==> o.snd.Sending?
    requires !o.snd.Idle?
    ensures SenderMove(s, o, listed, a).0.plan == o.plan && !SenderMove(s, o, listed, a).0.snd.Idle?
  {
  }

  lemma PutMoves(w: Wire, e: Side, end: End, frames: seq<Frame>)
    requires Grows(At(w, e), end) && end.next == At(w, e).next && |frames| <= 1
    ensures Settled(w, Put(w, e, end, frames)) && Moves(w, Put(w, e, end, frames), e, frames)
  {
  }

  lemma SenderKeeps(w: Wire, a: Act, env: Env)
    requires SenderAct(a) && Enabled(w, a, env)
    ensures var w' := Next(w, a, env);
      Settled(w, w') && exists frames: seq<Frame> :: Moves(w, w', a.side, frames) && (frames != [] ==> !frames[0].Res?)
  {
    var end := At(w, a.side);
    SenderNext(w, a, env);
    var (o, listed, out) := SenderMove(a.s, end.outs[a.s], a.s in end.credits, a);
    SenderHasBegun(w, a, env);
    SenderMoveKeeps(a.s, end.outs[a.s], a.s in end.credits, a);
    MovedGrows(end, a.s, o, listed);
    PutMoves(w, a.side, Moved(end, a.s, o, listed), out);
  }

  lemma SenderHasBegun(w: Wire, a: Act, env: Env)
    requires SenderAct(a) && Enabled(w, a, env)
    ensures a.s in At(w, a.side).outs && !At(w, a.side).outs[a.s].snd.Idle?
  {
  }

  lemma ConsumerKeeps(w: Wire, e: Side, s: StreamId, poll: bool)
    requires Reads(At(w, e), s) && (poll ==> At(w, e).ins[s].chan != [])
    ensures var (end, out) := ConsumerMove(At(w, e), s, poll);
      var w' := Put(w, e, end, out);
      Settled(w, w') && Moves(w, w', e, out) && (out != [] ==> !out[0].Res?)
  {
  }

  lemma DeliverKeeps(w: Wire, e: Side)
    requires From(w, Peer(e)) != []
    ensures var w', out := Delivered(w, e), Handle(At(w, e), From(w, Peer(e))[0]).1;
      Settled(w, w') && Moves(w, w', e, out) && (out != [] ==> !out[0].Res?)
  {
    HandleGrows(At(w, e), From(w, Peer(e))[0]);
  }

  lemma SettledInv(w: Wire, w': Wire, e: Side, frames: seq<Frame>, env: Env)
    requires Inv(w, env) && Settled(w, w') && Moves(w, w', e, frames) && (frames != [] ==> !frames[0].Res?)
    requires forall s: StreamId :: SoundAt(w', s, env)
    ensures Inv(w', env)
  {
    MovesBegun(w, w', e, frames);
    MovesTagged(w, w', e, frames);
    MovesAnswered(w, w', e, frames, env);
    MovesRecorded(w, w', e, frames, env);
  }

  lemma CalledInv(w: Wire, e: Side, env: Env)
    requires Inv(w, env) && At(w, e).next < 0x1_0000_0000
    ensures Inv(Called(w, e), env)
  {
    var w' := Called(w, e);
    forall s: StreamId ensures SoundAt(w', s, env) { CallActs(w, e, env, s); }
    var frames: seq<Frame> := [Req(At(w, e).next)];
    assert Moves(w, w', e, frames);
    MovesBegun(w, w', e, frames);
    MovesTagged(w, w', e, frames);
    MovesAnswered(w, w', e, frames, env);
    MovesRecorded(w, w', e, frames, env);
  }

  /** A response's streams have no sender yet; the stream it answers has one that waits. */
  lemma NewSenders(w: Wire, e: Side, answers: Option<StreamId>, original: Value, ids: seq<StreamId>, env: Env)
    requires Sound(w, env) && MayRespond(At(w, e), env, answers, original, ids)
    ensures forall s | s in ids :: s !in At(w, e).outs
    ensures answers.Some? ==> At(w, e).outs[answers.value].plan.None?
  {
    forall s | s in ids ensures s !in At(w, e).outs {
      var i :| 0 <= i < |ids| && ids[i] == s;
      FreshUnborn(w, e, ids, i);
      assert SoundAt(w, s, env) && RowOf(At(w, e), s) == Blank;
    }
    if answers.Some? {
      assert SoundAt(w, answers.value, env);
      AskedIsPlain(w, e, answers.value, env);
    }
  }

  lemma RepliedMoves(w: Wire, e: Side, answers: Option<StreamId>, streams: bool, original: Value, ids: seq<StreamId>, env: Env)
    requires Sound(w, env) && MayRespond(At(w, e), env, answers, original, ids)
    ensures var w' := Replied(w, e, answers, streams, original, ids, env);
      && Moves(w, w', e, [Res(answers, TreeOf(Reply(e, original, ids), env))])
      && Planned(w', Reply(e, original, ids), env)
      && (answers.Some? ==> answers.value in At(w', e).outs && At(w', e).outs[answers.value].plan.None?)
  {
    NewSenders(w, e, answers, original, ids, env);
    RespondedGrows(At(w, e), env, answers, streams, original, ids);
    forall i | 0 <= i < |ids|
      ensures var outs := Responded(At(w, e), env, answers, streams, original, ids).outs;
        ids[i] in outs && outs[ids[i]] == Opened(env, Blobs(original, env.threshold)[i])
    {
      RespondedOpens(At(w, e), env, answers, streams, original, ids, i);
    }
  }

  lemma RepliedTagged(end: End, env: Env, answers: Option<StreamId>, original: Value, ids: seq<StreamId>, next: nat)
    requires Refs(original) == [] && |ids| == |Blobs(original, env.threshold)| && Fresh(ids, next)
    requires answers.Some? ==> answers.value in end.outs && end.outs[answers.value].plan.None?
    requires forall i :: 0 <= i < |ids| ==> ids[i] in end.outs && end.outs[ids[i]].plan.Some?
    ensures TaggedFrame(end, Res(answers, Detach(original, CtxOf(env, ids), 0).0))
  {
    var (tree, ds) := Detach(original, CtxOf(env, ids), 0);
    Leaves(env, original, ids, next);
    forall s | Names(Refs(tree), s) ensures s in end.outs && end.outs[s].plan.Some? {
      NamesIds(ds, ids, s);
    }
  }

  lemma RepliedCounted(w: Wire, e: Side, answers: Option<StreamId>, streams: bool, original: Value, ids: seq<StreamId>, env: Env)
    requires Counted(w) && MayRespond(At(w, e), env, answers, original, ids)
    ensures Counted(Replied(w, e, answers, streams, original, ids, env))
  {
    var w' := Replied(w, e, answers, streams, original, ids, env);
    assert At(w', e).next == Last(ids, At(w, e).next) && At(w', Peer(e)) == At(w, Peer(e));
    if ids != [] { assert ids[|ids| - 1] in ids; }
    forall s | s in w'.born ensures s < if s % 2 == 1 then w'.dialer.next else w'.acceptor.next {
      if s in ids {
        var i :| 0 <= i < |ids| && ids[i] == s;
        assert i < |ids| - 1 ==> ids[i] < ids[|ids| - 1];
      } else {
        assert s in w.born;
      }
    }
  }

  lemma RepliedInv(w: Wire, e: Side, answers: Option<StreamId>, streams: bool, original: Value, ids: seq<StreamId>, env: Env)
    requires Inv(w, env) && MayRespond(At(w, e), env, answers, original, ids)
    ensures Inv(Replied(w, e, answers, streams, original, ids, env), env)
  {
    var w', r := Replied(w, e, answers, streams, original, ids, env), Reply(e, original, ids);
    var frames := [Res(answers, TreeOf(r, env))];
    forall s: StreamId ensures SoundAt(w', s, env) {
      assert SoundAt(w, s, env) && (answers.Some? ==> SoundAt(w, answers.value, env));
      RespondActs(w, e, answers, streams, original, ids, env, s);
    }
    RepliedMoves(w, e, answers, streams, original, ids, env);
    RepliedCounted(w, e, answers, streams, original, ids, env);
    RepliedTagged(At(w', e), env, answers, original, ids, At(w, e).next);
    MovesBegun(w, w', e, frames);
    MovesTagged(w, w', e, frames);
    assert w'.replies[|w.replies|] == r && Gave(w', e, TreeOf(r, env), env);
    MovesAnswered(w, w', e, frames, env);
    MovesRecorded(w, w', e, frames, env);
  }

  lemma StepInv(w: Wire, a: Act, env: Env)
    requires Inv(w, env) && Enabled(w, a, env)
    ensures Inv(Next(w, a, env), env)
  {
    match a
    case Call(e) => CalledInv(w, e, env);
    case Respond(e, answers, streams, original, ids) => RepliedInv(w, e, answers, streams, original, ids, env);
    case Deliver(e) => DeliverInv(w, e, env);
    case Claim(e, t) => ClaimInv(w, e, t, env);
    case Poll(e, t) => ConsumerInv(w, e, t, true, env);
    case Drop(e, t) => ConsumerInv(w, e, t, false, env);
    case _ => SenderInv(w, a, env);
  }

  lemma SenderInv(w: Wire, a: Act, env: Env)
    requires Inv(w, env) && SenderAct(a) && Enabled(w, a, env)
    ensures Inv(Next(w, a, env), env)
  {
    var w' := Next(w, a, env);
    forall s: StreamId ensures SoundAt(w', s, env) {
      assert SoundAt(w, s, env) && SoundAt(w, a.s, env);
      SenderActs(w, a, env, s);
    }
    SenderKeeps(w, a, env);
    var frames: seq<Frame> :| Moves(w, w', a.side, frames) && (frames != [] ==> !frames[0].Res?);
    SettledInv(w, w', a.side, frames, env);
  }

  lemma DeliverInv(w: Wire, e: Side, env: Env)
    requires Inv(w, env) && From(w, Peer(e)) != []
    ensures Inv(Delivered(w, e), env)
  {
    forall s: StreamId ensures SoundAt(Delivered(w, e), s, env) { Delivers(w, e, env, s); }
    DeliverKeeps(w, e);
    SettledInv(w, Delivered(w, e), e, Handle(At(w, e), From(w, Peer(e))[0]).1, env);
  }

  lemma ClaimInv(w: Wire, e: Side, t: StreamId, env: Env)
    requires Inv(w, env)
    ensures Inv(Put(w, e, Claiming(At(w, e), t), []), env)
  {
    var w' := Put(w, e, Claiming(At(w, e), t), []);
    forall s: StreamId ensures SoundAt(w', s, env) {
      PutElsewhere(w, e, Claiming(At(w, e), t), [], s);
      assert SoundAt(w, s, env);
      SameStaysSound(w, w', s, env);
    }
    SettledInv(w, w', e, [], env);
  }

  lemma ConsumerInv(w: Wire, e: Side, t: StreamId, poll: bool, env: Env)
    requires Inv(w, env) && Reads(At(w, e), t) && (poll ==> At(w, e).ins[t].chan != [])
    ensures Inv(Put(w, e, ConsumerMove(At(w, e), t, poll).0, ConsumerMove(At(w, e), t, poll).1), env)
  {
    var (end, out) := ConsumerMove(At(w, e), t, poll);
    var w' := Put(w, e, end, out);
    forall s: StreamId ensures SoundAt(w', s, env) {
      assert SoundAt(w, s, env) && SoundAt(w, t, env);
      ConsumerActs(w, e, t, poll, env, s);
    }
    ConsumerKeeps(w, e, t, poll);
    SettledInv(w, w', e, out, env);
  }

  // ---------------------------------------------------------------- runs

  const Idle := End(0, {}, map[], map[], map[], map[])

  /** Just after the handshake: nothing sent, the dialer counting odd ids and the acceptor even ones. */
  const Start := Wire(Idle.(next := 1), Idle.(next := 2), [], [], map[], [])

  ghost predicate Run(ws: seq<Wire>, acts: seq<Act>, env: Env)
  {
    |ws| == |acts| + 1 && ws[0] == Start
    && forall i :: 0 <= i < |acts| ==> Took(ws, acts, env, i)
  }

  /** Step `i` is an act that was possible, and led to the next state. */
  ghost predicate Took(ws: seq<Wire>, acts: seq<Act>, env: Env, i: int)
  {
    0 <= i < |acts| && i + 1 < |ws| && Enabled(ws[i], acts[i], env) && ws[i + 1] == Next(ws[i], acts[i], env)
  }

  lemma {:induction false} RunInv(ws: seq<Wire>, acts: seq<Act>, env: Env, i: nat)
    requires Run(ws, acts, env) && i < |ws|
    ensures Inv(ws[i], env)
  {
    if i > 0 {
      RunInv(ws, acts, env, i - 1);
      assert Took(ws, acts, env, i - 1);
      StepInv(ws[i - 1], acts[i - 1], env);
    }
  }

  // ---------------------------------------------------------------- keys

  /** No table of either end has an entry for `s`. */
  predicate Nowhere(w: Wire, s: StreamId)
  {
    s !in w.dialer.incoming && s !in w.acceptor.incoming && s !in w.dialer.credits && s !in w.acceptor.credits
  }

  /**
   No two live streams share a key: at any moment a key is in at most one end's `incoming` and at
   most one end's `credits`, and never in both tables of one end.
   */
  lemma KeysNeverShared(ws: seq<Wire>, acts: seq<Act>, env: Env, i: nat, s: StreamId)
    requires Run(ws, acts, env) && i < |ws|
    ensures var d, a := ws[i].dialer, ws[i].acceptor;
      && !(s in d.incoming && s in a.incoming) && !(s in d.credits && s in a.credits)
      && !(s in d.incoming && s in d.credits) && !(s in a.incoming && s in a.credits)
  {
    RunInv(ws, acts, env, i);
    var w := ws[i];
    assert SoundAt(w, s, env);
    if s in w.born {
      assert Cast(w, s, w.born[s]);
      assert w.born[s] == Dialer || w.born[s] == Acceptor;
      assert SendingRow(RowOf(At(w, w.born[s]), s)) && ReceivingRow(RowOf(At(w, Peer(w.born[s])), s));
    } else {
      assert RowOf(At(w, Dialer), s) == Blank && RowOf(At(w, Acceptor), s) == Blank;
    }
  }

  lemma UnbornNowhere(w: Wire, s: StreamId, env: Env)
    requires Sound(w, env) && s !in w.born
    ensures Nowhere(w, s)
  {
    assert SoundAt(w, s, env);
    assert RowOf(At(w, Dialer), s) == Blank && RowOf(At(w, Acceptor), s) == Blank;
  }

  lemma WaitingHasNoGate(w: Wire, e: Side, s: StreamId, env: Env)
    requires Sound(w, env) && s in At(w, e).outs && At(w, e).outs[s].snd.Asked?
    ensures s !in At(w, e).credits && s !in At(w, Peer(e)).credits
  {
    assert SoundAt(w, s, env);
    SendsItsOwn(w, e, s, env);
    assert ReceivingRow(RowOf(At(w, Peer(e)), s));
    RowsOfSound(View(w, s, e), env.window);
  }

  /** Every insertion finds its key free: a declared stream, a detached one, its gate, its receiving entry. */
  lemma EveryInsertIsFresh(ws: seq<Wire>, acts: seq<Act>, env: Env, i: nat)
    requires Run(ws, acts, env) && i < |acts|
    ensures var w := ws[i];
      match acts[i]
      case Call(e) => At(w, e).next < 0x1_0000_0000 && Nowhere(w, At(w, e).next)
      case Respond(e, answers, _, _, ids) =>
        && (forall s | s in ids :: Nowhere(w, s))
        && (answers.Some? ==> answers.value !in At(w, e).credits && answers.value !in At(w, Peer(e)).credits)
      case Deliver(e) =>
        From(w, Peer(e)) != [] && (From(w, Peer(e))[0].Res? ==>
          forall s | Names(Refs(From(w, Peer(e))[0].result), s) :: s !in At(w, e).incoming)
      case _ => true
  {
    RunInv(ws, acts, env, i);
    assert Took(ws, acts, env, i);
    var w := ws[i];
    match acts[i]
    case Call(e) => UnbornNowhere(w, At(w, e).next, env);
    case Respond(e, answers, _, original, ids) =>
      forall s | s in ids ensures Nowhere(w, s) {
        var j :| 0 <= j < |ids| && ids[j] == s;
        FreshUnborn(w, e, ids, j);
        UnbornNowhere(w, s, env);
      }
      if answers.Some? { WaitingHasNoGate(w, e, answers.value, env); }
    case Deliver(e) =>
      if From(w, Peer(e))[0].Res? {
        forall s | Names(Refs(From(w, Peer(e))[0].result), s) ensures s !in At(w, e).incoming {
          assert SoundAt(w, s, env);
          AttachmentIsNew(w, e, s, env);
        }
      }
    case _ =>
  }

  lemma AttachmentIsNew(w: Wire, e: Side, s: StreamId, env: Env)
    requires From(w, Peer(e)) != [] && From(w, Peer(e))[0].Res? && SoundAt(w, s, env) && Tagged(w)
    requires Names(Refs(From(w, Peer(e))[0].result), s)
    ensures s !in At(w, e).incoming
  {
    AnnounceKind(w, e, env, s);
    assert RowOf(At(w, e), s).entry.None?;
  }

  // ---------------------------------------------------------------- every stream of every run

  /** Bytes that wait in a consumer's queue. */
  function Unread(end: End, s: StreamId): nat
  {
    if s in end.ins && end.ins[s].Rx? then Flow.ChanBytes(end.ins[s].chan) else 0
  }

  predicate HungUp(end: End, s: StreamId)
  {
    s in end.ins && end.ins[s].Dropped?
  }

  /** A listed stream, seen alone. */
  lemma ListedView(ws: seq<Wire>, acts: seq<Act>, env: Env, i: nat, e: Side, s: StreamId)
    requires Run(ws, acts, env) && i < |ws| && s in At(ws[i], e).credits
    ensures var w, f := ws[i], View(ws[i], s, e);
      && Flow.Inv(f, env.window) && f.listed && Transmits(At(w, e), s) && At(w, e).outs[s].snd == f.snd
      && (f.rx.Dropped? <==> HungUp(At(w, Peer(e)), s)) && Unread(At(w, Peer(e)), s) == Flow.ChanBytes(Flow.Queue(f))
  {
    RunInv(ws, acts, env, i);
    assert SoundAt(ws[i], s, env);
    SendsItsOwn(ws[i], e, s, env);
    RowsOfSound(View(ws[i], s, e), env.window);
  }

  /**
   Credit conservation: in every state of every run, for every stream with a gate whose consumer has
   not hung up, the gate, the chunks on the link, the chunks queued and the credit on its way back
   add up to the initial window, so what the consumer has not taken yet never exceeds it.
   */
  lemma CreditIsConserved(ws: seq<Wire>, acts: seq<Act>, env: Env, i: nat, e: Side, s: StreamId)
    requires Run(ws, acts, env) && i < |ws| && s in At(ws[i], e).credits && !HungUp(At(ws[i], Peer(e)), s)
    ensures var w := ws[i];
      var onLink := Flow.FwdBytes(Fwds(From(w, e), s));
      && Transmits(At(w, e), s)
      && At(w, e).outs[s].snd.avail + onLink + Unread(At(w, Peer(e)), s) + Flow.Credit(Backs(From(w, Peer(e)), s)) == env.window
      && onLink + Unread(At(w, Peer(e)), s) <= env.window
  {
    ListedView(ws, acts, env, i, e, s);
    Flow.CreditIsConserved(View(ws[i], s, e), env.window);
  }

  /**
   No deadlock: a sender that cannot send an item that fits the window has chunks on the link,
   chunks its consumer has yet to take, or credit on its way back.
   */
  lemma BlockedMeansMoreToCome(ws: seq<Wire>, acts: seq<Act>, env: Env, i: nat, e: Side, s: StreamId)
    requires Run(ws, acts, env) && i < |ws| && s in At(ws[i], e).credits && !HungUp(At(ws[i], Peer(e)), s)
    requires Transmits(At(ws[i], e), s) && At(ws[i], e).outs[s].snd.todo != []
    requires |At(ws[i], e).outs[s].snd.todo[0]| <= env.window && !Enabled(ws[i], Send(e, s), env)
    ensures var w := ws[i];
      || Flow.FwdBytes(Fwds(From(w, e), s)) > 0
      || Unread(At(w, Peer(e)), s) > 0
      || Flow.Credit(Backs(From(w, Peer(e)), s)) > 0
  {
    CreditIsConserved(ws, acts, env, i, e, s);
    ListedView(ws, acts, env, i, e, s);
  }

  /**
   What a consumer has and what waits for it is always a prefix of what was sent; a clean end means
   all of it, from a sender that ended; a failure is only ever one the sender reported, never a gap;
   and after either there is nothing left to hear.
   */
  lemma ConsumersSeeAPrefix(ws: seq<Wire>, acts: seq<Act>, env: Env, i: nat, e: Side, s: StreamId)
    requires Run(ws, acts, env) && i < |ws| && s in At(ws[i], e).ins && At(ws[i], e).ins[s].Rx?
    ensures var w, rx := ws[i], At(ws[i], e).ins[s];
      var o := RowOf(At(w, Peer(e)), s).out;
      var sent := if o.Some? then o.value.sent else [];
      && rx.got + Flow.Waiting(rx.chan) <= sent
      && (rx.finished.Good? ==> o.Some? && o.value.closing.Ended? && rx.got == sent)
      && (rx.finished.Bad? ==> o.Some? && o.value.closing.Faulted?)
      && (!rx.finished.Still? ==> rx.chan == [] && s !in At(w, e).incoming)
  {
    RunInv(ws, acts, env, i);
    assert SoundAt(ws[i], s, env);
    ReceivesItsOwn(ws[i], e, s, env);
    var f := View(ws[i], s, Peer(e));
    assert Flow.DeliveryInv(f) && f.rx == At(ws[i], e).ins[s];
    assert Peer(Peer(e)) == e;
  }
}
