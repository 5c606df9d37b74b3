/**
 Every stream of every run runs alone: seen from one stream, each act of the two endpoints is one step of
 the single-stream model, and which one depends only on the act and the frame it delivers, or it is none.
 */
module Steps {
  import opened Base
  import opened Attach
  import opened Wire
  import opened Session
  import opened Claims
  import opened Delivery
  import Flow

  /** The step an act is for stream `s`, when `e` sends it; `None` when it has nothing to do with it. */
  ghost function Part(w: Wire, a: Act, e: Side, s: StreamId, env: Env): (r: Option<Flow.Step>)
    requires Enabled(w, a, env)
  {
    match a
    case Call(d) => if d != e && s == At(w, d).next then Some(Flow.Declare) else None
    case Respond(d, answers, streams, original, ids) =>
      if d != e then None
      else if s in ids then
        var i :| 0 <= i < |ids| && ids[i] == s;
        Some(Flow.Attach(Chunks(Blobs(original, env.threshold)[i], ChunkSize(env))))
      else if answers == Some(s) then Some(if streams then Flow.Begin else Flow.Answer)
      else None
    case Deliver(d) =>
      var frame := From(w, Peer(d))[0];
      if d != e then (if Fwd(frame, s) != [] then Some(Flow.RecvFwd) else None)
      else if Back(frame, s) != [] then Some(Flow.RecvBack) else None
    case Claim(_, _) => None
    case Poll(d, t) => if d != e && t == s then Some(Flow.Poll) else None
    case Drop(d, t) => if d != e && t == s then Some(Flow.Drop) else None
    case _ => if a.side == e && a.s == s then Some(StepOf(a)) else None
  }

  /** Stream `s` goes from `w` to `w'` by the given step, or is as it was. */
  ghost predicate Follows(w: Wire, w': Wire, e: Side, s: StreamId, part: Option<Flow.Step>, env: Env)
  {
    match part
    case None => View(w', s, e) == View(w, s, e)
    case Some(step) => Flow.Enabled(View(w, s, e), step) && View(w', s, e) == Flow.Next(View(w, s, e), step, env.window)
  }

  lemma ClearView(w: Wire, s: StreamId, e: Side)
    requires Clear(w, s)
    ensures View(w, s, e) == Flow.Unborn
  {
    assert RowOf(At(w, e), s) == Blank && RowOf(At(w, Peer(e)), s) == Blank;
  }

  lemma SenderFollows(w: Wire, a: Act, env: Env, e: Side, s: StreamId)
    requires Sound(w, env) && SenderAct(a) && Enabled(w, a, env) && (s in w.born ==> w.born[s] == e)
    ensures Follows(w, Next(w, a, env), e, s, Part(w, a, e, s, env), env)
  {
    if a.s == s {
      assert SoundAt(w, s, env);
      SenderEnabled(w, a, env);
      SendsItsOwn(w, a.side, s, env);
      SenderView(w, a, env);
    } else {
      SenderElsewhere(w, a, env, s);
      SameView(w, Next(w, a, env), s, e);
    }
  }

  lemma ConsumerFollows(w: Wire, a: Act, env: Env, e: Side, s: StreamId)
    requires Sound(w, env) && (a.Poll? || a.Drop?) && Enabled(w, a, env) && (s in w.born ==> w.born[s] == e)
    ensures Follows(w, Next(w, a, env), e, s, Part(w, a, e, s, env), env)
  {
    var d := a.side;
    if a.s == s {
      assert SoundAt(w, s, env);
      ReceivesItsOwn(w, d, s, env);
      assert Peer(d) == e;
      ConsumerView(w, d, s, a.Poll?, env);
    } else {
      ConsumerElsewhere(w, a, env, s);
      SameView(w, Next(w, a, env), s, e);
    }
  }

  lemma ConsumerElsewhere(w: Wire, a: Act, env: Env, s: StreamId)
    requires (a.Poll? || a.Drop?) && Enabled(w, a, env) && a.s != s
    ensures SameAt(w, Next(w, a, env), s)
  {
    ConsumerRow(At(w, a.side), a.s, a.Poll?, s);
    var (end, out) := ConsumerMove(At(w, a.side), a.s, a.Poll?);
    PutElsewhere(w, a.side, end, out, s);
  }

  lemma CallFollows(w: Wire, d: Side, env: Env, e: Side, s: StreamId)
    requires Sound(w, env) && At(w, d).next < 0x1_0000_0000 && (s in Called(w, d).born ==> Called(w, d).born[s] == e)
    ensures Follows(w, Called(w, d), e, s, Part(w, Call(d), e, s, env), env)
  {
    if s == At(w, d).next {
      assert SoundAt(w, s, env);
      CallBorn(w, d, env, s);
      ClearView(w, s, e);
    } else {
      CallElsewhere(w, d, s);
      SameView(w, Called(w, d), s, e);
    }
  }

  lemma AttachFollows(w: Wire, a: Act, env: Env, e: Side, s: StreamId)
    requires Sound(w, env) && a.Respond? && Enabled(w, a, env) && s in a.ids && a.side == e
    ensures Follows(w, Next(w, a, env), e, s, Part(w, a, e, s, env), env)
  {
    var Respond(_, answers, streams, original, ids) := a;
    var step := Part(w, a, e, s, env).value;
    var i :| 0 <= i < |ids| && ids[i] == s && step == Flow.Attach(Chunks(Blobs(original, env.threshold)[i], ChunkSize(env)));
    if answers.Some? {
      assert SoundAt(w, answers.value, env);
      AskedIsPlain(w, e, answers.value, env);
    }
    FreshUnborn(w, e, ids, i);
    assert SoundAt(w, s, env);
    RespondParts(w, e, answers, streams, original, ids, env, s);
    RespondedNew(At(w, e), env, answers, streams, original, ids, i);
    RespondAttach(w, Next(w, a, env), e, answers, ids, Blobs(original, env.threshold)[i], env, s);
    ClearView(w, s, e);
  }

  lemma RespondFollows(w: Wire, a: Act, env: Env, e: Side, s: StreamId)
    requires Sound(w, env) && a.Respond? && Enabled(w, a, env) && s !in a.ids && (s in w.born ==> w.born[s] == e)
    ensures Follows(w, Next(w, a, env), e, s, Part(w, a, e, s, env), env)
  {
    var Respond(d, answers, streams, original, ids) := a;
    assert SoundAt(w, s, env);
    if answers == Some(s) { AskedIsPlain(w, d, s, env); }
    RespondParts(w, d, answers, streams, original, ids, env, s);
    RespondedElse(At(w, d), env, answers, streams, original, ids, s);
    if answers == Some(s) {
      RespondBegin(w, Next(w, a, env), d, streams, ids, env, s);
    } else {
      RespondElsewhere(w, Next(w, a, env), d, answers, ids, s);
      SameView(w, Next(w, a, env), s, e);
    }
  }

  lemma QuietFollows(w: Wire, d: Side, env: Env, e: Side, s: StreamId)
    requires From(w, Peer(d)) != [] && Fwd(From(w, Peer(d))[0], s) == [] && Back(From(w, Peer(d))[0], s) == []
    ensures Follows(w, Delivered(w, d), e, s, None, env)
  {
    if From(w, Peer(d))[0].Res? { ResponseElsewhere(w, d, env, s); } else { DeliverElsewhere(w, d, env, s); }
    SameView(w, Delivered(w, d), s, e);
  }

  lemma ForwardFollows(w: Wire, d: Side, env: Env, s: StreamId)
    requires Sound(w, env) && From(w, Peer(d)) != [] && Fwd(From(w, Peer(d))[0], s) != []
    ensures s in w.born && w.born[s] == Peer(d) && Follows(w, Delivered(w, d), Peer(d), s, Some(Flow.RecvFwd), env)
  {
    assert SoundAt(w, s, env);
    CastByFrame(w, d, env, s);
    if From(w, Peer(d))[0].Res? {
      AnnounceKind(w, d, env, s);
      AnnounceView(w, d, env, s);
    } else {
      RowsOfSound(View(w, s, Peer(d)), env.window);
      ForwardView(w, d, env, s);
    }
  }

  lemma BackFollows(w: Wire, d: Side, env: Env, s: StreamId)
    requires Sound(w, env) && From(w, Peer(d)) != [] && Back(From(w, Peer(d))[0], s) != []
    ensures s in w.born && w.born[s] == d && Follows(w, Delivered(w, d), d, s, Some(Flow.RecvBack), env)
  {
    assert SoundAt(w, s, env);
    CastByFrame(w, d, env, s);
    RowsOfSound(View(w, s, d), env.window);
    BackView(w, d, env, s);
  }

  lemma DeliverFollows(w: Wire, d: Side, env: Env, e: Side, s: StreamId)
    requires Sound(w, env) && From(w, Peer(d)) != [] && (s in w.born ==> w.born[s] == e)
    ensures Follows(w, Delivered(w, d), e, s, Part(w, Deliver(d), e, s, env), env)
  {
    var f, part := From(w, Peer(d))[0], Part(w, Deliver(d), e, s, env);
    if Fwd(f, s) != [] {
      ForwardFollows(w, d, env, s);
      assert e == Peer(d) && part == Some(Flow.RecvFwd);
    } else if Back(f, s) != [] {
      BackFollows(w, d, env, s);
      assert e == d && part == Some(Flow.RecvBack);
    } else {
      QuietFollows(w, d, env, e, s);
      assert part == None;
    }
  }

  /** One act of the two endpoints is, for every stream at once, its own step or none. */
  lemma EveryActIsAStep(w: Wire, a: Act, env: Env, e: Side, s: StreamId)
    requires Sound(w, env) && Enabled(w, a, env)
    requires s in Next(w, a, env).born ==> Next(w, a, env).born[s] == e
    ensures Follows(w, Next(w, a, env), e, s, Part(w, a, e, s, env), env)
  {
    if s in w.born { BornStays(w, a, env, s); }
    match a
    case Call(d) => CallFollows(w, d, env, e, s);
    case Respond(_, _, _, _, ids) =>
      if s in ids { AttachFollows(w, a, env, e, s); } else { RespondFollows(w, a, env, e, s); }
    case Deliver(d) => DeliverFollows(w, d, env, e, s);
    case Claim(d, t) =>
      PutElsewhere(w, d, Claiming(At(w, d), t), [], s);
      SameView(w, Next(w, a, env), s, e);
    case Poll(_, _) => ConsumerFollows(w, a, env, e, s);
    case Drop(_, _) => ConsumerFollows(w, a, env, e, s);
    case _ => SenderFollows(w, a, env, e, s);
  }

  lemma {:induction false} BornForGood(ws: seq<Wire>, acts: seq<Act>, env: Env, i: nat, j: nat, s: StreamId)
    requires Run(ws, acts, env) && i <= j <= |acts| && s in ws[i].born
    ensures s in ws[j].born && ws[j].born[s] == ws[i].born[s]
    decreases j - i
  {
    if i < j {
      RunStep(ws, acts, env, i);
      BornStays(ws[i], acts[i], env, s);
      BornForGood(ws, acts, env, i + 1, j, s);
    }
  }

  /**
   The two-ended system refines the single stream, for every stream at once: from any run, what one
   stream sees is a run of its own, from nothing on, whatever all the others do.
   */
  lemma EveryStreamRunsAlone(ws: seq<Wire>, acts: seq<Act>, env: Env, e: Side, s: StreamId, i: nat)
    requires Run(ws, acts, env) && i < |acts| && (s in ws[|acts|].born ==> ws[|acts|].born[s] == e)
    ensures View(ws[0], s, e) == Flow.Unborn
    ensures Enabled(ws[i], acts[i], env) && Follows(ws[i], ws[i + 1], e, s, Part(ws[i], acts[i], e, s, env), env)
  {
    RunStep(ws, acts, env, i);
    if s in ws[i + 1].born { BornForGood(ws, acts, env, i + 1, |acts|, s); }
    EveryActIsAStep(ws[i], acts[i], env, e, s);
    assert SoundAt(Start, s, env);
  }

  /** Nothing was heard on the stream, and no ending either. */
  predicate Unheard(end: End, s: StreamId)
  {
    s in end.ins && end.ins[s].Rx? ==> end.ins[s].got == [] && end.ins[s].finished.Still?
  }

  /** The sending end has nothing to send on the stream, and never did. */
  predicate MuteAt(end: End, s: StreamId)
  {
    s in end.outs && end.outs[s].snd.Gone? && end.outs[s].closing.Silent? && end.outs[s].sent == []
  }

  lemma MuteView(w: Wire, e: Side, s: StreamId)
    ensures Flow.Mute(View(w, s, e)) <==> MuteAt(At(w, e), s)
  {
  }

  lemma MuteSound(w: Wire, e: Side, s: StreamId, env: Env)
    requires Sound(w, env) && MuteAt(At(w, e), s)
    ensures s in w.born && w.born[s] == e && Flow.Inv(View(w, s, e), env.window) && Flow.Mute(View(w, s, e))
  {
    assert SoundAt(w, s, env);
    SendsItsOwn(w, e, s, env);
    MuteView(w, e, s);
  }

  lemma StepMute(w: Wire, a: Act, env: Env, e: Side, s: StreamId)
    requires Sound(w, env) && Enabled(w, a, env) && MuteAt(At(w, e), s)
    ensures MuteAt(At(Next(w, a, env), e), s)
  {
    MuteSound(w, e, s, env);
    BornStays(w, a, env, s);
    EveryActIsAStep(w, a, env, e, s);
    FollowsMute(w, Next(w, a, env), e, s, Part(w, a, e, s, env), env);
  }

  lemma FollowsMute(w: Wire, w': Wire, e: Side, s: StreamId, part: Option<Flow.Step>, env: Env)
    requires Flow.Inv(View(w, s, e), env.window) && Flow.Mute(View(w, s, e)) && Follows(w, w', e, s, part, env)
    ensures MuteAt(At(w', e), s)
  {
    if part.Some? { Flow.MuteForGood(View(w, s, e), part.value, env.window); }
    MuteView(w', e, s);
  }

  lemma MuteUnheard(w: Wire, e: Side, s: StreamId, env: Env)
    requires Sound(w, env) && MuteAt(At(w, e), s)
    ensures Unheard(At(w, Peer(e)), s)
  {
    MuteSound(w, e, s, env);
    if View(w, s, e).rx.Rx? { Flow.MuteIsUnheard(View(w, s, e), env.window); }
  }

  lemma AnsweredMute(w: Wire, a: Act, env: Env, s: StreamId)
    requires Sound(w, env) && a.Respond? && Enabled(w, a, env) && a.answers == Some(s) && !a.streams
    ensures MuteAt(At(Next(w, a, env), a.side), s)
  {
    assert SoundAt(w, s, env);
    AskedIsPlain(w, a.side, s, env);
    AnsweredIsNotNew(w, a, env, s);
    RespondFollows(w, a, env, a.side, s);
    MuteView(Next(w, a, env), a.side, s);
  }

  lemma {:induction false} StaysMute(ws: seq<Wire>, acts: seq<Act>, env: Env, e: Side, s: StreamId, i: nat, j: nat)
    requires Run(ws, acts, env) && i <= j <= |acts| && MuteAt(At(ws[i], e), s)
    ensures MuteAt(At(ws[j], e), s)
    decreases j - i
  {
    if i < j {
      RunStep(ws, acts, env, i);
      StepMute(ws[i], acts[i], env, e, s);
      StaysMute(ws, acts, env, e, s, i + 1, j);
    }
  }

  lemma MuteAfter(ws: seq<Wire>, acts: seq<Act>, env: Env, i: nat, j: nat, s: StreamId)
    requires Run(ws, acts, env) && i < j <= |acts| && acts[i].Respond? && acts[i].answers == Some(s) && !acts[i].streams
    ensures MuteAt(At(ws[j], acts[i].side), s)
  {
    RunStep(ws, acts, env, i);
    AnsweredMute(ws[i], acts[i], env, s);
    StaysMute(ws, acts, env, acts[i].side, s, i + 1, j);
  }

  /**
   A caller that declared a stream and got a plain response waits on it in vain: whatever either end
   does later, it never hears a chunk or an ending there.
   */
  lemma PlainAnswerIsNeverHeard(ws: seq<Wire>, acts: seq<Act>, env: Env, i: nat, j: nat, s: StreamId)
    requires Run(ws, acts, env) && i < j <= |acts| && acts[i].Respond? && acts[i].answers == Some(s) && !acts[i].streams
    ensures Unheard(At(ws[j], Peer(acts[i].side)), s)
  {
    MuteAfter(ws, acts, env, i, j, s);
    RunInv(ws, acts, env, j);
    MuteUnheard(ws[j], acts[i].side, s, env);
  }

  lemma AnsweredIsNotNew(w: Wire, a: Act, env: Env, s: StreamId)
    requires Sound(w, env) && a.Respond? && Enabled(w, a, env) && s in w.born
    ensures s !in a.ids
  {
    if s in a.ids {
      var i :| 0 <= i < |a.ids| && a.ids[i] == s;
      FreshUnborn(w, a.side, a.ids, i);
    }
  }
}
