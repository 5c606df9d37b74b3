/**
 Attachments arrive: from every state a run reaches, the ends can go on, without anybody hanging up,
 until each blob of a response has been heard out by whoever claims it, and the caller has the tree.
 */
module Delivery {
  import opened Base
  import opened Attach
  import opened Wire
  import opened Session
  import opened Claims
  import opened Collect
  import opened EndToEnd
  import Flow

  // ---------------------------------------------------------------- one delivery

  /** On a link that keeps order, a chunk that arrives is the one expected. */
  lemma NoGap(f: Flow.Flow, window: nat)
    requires Flow.Inv(f, window) && f.fwd != [] && f.fwd[0].Data? && f.entry.Some?
    ensures f.fwd[0].no == f.entry.value
  {
    assert Flow.Live(f);
  }

  /** So nothing that is delivered makes an end send anything back. */
  lemma DeliverIsQuiet(w: Wire, d: Side, env: Env)
    requires Sound(w, env) && From(w, Peer(d)) != []
    ensures Handle(At(w, d), From(w, Peer(d))[0]).1 == []
  {
    var f := From(w, Peer(d))[0];
    if f.SData? && f.stream in At(w, d).incoming {
      var s := f.stream;
      assert SoundAt(w, s, env);
      CastByFrame(w, d, env, s);
      TakeQueues(w, d, s);
      assert View(w, s, Peer(d)).fwd[0] == Flow.Data(f.no, f.item) && Peer(Peer(d)) == d;
      NoGap(View(w, s, Peer(d)), env.window);
    }
  }

  /** The stream, sent by `e`, is where it was, or one step further. */
  ghost predicate StaysOrSteps(w: Wire, w': Wire, e: Side, s: StreamId, step: Flow.Step, env: Env)
  {
    || View(w', s, e) == View(w, s, e)
    || (Flow.Enabled(View(w, s, e), step) && View(w', s, e) == Flow.Next(View(w, s, e), step, env.window))
  }

  lemma SameView(w: Wire, w': Wire, s: StreamId, e: Side)
    requires SameAt(w, w', s)
    ensures View(w', s, e) == View(w, s, e)
  {
  }

  /** What a delivery to the receiving end does to a stream. */
  lemma DeliverForth(w: Wire, e: Side, env: Env, s: StreamId)
    requires Sound(w, env) && s in w.born && w.born[s] == e && From(w, e) != []
    ensures StaysOrSteps(w, Delivered(w, Peer(e)), e, s, Flow.RecvFwd, env)
  {
    var d, f := Peer(e), From(w, e)[0];
    assert Peer(d) == e && SoundAt(w, s, env);
    if f.Res? {
      if Fwd(f, s) == [] {
        ResponseElsewhere(w, d, env, s);
        SameView(w, Delivered(w, d), s, e);
      } else {
        AnnounceKind(w, d, env, s);
        AnnounceView(w, d, env, s);
      }
    } else if About(f) != s {
      DeliverElsewhere(w, d, env, s);
      SameView(w, Delivered(w, d), s, e);
    } else {
      CastByFrame(w, d, env, s);
      RowsOfSound(View(w, s, e), env.window);
      ForwardView(w, d, env, s);
    }
  }

  /** What a delivery to the sending end does to a stream. */
  lemma DeliverBackTo(w: Wire, e: Side, env: Env, s: StreamId)
    requires Sound(w, env) && s in w.born && w.born[s] == e && From(w, Peer(e)) != []
    ensures StaysOrSteps(w, Delivered(w, e), e, s, Flow.RecvBack, env)
  {
    var f := From(w, Peer(e))[0];
    assert SoundAt(w, s, env);
    CastByFrame(w, e, env, s);
    if f.Res? {
      ResponseElsewhere(w, e, env, s);
      SameView(w, Delivered(w, e), s, e);
    } else if About(f) != s {
      DeliverElsewhere(w, e, env, s);
      SameView(w, Delivered(w, e), s, e);
    } else {
      RowsOfSound(View(w, s, e), env.window);
      BackView(w, e, env, s);
    }
  }

  // ---------------------------------------------------------------- every move leaves less to do

  function OnLink(w: Wire): nat
  {
    |w.fromDialer| + |w.fromAcceptor|
  }

  /** What is left until stream `s`, sent by `e`, has been heard out. */
  function Left(w: Wire, e: Side, s: StreamId): nat
  {
    2 * Flow.Work(View(w, s, e)) + OnLink(w) + if s in At(w, Peer(e)).attachments then 1 else 0
  }

  /** A planned stream that fits the window and that nobody has hung up on. */
  ghost predicate Travels(w: Wire, e: Side, s: StreamId, env: Env)
  {
    s in w.born && w.born[s] == e && Alive(w, e, s, env)
  }

  /** Seen alone, it is sound. */
  lemma TravelsSoundly(w: Wire, e: Side, s: StreamId, env: Env)
    requires Sound(w, env) && s in w.born && w.born[s] == e
    ensures Flow.Inv(View(w, s, e), env.window) && Cast(w, s, e)
  {
    assert SoundAt(w, s, env);
  }

  /** A move that carries the stream on. */
  ghost predicate Advances(w: Wire, a: Act, e: Side, s: StreamId, env: Env)
  {
    Enabled(w, a, env) && Carries(a, e, s) && Left(Next(w, a, env), e, s) < Left(w, e, s) && Alive(Next(w, a, env), e, s, env)
  }

  ghost predicate Alive(w: Wire, e: Side, s: StreamId, env: Env)
  {
    var f := View(w, s, e); f.plan.Some? && Flow.Fits(f, env.window) && !f.rx.Dropped?
  }

  lemma PutSize(w: Wire, e: Side, end: End, frames: seq<Frame>)
    ensures OnLink(Put(w, e, end, frames)) == OnLink(w) + |frames|
  {
  }

  lemma DeliveredSize(w: Wire, d: Side, env: Env)
    requires Sound(w, env) && From(w, Peer(d)) != []
    ensures OnLink(Delivered(w, d)) == OnLink(w) - 1
  {
    DeliverIsQuiet(w, d, env);
  }

  lemma LeftFalls(w: Wire, w': Wire, e: Side, s: StreamId)
    requires Flow.Work(View(w', s, e)) < Flow.Work(View(w, s, e)) && OnLink(w') <= OnLink(w) + 1
    requires s in At(w', Peer(e)).attachments ==> s in At(w, Peer(e)).attachments
    ensures Left(w', e, s) < Left(w, e, s)
  {
  }

  lemma SenderSize(w: Wire, a: Act, env: Env)
    requires SenderAct(a) && Enabled(w, a, env)
    ensures OnLink(Next(w, a, env)) <= OnLink(w) + 1
  {
    var end := At(w, a.side);
    SenderNext(w, a, env);
    var (o, listed, out) := SenderMove(a.s, end.outs[a.s], a.s in end.credits, a);
    PutSize(w, a.side, Moved(end, a.s, o, listed), out);
  }

  lemma SenderAdvances(w: Wire, a: Act, e: Side, s: StreamId, env: Env)
    requires Sound(w, env) && Travels(w, e, s, env) && Enabled(w, a, env) && (a == Send(e, s) || a == Finish(e, s))
    ensures Advances(w, a, e, s, env)
  {
    TravelsSoundly(w, e, s, env);
    assert SoundAt(w, s, env);
    SenderEnabled(w, a, env);
    SenderView(w, a, env);
    Flow.ForwardWorks(View(w, s, e), StepOf(a), env.window);
    SenderSize(w, a, env);
    OtherEnd(w, a, env);
    LeftFalls(w, Next(w, a, env), e, s);
  }

  lemma PollAdvances(w: Wire, e: Side, s: StreamId, env: Env)
    requires Sound(w, env) && Travels(w, e, s, env) && Enabled(w, Poll(Peer(e), s), env)
    ensures Advances(w, Poll(Peer(e), s), e, s, env)
  {
    TravelsSoundly(w, e, s, env);
    var d := Peer(e);
    assert Peer(d) == e && SoundAt(w, s, env);
    ConsumerView(w, d, s, true, env);
    Flow.ForwardWorks(View(w, s, e), Flow.Poll, env.window);
    PolledPut(w, d, s, env);
    LeftFalls(w, Next(w, Poll(d, s), env), e, s);
  }

  lemma PolledPut(w: Wire, d: Side, s: StreamId, env: Env)
    requires Enabled(w, Poll(d, s), env)
    ensures var (end, out) := ConsumerMove(At(w, d), s, true);
      Next(w, Poll(d, s), env) == Put(w, d, end, out) && OnLink(Put(w, d, end, out)) <= OnLink(w) + 1
      && At(Put(w, d, end, out), d).attachments == At(w, d).attachments
  {
    PutSize(w, d, ConsumerMove(At(w, d), s, true).0, ConsumerMove(At(w, d), s, true).1);
  }

  lemma ClaimAdvances(w: Wire, e: Side, s: StreamId, env: Env)
    requires Sound(w, env) && Travels(w, e, s, env) && s in At(w, Peer(e)).attachments
    ensures Advances(w, Claim(Peer(e), s), e, s, env)
  {
    TravelsSoundly(w, e, s, env);
    var d := Peer(e);
    PutElsewhere(w, d, Claiming(At(w, d), s), [], s);
    SameView(w, Put(w, d, Claiming(At(w, d), s), []), s, e);
    PutSize(w, d, Claiming(At(w, d), s), []);
  }

  lemma HandleEnters(end: End, frame: Frame, s: StreamId)
    requires Fwd(frame, s) == []
    ensures s in Handle(end, frame).0.attachments <==> s in end.attachments
  {
    if frame.Res? { NotNamedNotEntered(end, Refs(frame.result), s); }
  }

  /** A delivery that leaves the stream alone leaves its entry alone. */
  lemma EntryStays(w: Wire, e: Side, s: StreamId, env: Env)
    requires Sound(w, env) && From(w, e) != [] && View(w, s, e).fwd == View(Delivered(w, Peer(e)), s, e).fwd
    ensures s in At(Delivered(w, Peer(e)), Peer(e)).attachments <==> s in At(w, Peer(e)).attachments
  {
    var d := Peer(e);
    assert Peer(d) == e;
    SaysNothing(w, d, env, s);
    HandleEnters(At(w, d), From(w, e)[0], s);
    DeliveredEnd(w, d);
  }

  lemma DeliveredEnd(w: Wire, d: Side)
    requires From(w, Peer(d)) != []
    ensures At(Delivered(w, d), d) == Handle(At(w, d), From(w, Peer(d))[0]).0
  {
  }

  lemma SaysNothing(w: Wire, d: Side, env: Env, s: StreamId)
    requires Sound(w, env) && From(w, Peer(d)) != []
    requires Fwds(From(w, Peer(d)), s) == Fwds(From(Delivered(w, d), Peer(d)), s)
    ensures Fwd(From(w, Peer(d))[0], s) == []
  {
    DeliverIsQuiet(w, d, env);
    TakeQueues(w, d, s);
    DeliverParts(w, d, env, s);
  }

  lemma {:induction false} NotNamedNotEntered(end: End, refs: seq<AttachmentRef>, s: StreamId)
    requires !Names(refs, s)
    ensures s in RegisterAll(end, refs).attachments <==> s in end.attachments
    decreases |refs|
  {
    if refs != [] {
      var front := refs[..|refs| - 1];
      assert forall i :: 0 <= i < |front| ==> front[i] == refs[i];
      assert refs[|refs| - 1].stream != s;
      NotNamedNotEntered(end, front, s);
    }
  }

  lemma DeliverForthAdvances(w: Wire, e: Side, s: StreamId, env: Env)
    requires Sound(w, env) && Travels(w, e, s, env) && From(w, e) != []
    ensures Advances(w, Deliver(Peer(e)), e, s, env)
  {
    TravelsSoundly(w, e, s, env);
    var d := Peer(e);
    assert Peer(d) == e;
    var w' := Delivered(w, d);
    DeliverForth(w, e, env, s);
    DeliveredSize(w, d, env);
    if View(w', s, e) == View(w, s, e) {
      EntryStays(w, e, s, env);
      assert Left(w', e, s) == Left(w, e, s) - 1;
    } else {
      Flow.ForwardWorks(View(w, s, e), Flow.RecvFwd, env.window);
      assert Left(w', e, s) <= Left(w, e, s) - 2;
    }
    assert Next(w, Deliver(d), env) == w';
  }

  lemma DeliverBackAdvances(w: Wire, e: Side, s: StreamId, env: Env)
    requires Sound(w, env) && Travels(w, e, s, env) && From(w, Peer(e)) != []
    ensures Advances(w, Deliver(e), e, s, env)
  {
    TravelsSoundly(w, e, s, env);
    DeliverBackTo(w, e, env, s);
    DeliveredSize(w, e, env);
    OtherEnd(w, Deliver(e), env);
    if View(Delivered(w, e), s, e) != View(w, s, e) { Flow.ForwardWorks(View(w, s, e), Flow.RecvBack, env.window); }
  }

  /** Until it is heard out, some move carries it on. */
  lemma SomeMove(w: Wire, e: Side, s: StreamId, env: Env) returns (a: Act)
    requires Sound(w, env) && Travels(w, e, s, env) && !HeardOut(At(w, Peer(e)), s)
    ensures Advances(w, a, e, s, env)
  {
    TravelsSoundly(w, e, s, env);
    var f, d := View(w, s, e), Peer(e);
    Flow.AttachmentNeverStuck(f, env.window);
    var step :| Flow.Forward(step) && Flow.Enabled(f, step);
    match step
    case Send =>
      a := Send(e, s);
      SenderAdvances(w, a, e, s, env);
    case Finish =>
      a := Finish(e, s);
      SenderAdvances(w, a, e, s, env);
    case RecvFwd =>
      a := Deliver(d);
      assert From(w, e) != [];
      DeliverForthAdvances(w, e, s, env);
    case RecvBack =>
      a := Deliver(e);
      assert From(w, d) != [];
      DeliverBackAdvances(w, e, s, env);
    case Poll =>
      if s in At(w, d).attachments {
        a := Claim(d, s);
        ClaimAdvances(w, e, s, env);
      } else {
        a := Poll(d, s);
        PollAdvances(w, e, s, env);
      }
  }

  // ---------------------------------------------------------------- until it is heard out

  /** A run that goes on from another by moves that carry `s`. */
  ghost predicate GoesOn(ws: seq<Wire>, acts: seq<Act>, ws': seq<Wire>, acts': seq<Act>, e: Side, s: StreamId)
  {
    ws <= ws' && acts <= acts' && forall m :: |acts| <= m < |acts'| ==> Carries(acts'[m], e, s)
  }

  lemma RunMore(ws: seq<Wire>, acts: seq<Act>, a: Act, env: Env)
    requires Run(ws, acts, env) && Enabled(ws[|acts|], a, env)
    ensures Run(ws + [Next(ws[|acts|], a, env)], acts + [a], env)
  {
    var ws', acts' := ws + [Next(ws[|acts|], a, env)], acts + [a];
    forall i | 0 <= i < |acts'| ensures Took(ws', acts', env, i) {
      if i < |acts| {
        assert Took(ws, acts, env, i);
        assert acts'[i] == acts[i] && ws'[i] == ws[i] && ws'[i + 1] == ws[i + 1];
      }
    }
  }

  lemma BornStays(w: Wire, a: Act, env: Env, s: StreamId)
    requires Sound(w, env) && Enabled(w, a, env) && s in w.born
    ensures s in Next(w, a, env).born && Next(w, a, env).born[s] == w.born[s]
  {
    if SenderAct(a) { SenderNext(w, a, env); }
    if a.Call? { assert At(w, a.side).next !in w.born; }
    if a.Respond? {
      forall t | t in a.ids ensures t !in w.born {
        var i :| 0 <= i < |a.ids| && a.ids[i] == t;
        FreshUnborn(w, a.side, a.ids, i);
      }
    }
  }

  lemma TravelsOn(w: Wire, a: Act, e: Side, s: StreamId, env: Env)
    requires Sound(w, env) && Travels(w, e, s, env) && Advances(w, a, e, s, env)
    ensures Travels(Next(w, a, env), e, s, env)
  {
    BornStays(w, a, env, s);
  }

  /**
   A stream that travels is heard out: from the state a run has reached, finitely many moves that carry
   it, and no other, bring it to its end, with nobody hanging up.
   */
  lemma {:induction false} HeardOutAtLast(ws: seq<Wire>, acts: seq<Act>, env: Env, e: Side, s: StreamId)
    returns (ws': seq<Wire>, acts': seq<Act>)
    requires Run(ws, acts, env) && Travels(ws[|acts|], e, s, env)
    ensures Run(ws', acts', env) && GoesOn(ws, acts, ws', acts', e, s)
    ensures HeardOut(At(ws'[|acts'|], Peer(e)), s) && Travels(ws'[|acts'|], e, s, env)
    decreases Left(ws[|acts|], e, s)
  {
    var w := ws[|acts|];
    if HeardOut(At(w, Peer(e)), s) {
      ws', acts' := ws, acts;
    } else {
      RunInv(ws, acts, env, |acts|);
      var a := SomeMove(w, e, s, env);
      TravelsOn(w, a, e, s, env);
      RunMore(ws, acts, a, env);
      var ws1, acts1 := ws + [Next(w, a, env)], acts + [a];
      assert ws1[|acts1|] == Next(w, a, env);
      ws', acts' := HeardOutAtLast(ws1, acts1, env, e, s);
      GoesOnFrom(ws, acts, a, Next(w, a, env), ws', acts', e, s);
    }
  }

  lemma GoesOnFrom(ws: seq<Wire>, acts: seq<Act>, a: Act, w': Wire, ws': seq<Wire>, acts': seq<Act>, e: Side, s: StreamId)
    requires Carries(a, e, s) && GoesOn(ws + [w'], acts + [a], ws', acts', e, s)
    ensures GoesOn(ws, acts, ws', acts', e, s)
  {
    forall m | |acts| <= m < |acts'| ensures Carries(acts'[m], e, s) {
      if m == |acts| { assert acts'[m] == (acts + [a])[m]; }
    }
  }

  /**
   Delivery: in every state a run reaches, each attachment of each reply, whose consumer has not hung up
   and whose chunks are no larger than the initial credit, can be carried to its end.
   */
  lemma AttachmentIsDelivered(ws: seq<Wire>, acts: seq<Act>, env: Env, k: nat, x: nat) returns (ws': seq<Wire>, acts': seq<Act>)
    requires Run(ws, acts, env) && ChunkSize(env) <= env.window
    requires k < |ws[|acts|].replies| && x < |ws[|acts|].replies[k].ids|
    requires var r := ws[|acts|].replies[k]; !HungUp(At(ws[|acts|], Peer(r.side)), r.ids[x])
    ensures var r := ws[|acts|].replies[k];
      && Run(ws', acts', env) && GoesOn(ws, acts, ws', acts', r.side, r.ids[x])
      && HeardOut(At(ws'[|acts'|], Peer(r.side)), r.ids[x])
  {
    var w, r := ws[|acts|], ws[|acts|].replies[k];
    RunInv(ws, acts, env, |acts|);
    AttachmentFits(w, r, env, x);
    assert SoundAt(w, r.ids[x], env);
    SendsItsOwn(w, r.side, r.ids[x], env);
    ws', acts' := HeardOutAtLast(ws, acts, env, r.side, r.ids[x]);
  }

  // ---------------------------------------------------------------- all the attachments of a response

  /** A move that carries one stream leaves another where it was, or delivers one of its frames. */
  lemma OthersStayOrStep(w: Wire, a: Act, env: Env, e: Side, s: StreamId, t: StreamId)
    requires Sound(w, env) && Enabled(w, a, env) && Carries(a, e, s) && s != t && t in w.born && w.born[t] == e
    ensures var w' := Next(w, a, env);
      StaysOrSteps(w, w', e, t, Flow.RecvFwd, env) || StaysOrSteps(w, w', e, t, Flow.RecvBack, env)
  {
    var w', d := Next(w, a, env), Peer(e);
    assert Peer(d) == e;
    if a == Deliver(d) {
      DeliverForth(w, e, env, t);
    } else if a == Deliver(e) {
      DeliverBackTo(w, e, env, t);
    } else {
      if a == Claim(d, s) {
        PutElsewhere(w, d, Claiming(At(w, d), s), [], t);
      } else if a == Poll(d, s) {
        ConsumerRow(At(w, d), s, true, t);
        PutElsewhere(w, d, ConsumerMove(At(w, d), s, true).0, ConsumerMove(At(w, d), s, true).1, t);
      } else {
        SenderElsewhere(w, a, env, t);
      }
      SameView(w, w', t, e);
    }
  }

  /** A stream that was heard out stays so, and one that travels goes on travelling. */
  lemma FlowKeepsOn(f: Flow.Flow, step: Flow.Step, window: nat)
    requires Flow.Inv(f, window) && f.plan.Some? && Flow.Fits(f, window) && !f.rx.Dropped?
    requires Flow.Enabled(f, step) && (step.RecvFwd? || step.RecvBack?)
    ensures var g := Flow.Next(f, step, window);
      && g.plan.Some? && Flow.Fits(g, window) && !g.rx.Dropped?
      && (f.rx.Rx? && !f.rx.finished.Still? ==> g.rx.Rx? && !g.rx.finished.Still?)
  {
    Flow.ForwardWorks(f, step, window);
  }

  lemma OthersKeepOn(w: Wire, a: Act, env: Env, e: Side, s: StreamId, t: StreamId)
    requires Sound(w, env) && Travels(w, e, t, env) && Enabled(w, a, env) && Carries(a, e, s) && s != t
    ensures Travels(Next(w, a, env), e, t, env)
    ensures HeardOut(At(w, Peer(e)), t) ==> HeardOut(At(Next(w, a, env), Peer(e)), t)
  {
    OthersStayOrStep(w, a, env, e, s, t);
    TravelsSoundly(w, e, t, env);
    ViewKeepsOn(w, Next(w, a, env), e, t, env);
    BornStays(w, a, env, t);
  }

  lemma ViewKeepsOn(w: Wire, w': Wire, e: Side, t: StreamId, env: Env)
    requires Alive(w, e, t, env) && Flow.Inv(View(w, t, e), env.window)
    requires StaysOrSteps(w, w', e, t, Flow.RecvFwd, env) || StaysOrSteps(w, w', e, t, Flow.RecvBack, env)
    ensures Alive(w', e, t, env) && (HeardOut(At(w, Peer(e)), t) ==> HeardOut(At(w', Peer(e)), t))
  {
    var f := View(w, t, e);
    if View(w', t, e) != f {
      var step := if Flow.Enabled(f, Flow.RecvFwd) && View(w', t, e) == Flow.Next(f, Flow.RecvFwd, env.window) then Flow.RecvFwd else Flow.RecvBack;
      FlowKeepsOn(f, step, env.window);
    }
  }

  /** Every state after `m` is reached by moves that carry `s`. */
  lemma {:induction false} OthersKeepOnTo(ws: seq<Wire>, acts: seq<Act>, env: Env, m: nat, j: nat, e: Side, s: StreamId, t: StreamId)
    requires Run(ws, acts, env) && m <= j <= |acts| && s != t && Travels(ws[m], e, t, env)
    requires forall k :: m <= k < j ==> Carries(acts[k], e, s)
    ensures Travels(ws[j], e, t, env) && (HeardOut(At(ws[m], Peer(e)), t) ==> HeardOut(At(ws[j], Peer(e)), t))
    decreases j - m
  {
    if m < j {
      OthersKeepOnAt(ws, acts, env, m, e, s, t);
      OthersKeepOnTo(ws, acts, env, m + 1, j, e, s, t);
    }
  }

  lemma OthersKeepOnAt(ws: seq<Wire>, acts: seq<Act>, env: Env, m: nat, e: Side, s: StreamId, t: StreamId)
    requires Run(ws, acts, env) && m < |acts| && s != t && Travels(ws[m], e, t, env) && Carries(acts[m], e, s)
    ensures Travels(ws[m + 1], e, t, env) && (HeardOut(At(ws[m], Peer(e)), t) ==> HeardOut(At(ws[m + 1], Peer(e)), t))
  {
    RunStep(ws, acts, env, m);
    OthersKeepOn(ws[m], acts[m], env, e, s, t);
  }

  /** The streams of `ids` travel, and the first `n` of them have been heard out. */
  ghost predicate UpTo(w: Wire, e: Side, ids: seq<StreamId>, n: nat, env: Env)
  {
    && (forall x :: 0 <= x < |ids| ==> Travels(w, e, ids[x], env))
    && (forall x :: 0 <= x < n && x < |ids| ==> HeardOut(At(w, Peer(e)), ids[x]))
  }

  lemma OneMoreHeard(ws: seq<Wire>, acts: seq<Act>, env: Env, e: Side, ids: seq<StreamId>, n: nat) returns (ws': seq<Wire>, acts': seq<Act>)
    requires Run(ws, acts, env) && n < |ids| && UpTo(ws[|acts|], e, ids, n, env)
    requires forall x, y :: 0 <= x < y < |ids| ==> ids[x] != ids[y]
    ensures Run(ws', acts', env) && ws <= ws' && acts <= acts' && UpTo(ws'[|acts'|], e, ids, n + 1, env)
  {
    ws', acts' := HeardOutAtLast(ws, acts, env, e, ids[n]);
    var m, j := |acts|, |acts'|;
    assert ws'[m] == ws[m];
    forall x | 0 <= x < |ids| && x != n
      ensures Travels(ws'[j], e, ids[x], env) && (x < n ==> HeardOut(At(ws'[j], Peer(e)), ids[x]))
    {
      assert ids[x] != ids[n];
      OthersKeepOnTo(ws', acts', env, m, j, e, ids[n], ids[x]);
    }
  }

  lemma {:induction false} AllHeard(ws: seq<Wire>, acts: seq<Act>, env: Env, e: Side, ids: seq<StreamId>, n: nat) returns (ws': seq<Wire>, acts': seq<Act>)
    requires Run(ws, acts, env) && n <= |ids| && UpTo(ws[|acts|], e, ids, n, env)
    requires forall x, y :: 0 <= x < y < |ids| ==> ids[x] != ids[y]
    ensures Run(ws', acts', env) && ws <= ws' && acts <= acts' && UpTo(ws'[|acts'|], e, ids, |ids|, env)
    decreases |ids| - n
  {
    if n == |ids| {
      ws', acts' := ws, acts;
    } else {
      var ws1, acts1 := OneMoreHeard(ws, acts, env, e, ids, n);
      ws', acts' := AllHeard(ws1, acts1, env, e, ids, n + 1);
    }
  }

  /** A caller that heard every stream out, and has their references, has worked through the response. */
  lemma {:induction false} HeardAllIsWorked(claims: map<StreamId, AttachmentRef>, end: End, refs: seq<AttachmentRef>, max: Limit)
    requires HandedOver(claims, end, refs) && forall i :: 0 <= i < |refs| ==> HeardOut(end, refs[i].stream)
    ensures Worked(claims, end, refs, max)
    decreases |refs|
  {
    if refs != [] {
      assert OneHandedOver(claims, end, refs[0]);
      assert HandedOver(claims, end, refs[1..]) by {
        forall i | 0 <= i < |refs[1..]| ensures OneHandedOver(claims, end, refs[1..][i]) { assert refs[1..][i] == refs[i + 1]; }
      }
      HeardAllIsWorked(claims, end, refs[1..], max);
    }
  }

  lemma ReplyTravels(w: Wire, r: Reply, env: Env)
    requires Inv(w, env) && Planned(w, r, env) && ChunkSize(env) <= env.window
    requires forall x :: 0 <= x < |r.ids| ==> !HungUp(At(w, Peer(r.side)), r.ids[x])
    ensures UpTo(w, r.side, r.ids, 0, env)
  {
    forall x | 0 <= x < |r.ids| ensures Travels(w, r.side, r.ids[x], env) {
      AttachmentFits(w, r, env, x);
      assert SoundAt(w, r.ids[x], env);
      SendsItsOwn(w, r.side, r.ids[x], env);
    }
  }

  /** The streams a given response refers to are its reply's. */
  lemma RefsAreIds(r: Reply, env: Env, w: Wire)
    requires Planned(w, r, env)
    ensures var refs := Refs(TreeOf(r, env)); |refs| == |r.ids| && forall x :: 0 <= x < |refs| ==> refs[x].stream == r.ids[x]
  {
    var c := CtxOf(env, r.ids);
    NoRefs(r.original, env.threshold);
    DetachSends(r.original, c, 0);
    RefsListWhatLeft(r.original, c, 0);
  }

  /**
   A delivered response can always be read.  From any state a run has reached after delivering it, with
   chunks no larger than the initial credit and none of its streams hung up on, the run can go on so that
   hydrating gives the caller exactly the tree the tool returned, or refuses it for a blob over the limit.
   */
  lemma EveryResponseCanBeHydrated(ws: seq<Wire>, acts: seq<Act>, env: Env, i: nat, k: nat, e: Side, max: Limit)
    returns (ws': seq<Wire>, acts': seq<Act>)
    requires Run(ws, acts, env) && i < |acts| && ChunkSize(env) <= env.window
    requires acts[i] == Deliver(e) && From(ws[i], Peer(e)) != [] && From(ws[i], Peer(e))[0].Res?
    requires k < |ws[i].replies| && ws[i].replies[k].side == Peer(e)
    requires From(ws[i], Peer(e))[0].result == TreeOf(ws[i].replies[k], env)
    requires var ids := ws[i].replies[k].ids; forall x :: 0 <= x < |ids| ==> !HungUp(At(ws[|acts|], e), ids[x])
    ensures Run(ws', acts', env) && ws <= ws' && acts <= acts'
    ensures var r, end := ws[i].replies[k], At(ws'[|acts'|], e);
      ComesBack(r, TreeOf(r, env), Held(ClaimsOf(ws', acts', e, |acts'|), end), max, env)
  {
    var r := ws[i].replies[k];
    assert Peer(Peer(e)) == e;
    RunInv(ws, acts, env, |acts|);
    RepliesStay(ws, acts, env, i, |acts|);
    assert Planned(ws[|acts|], ws[|acts|].replies[k], env) && ws[|acts|].replies[k] == r;
    ReplyTravels(ws[|acts|], r, env);
    ws', acts' := AllHeard(ws, acts, env, r.side, r.ids, 0);
    assert ws'[i] == ws[i] && acts'[i] == acts[i];
    HeardComesBack(ws', acts', env, i, k, e, max, r);
  }

  /** Once all its streams have been heard out, it comes back. */
  lemma HeardComesBack(ws: seq<Wire>, acts: seq<Act>, env: Env, i: nat, k: nat, e: Side, max: Limit, r: Reply)
    requires Run(ws, acts, env) && i < |acts| && acts[i] == Deliver(e) && From(ws[i], Peer(e)) != [] && From(ws[i], Peer(e))[0].Res?
    requires k < |ws[i].replies| && ws[i].replies[k] == r && r.side == Peer(e) && From(ws[i], Peer(e))[0].result == TreeOf(r, env)
    requires forall x :: 0 <= x < |r.ids| ==> HeardOut(At(ws[|acts|], e), r.ids[x])
    ensures ComesBack(r, TreeOf(r, env), Held(ClaimsOf(ws, acts, e, |acts|), At(ws[|acts|], e)), max, env)
  {
    var j, tree := |acts|, TreeOf(r, env);
    assert Peer(Peer(e)) == e;
    RunInv(ws, acts, env, j);
    RepliesStay(ws, acts, env, i, j);
    assert Planned(ws[j], ws[j].replies[k], env) && ws[j].replies[k] == r;
    RunHandsOver(ws, acts, env, i, j, e);
    RefsAreIds(r, env, ws[j]);
    HeardAllIsWorked(ClaimsOf(ws, acts, e, j), At(ws[j], e), Refs(tree), max);
    ReplyComesBack(ws[j], r, env, ClaimsOf(ws, acts, e, j), max);
  }
}
