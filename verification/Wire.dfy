/**
 Two endpoints, every stream between them, and one queue of frames in each direction.

 Each endpoint keeps the source's tables: `incoming` (what it is receiving), `credits` (the gates of
 what it is sending), `attachments` (what waits to be claimed) and the counter its stream ids come from.
 A stream is declared by the caller or detached from a response by the callee.  Every act of the system
 is, for each stream, either one step of the single-stream model or none, so everything proved there holds
 here, for every stream at once.
 */
module Wire {
  import opened Base
  import opened Attach
  import Flow

  type Item = seq<byte>

  datatype Side = Dialer | Acceptor

  function Peer(e: Side): Side
  {
    if e.Dialer? then Acceptor else Dialer
  }

  /** Negotiated limits, the inline limit and the digest. */
  datatype Env = Env(window: nat, maxChunk: nat, threshold: nat, sha: seq<byte> -> string)

  /** `answers` names the declared stream the reply is the head of, when there is one. */
  datatype Frame =
    | Req(stream: StreamId)
    | Res(answers: Option<StreamId>, result: Value)
    | Err(stream: StreamId)
    | SData(stream: StreamId, no: nat, item: Item)
    | SEnd(stream: StreamId)
    | SErr(stream: StreamId)
    | SCredit(stream: StreamId, n: nat)
    | SCancel(stream: StreamId)

  /** The sending half of a stream: its plan if it is an attachment, its task, and what it has sent. */
  datatype Outgoing = Outgoing(plan: Option<seq<Item>>, snd: Flow.Sender, sent: seq<Item>, closing: Flow.Closing)

  datatype End = End(next: nat, credits: set<StreamId>, outs: map<StreamId, Outgoing>,
                     incoming: map<StreamId, nat>, ins: map<StreamId, Flow.Receiver>,
                     attachments: map<StreamId, AttachmentRef>)

  /** A response one side sent: the tree its tool returned and the streams its blobs went out on. */
  datatype Reply = Reply(side: Side, original: Value, ids: seq<StreamId>)

  datatype Wire = Wire(dialer: End, acceptor: End, fromDialer: seq<Frame>, fromAcceptor: seq<Frame>,
                       born: map<StreamId, Side>, replies: seq<Reply>)

  function At(w: Wire, e: Side): End
  {
    if e.Dialer? then w.dialer else w.acceptor
  }

  function From(w: Wire, e: Side): seq<Frame>
  {
    if e.Dialer? then w.fromDialer else w.fromAcceptor
  }

  /** Side `e` becomes `end` and puts `frames` on the link. */
  function Put(w: Wire, e: Side, end: End, frames: seq<Frame>): Wire
  {
    if e.Dialer? then w.(dialer := end, fromDialer := w.fromDialer + frames)
    else w.(acceptor := end, fromAcceptor := w.fromAcceptor + frames)
  }

  /** The frame next to reach side `e` is taken off the link. */
  function Take(w: Wire, e: Side): Wire
    requires From(w, Peer(e)) != []
  {
    if e.Dialer? then w.(fromAcceptor := w.fromAcceptor[1..]) else w.(fromDialer := w.fromDialer[1..])
  }

  // ---------------------------------------------------------------- what an endpoint does

  function Tell(end: End, s: StreamId, event: Flow.Event): End
  {
    if s in end.ins && end.ins[s].Rx?
    then end.(ins := end.ins[s := end.ins[s].(chan := end.ins[s].chan + [event])])
    else end
  }

  /** `register_attachments`, one reference: its stream can be received, and it waits to be claimed. */
  function Register(end: End, r: AttachmentRef): End
  {
    if r.stream in end.incoming then end
    else end.(incoming := end.incoming[r.stream := 0], ins := end.ins[r.stream := Flow.Rx(true, [], [], Flow.Still)],
              attachments := end.attachments[r.stream := r])
  }

  function RegisterAll(end: End, refs: seq<AttachmentRef>): (r: End)
  {
    if refs == [] then end else Register(RegisterAll(end, refs[..|refs| - 1]), refs[|refs| - 1])
  }

  function Ready(end: End, answers: Option<StreamId>): End
  {
    if answers.Some? && answers.value in end.ins && end.ins[answers.value].Rx?
    then end.(ins := end.ins[answers.value := end.ins[answers.value].(ready := true)])
    else end
  }

  /** `handle_frame` and `handle_control`: the new state, and what goes back on the link. */
  function Handle(end: End, frame: Frame): (r: (End, seq<Frame>))
  {
    match frame
    case Req(s) =>
      (if s in end.outs then end else end.(outs := end.outs[s := Outgoing(None, Flow.Asked, [], Flow.Running)]), [])
    case Res(answers, result) => (Ready(RegisterAll(end, Refs(result)), answers), [])
    case Err(s) =>
      (if s in end.ins && end.ins[s].Rx? && !end.ins[s].ready
       then end.(incoming := end.incoming - {s}, ins := end.ins[s := Flow.Dropped]) else end, [])
    case SData(s, no, x) =>
      if s !in end.incoming then (end, [])
      else if no != end.incoming[s]
      then (Tell(end.(incoming := end.incoming - {s}), s, Flow.Broken), [SCancel(s)])
      else (Tell(end.(incoming := end.incoming[s := no + 1]), s, Flow.Chunk(x)), [])
    case SEnd(s) =>
      (if s !in end.incoming then end else Tell(end.(incoming := end.incoming - {s}), s, Flow.End), [])
    case SErr(s) =>
      (if s !in end.incoming then end else Tell(end.(incoming := end.incoming - {s}), s, Flow.Broken), [])
    case SCredit(s, n) =>
      (if s !in end.credits || s !in end.outs || !end.outs[s].snd.Sending? then end
       else end.(outs := end.outs[s := end.outs[s].(snd := end.outs[s].snd.(avail := end.outs[s].snd.avail + n))]), [])
    case SCancel(s) =>
      (if s !in end.credits || s !in end.outs || !end.outs[s].snd.Sending? then end
       else end.(credits := end.credits - {s},
                 outs := end.outs[s := end.outs[s].(snd := end.outs[s].snd.(canceled := true))]), [])
  }

  /** `chunks(max_chunk.max(1))`. */
  function Chunks(bytes: seq<byte>, size: nat): (r: seq<Item>)
    requires size > 0
  {
    if bytes == [] then []
    else if |bytes| <= size then [bytes]
    else [bytes[..size]] + Chunks(bytes[size..], size)
  }

  lemma {:induction false} ChunksWhole(bytes: seq<byte>, size: nat)
    requires size > 0
    ensures Concat(Chunks(bytes, size)) == bytes
    ensures forall i :: 0 <= i < |Chunks(bytes, size)| ==> |Chunks(bytes, size)[i]| <= size
  {
    if |bytes| > size {
      ChunksWhole(bytes[size..], size);
      assert bytes == bytes[..size] + bytes[size..];
      assert Chunks(bytes, size)[1..] == Chunks(bytes[size..], size);
    } else if bytes != [] {
      assert Chunks(bytes, size)[1..] == [];
    }
  }

  /** Every chunk but the last is full, and none is empty. */
  lemma {:induction false} ChunksFull(bytes: seq<byte>, size: nat)
    requires size > 0
    ensures var items := Chunks(bytes, size); forall i :: 0 <= i < |items| ==> |items[i]| > 0 && (i < |items| - 1 ==> |items[i]| == size)
    decreases |bytes|
  {
    if |bytes| > size {
      ChunksFull(bytes[size..], size);
      assert Chunks(bytes, size)[1..] == Chunks(bytes[size..], size);
    }
  }

  function ChunkSize(env: Env): (n: nat)
    ensures n > 0
  {
    if env.maxChunk == 0 then 1 else env.maxChunk
  }

  /** A gate and a sender for one detached blob. */
  function Opened(env: Env, bytes: seq<byte>): Outgoing
  {
    var items := Chunks(bytes, ChunkSize(env));
    Outgoing(Some(items), Flow.Sending(env.window, false, items, false), [], Flow.Running)
  }

  /** A blob goes out in chunks of the agreed size, or of one byte when that is zero. */
  lemma OpensInFullChunks(env: Env, bytes: seq<byte>)
    ensures var o, size := Opened(env, bytes), if env.maxChunk == 0 then 1 else env.maxChunk;
      && o.plan.Some? && Concat(o.plan.value) == bytes && o.snd == Flow.Sending(env.window, false, o.plan.value, false)
      && (forall i :: 0 <= i < |o.plan.value| ==> 0 < |o.plan.value[i]| <= size)
      && (forall i :: 0 <= i < |o.plan.value| - 1 ==> |o.plan.value[i]| == size)
  {
    ChunksWhole(bytes, ChunkSize(env));
    ChunksFull(bytes, ChunkSize(env));
  }

  function OpenAll(end: End, env: Env, ds: seq<Detached>): (r: End)
  {
    if ds == [] then end else
    var before := OpenAll(end, env, ds[..|ds| - 1]);
    var d := ds[|ds| - 1];
    before.(credits := before.credits + {d.stream}, outs := before.outs[d.stream := Opened(env, d.bytes)])
  }

  /** The allocator of one response: the ids the counter handed out, in order. */
  function CtxOf(env: Env, ids: seq<StreamId>): Ctx
  {
    Ctx(env.threshold, (i: nat) => if i < |ids| then ids[i] else 0, env.sha)
  }

  // ---------------------------------------------------------------- acts

  datatype Act =
    | Call(side: Side)
    | Respond(side: Side, answers: Option<StreamId>, streams: bool, original: Value, ids: seq<StreamId>)
    | Refuse(side: Side, s: StreamId)
    | Produce(side: Side, s: StreamId, item: Item)
    | Close(side: Side, s: StreamId)
    | Send(side: Side, s: StreamId)
    | Finish(side: Side, s: StreamId)
    | Fail(side: Side, s: StreamId)
    | Halt(side: Side, s: StreamId)
    | Deliver(side: Side)
    | Claim(side: Side, s: StreamId)
    | Poll(side: Side, s: StreamId)
    | Drop(side: Side, s: StreamId)

  predicate Transmits(end: End, s: StreamId)
  {
    s in end.outs && end.outs[s].snd.Sending?
  }

  predicate Reads(end: End, s: StreamId)
  {
    s in end.ins && end.ins[s].Rx? && end.ins[s].ready && end.ins[s].finished.Still?
  }

  /** Ids taken from a counter that starts at `next` and steps by two, perhaps with others in between. */
  ghost predicate Fresh(ids: seq<StreamId>, next: nat)
  {
    && (forall i :: 0 <= i < |ids| ==> next <= ids[i] && ids[i] % 2 == next % 2)
    && (forall i, j :: 0 <= i < j < |ids| ==> ids[i] < ids[j])
  }

  ghost predicate Enabled(w: Wire, a: Act, env: Env)
  {
    var end := At(w, a.side);
    match a
    case Call(_) => end.next < 0x1_0000_0000
    case Respond(_, answers, _, original, ids) => MayRespond(end, env, answers, original, ids)
    case Refuse(_, s) => s in end.outs && end.outs[s].snd.Asked?
    case Produce(_, s, _) => Transmits(end, s) && end.outs[s].snd.open
    case Close(_, s) => Transmits(end, s) && end.outs[s].snd.open
    case Send(_, s) =>
      Transmits(end, s) && var snd := end.outs[s].snd;
      !snd.canceled && snd.todo != [] && |snd.todo[0]| <= snd.avail
    case Finish(_, s) => Transmits(end, s) && end.outs[s].snd.todo == [] && !end.outs[s].snd.open
    case Fail(_, s) => Transmits(end, s) && s in end.credits && end.outs[s].plan.None?
    case Halt(_, s) => Transmits(end, s) && s !in end.credits
    case Deliver(e) => From(w, Peer(e)) != []
    case Claim(_, s) => s in end.attachments
    case Poll(_, s) => Reads(end, s) && end.ins[s].chan != [] && s !in end.attachments
    case Drop(_, s) => Reads(end, s)
  }

  predicate SenderAct(a: Act)
  {
    a.Refuse? || a.Produce? || a.Close? || a.Send? || a.Finish? || a.Fail? || a.Halt?
  }

  /** What a sender becomes, whether its gate stays in the table, and what it puts on the link. */
  function SenderMove(s: StreamId, o: Outgoing, listed: bool, a: Act): (r: (Outgoing, bool, seq<Frame>))
    requires a.Send? ==> o.snd.Sending? && o.snd.todo != [] && |o.snd.todo[0]| <= o.snd.avail
    requires a.Produce? || a.Close? ==> o.snd.Sending?
  {
    match a
    case Refuse(_, _) => (o.(snd := Flow.Gone, closing := Flow.Silent), listed, [Err(s)])
    case Produce(_, _, x) => (o.(snd := o.snd.(todo := o.snd.todo + [x])), listed, [])
    case Close(_, _) => (o.(snd := o.snd.(open := false)), listed, [])
    case Send(_, _) =>
      var x := o.snd.todo[0];
      (o.(snd := o.snd.(avail := o.snd.avail - |x|, todo := o.snd.todo[1..]), sent := o.sent + [x]), listed,
       [SData(s, |o.sent|, x)])
    case Finish(_, _) => (o.(snd := Flow.Gone, closing := Flow.Ended), false, [SEnd(s)])
    case Fail(_, _) => (o.(snd := Flow.Gone, closing := Flow.Faulted), false, [SErr(s)])
    case Halt(_, _) => (o.(snd := Flow.Gone, closing := Flow.Silent), false, [])
    case _ => (o, listed, [])
  }

  function Moved(end: End, s: StreamId, o: Outgoing, listed: bool): End
  {
    end.(outs := end.outs[s := o], credits := if listed then end.credits + {s} else end.credits - {s})
  }

  function Last(ids: seq<StreamId>, next: nat): nat
  {
    if ids == [] then next else var top: int := ids[|ids| - 1]; top + 2
  }

  /** The gate and sender of a tool's stream, as its head goes out. */
  function Begins(env: Env): Outgoing
  {
    Outgoing(None, Flow.Sending(env.window, false, [], true), [], Flow.Running)
  }

  /** A declared stream that was answered with a plain response: nothing will ever be sent on it. */
  const Silent := Outgoing(None, Flow.Gone, [], Flow.Silent)

  /** `streams` says whether the answer to a declared stream is the head of one. */
  function Responded(end: End, env: Env, answers: Option<StreamId>, streams: bool, original: Value, ids: seq<StreamId>): End
  {
    var started := OpenAll(end, env, Detach(original, CtxOf(env, ids), 0).1).(next := Last(ids, end.next));
    if answers.None? then started
    else started.(credits := if streams then started.credits + {answers.value} else started.credits,
                  outs := started.outs[answers.value := if streams then Begins(env) else Silent])
  }

  /** `RawIncomingStream::poll_next`. */
  function PollNext(end: End, s: StreamId): (r: (End, seq<Frame>))
    requires Reads(end, s) && end.ins[s].chan != []
  {
    var rx := end.ins[s];
    var rest := rx.(chan := rx.chan[1..]);
    match rx.chan[0]
    case Chunk(x) => (end.(ins := end.ins[s := rest.(got := rx.got + [x])]), [SCredit(s, |x|)])
    case End => (end.(ins := end.ins[s := rest.(finished := Flow.Good)]), [])
    case Broken => (end.(ins := end.ins[s := rest.(finished := Flow.Bad)]), [])
  }

  /** `call_streaming_raw` up to the request being sent. */
  function Called(w: Wire, e: Side): (r: Wire)
    requires At(w, e).next < 0x1_0000_0000
  {
    Put(w, e, Calling(At(w, e)), [Req(At(w, e).next)]).(born := w.born[At(w, e).next := Peer(e)])
  }

  function Calling(end: End): End
    requires end.next < 0x1_0000_0000
  {
    var s: StreamId := end.next;
    end.(next := s + 2, incoming := end.incoming[s := 0], ins := end.ins[s := Flow.Unready])
  }

  lemma CallingRow(end: End, s: StreamId)
    requires end.next < 0x1_0000_0000
    ensures RowOf(Calling(end), s)
         == if s == end.next then RowOf(end, s).(entry := Some(0), rx := Some(Flow.Unready)) else RowOf(end, s)
  {
  }

  /** `reply_res`: detach, open a gate per blob, send the response. */
  function Replied(w: Wire, e: Side, answers: Option<StreamId>, streams: bool, original: Value, ids: seq<StreamId>, env: Env): (r: Wire)
  {
    Put(w, e, Responded(At(w, e), env, answers, streams, original, ids), [Res(answers, Detach(original, CtxOf(env, ids), 0).0)])
    .(born := w.born + map s | s in ids :: e, replies := w.replies + [Reply(e, original, ids)])
  }

  function Delivered(w: Wire, e: Side): (r: Wire)
    requires From(w, Peer(e)) != []
  {
    var (end, out) := Handle(At(w, e), From(w, Peer(e))[0]);
    Put(Take(w, e), e, end, out)
  }

  /** `attachment`: whoever claims it has the reference and the stream from now on. */
  function Claiming(end: End, s: StreamId): End
  {
    end.(attachments := end.attachments - {s})
  }

  /** What a consumer's side becomes, and what it puts on the link: dropping also sweeps what nobody claimed. */
  function ConsumerMove(end: End, s: StreamId, poll: bool): (r: (End, seq<Frame>))
    requires poll ==> Reads(end, s) && end.ins[s].chan != []
  {
    if poll then PollNext(end, s)
    else (end.(incoming := end.incoming - {s}, ins := end.ins[s := Flow.Dropped], attachments := end.attachments - {s}),
          [SCancel(s)])
  }

  function Next(w: Wire, a: Act, env: Env): (r: Wire)
    requires Enabled(w, a, env)
  {
    var end := At(w, a.side);
    match a
    case Call(e) => Called(w, e)
    case Respond(e, answers, streams, original, ids) => Replied(w, e, answers, streams, original, ids, env)
    case Deliver(e) => Delivered(w, e)
    case Claim(e, s) => Put(w, e, Claiming(end, s), [])
    case Poll(e, s) => Put(w, e, ConsumerMove(end, s, true).0, ConsumerMove(end, s, true).1)
    case Drop(e, s) => Put(w, e, ConsumerMove(end, s, false).0, ConsumerMove(end, s, false).1)
    case _ =>
      var (o, listed, out) := SenderMove(a.s, end.outs[a.s], a.s in end.credits, a);
      Put(w, a.side, Moved(end, a.s, o, listed), out)
  }

  // ---------------------------------------------------------------- one stream's view

  /** What a frame from the sending side means to stream `s`. */
  function Fwd(frame: Frame, s: StreamId): (r: seq<Flow.Fwd>)
  {
    match frame
    case Res(answers, result) => if answers == Some(s) || Names(Refs(result), s) then [Flow.Announce] else []
    case Err(t) => if t == s then [Flow.Refuse] else []
    case SData(t, no, x) => if t == s then [Flow.Data(no, x)] else []
    case SEnd(t) => if t == s then [Flow.Fin] else []
    case SErr(t) => if t == s then [Flow.Fault] else []
    case _ => []
  }

  /** What a frame from the receiving side means to stream `s`. */
  function Back(frame: Frame, s: StreamId): (r: seq<Flow.Back>)
  {
    match frame
    case Req(t) => if t == s then [Flow.Ask] else []
    case SCredit(t, n) => if t == s then [Flow.Grant(n)] else []
    case SCancel(t) => if t == s then [Flow.Stop] else []
    case _ => []
  }

  predicate Names(refs: seq<AttachmentRef>, s: StreamId)
  {
    exists i :: 0 <= i < |refs| && refs[i].stream == s
  }

  function Fwds(q: seq<Frame>, s: StreamId): (r: seq<Flow.Fwd>)
  {
    if q == [] then [] else Fwd(q[0], s) + Fwds(q[1..], s)
  }

  function Backs(q: seq<Frame>, s: StreamId): (r: seq<Flow.Back>)
  {
    if q == [] then [] else Back(q[0], s) + Backs(q[1..], s)
  }

  lemma {:induction false} FwdsPlus(p: seq<Frame>, q: seq<Frame>, s: StreamId)
    ensures Fwds(p + q, s) == Fwds(p, s) + Fwds(q, s)
  {
    if p == [] {
      assert p + q == q;
    } else {
      assert (p + q)[1..] == p[1..] + q;
      FwdsPlus(p[1..], q, s);
    }
  }

  lemma {:induction false} BacksPlus(p: seq<Frame>, q: seq<Frame>, s: StreamId)
    ensures Backs(p + q, s) == Backs(p, s) + Backs(q, s)
  {
    if p == [] {
      assert p + q == q;
    } else {
      assert (p + q)[1..] == p[1..] + q;
      BacksPlus(p[1..], q, s);
    }
  }

  /** One endpoint's records of one stream. */
  datatype Row = Row(listed: bool, out: Option<Outgoing>, entry: Option<nat>, rx: Option<Flow.Receiver>)

  function RowOf(end: End, s: StreamId): Row
  {
    Row(s in end.credits,
        if s in end.outs then Some(end.outs[s]) else None,
        if s in end.incoming then Some(end.incoming[s]) else None,
        if s in end.ins then Some(end.ins[s]) else None)
  }

  const Blank := Row(false, None, None, None)

  /** A stream put together from its two ends and what is on the link. */
  function Assemble(snd: Row, rcv: Row, fwd: seq<Flow.Fwd>, back: seq<Flow.Back>): Flow.Flow
  {
    var o := if snd.out.Some? then snd.out.value else Outgoing(None, Flow.Idle, [], Flow.Running);
    Flow.Flow(o.plan, o.snd, snd.listed, o.sent, o.closing, fwd, back, rcv.entry,
              if rcv.rx.Some? then rcv.rx.value else Flow.Absent)
  }

  /** Stream `s` seen alone, when side `e` is the one that sends it. */
  function View(w: Wire, s: StreamId, e: Side): (f: Flow.Flow)
  {
    Assemble(RowOf(At(w, e), s), RowOf(At(w, Peer(e)), s), Fwds(From(w, e), s), Backs(From(w, Peer(e)), s))
  }

  // ---------------------------------------------------------------- the invariant

  /** Nothing anywhere mentions `s`. */
  ghost predicate Clear(w: Wire, s: StreamId)
  {
    forall e: Side :: RowOf(At(w, e), s) == Blank && Fwds(From(w, e), s) == [] && Backs(From(w, e), s) == []
  }

  /** The sending end's row has nothing of a receiver in it, and the receiving end's nothing of a sender. */
  predicate SendingRow(r: Row)
  {
    r.entry.None? && r.rx.None?
  }

  predicate ReceivingRow(r: Row)
  {
    !r.listed && r.out.None?
  }

  /** `s` is sent by `e` and received by its peer, in every table and on every queue. */
  ghost predicate Cast(w: Wire, s: StreamId, e: Side)
  {
    && SendingRow(RowOf(At(w, e), s)) && ReceivingRow(RowOf(At(w, Peer(e)), s))
    && Backs(From(w, e), s) == [] && Fwds(From(w, Peer(e)), s) == []
  }

  ghost predicate SoundAt(w: Wire, s: StreamId, env: Env)
  {
    if s in w.born then Cast(w, s, w.born[s]) && Flow.Inv(View(w, s, w.born[s]), env.window)
    else Clear(w, s)
  }

  /** Each counter is past every id it has handed out, and the two never meet. */
  ghost predicate Counted(w: Wire)
  {
    w.dialer.next % 2 == 1 && w.acceptor.next % 2 == 0
    && forall s | s in w.born :: s < if s % 2 == 1 then w.dialer.next else w.acceptor.next
  }

  /** A response on the link announces a tool's stream or attachments, and says which. */
  ghost predicate Tagged(w: Wire)
  {
    forall e: Side, i | 0 <= i < |From(w, e)| && From(w, e)[i].Res? :: TaggedFrame(At(w, e), From(w, e)[i])
  }

  ghost predicate TaggedFrame(end: End, frame: Frame)
    requires frame.Res?
  {
    && (frame.answers.Some? ==> frame.answers.value in end.outs && end.outs[frame.answers.value].plan.None?)
    && (forall s | Names(Refs(frame.result), s) :: s in end.outs && end.outs[s].plan.Some?)
  }

  /** A sender with a record is past `Idle`. */
  ghost predicate Begun(w: Wire)
  {
    forall e: Side :: BegunAt(At(w, e))
  }

  ghost predicate BegunAt(end: End)
  {
    forall s | s in end.outs :: !end.outs[s].snd.Idle?
  }

  ghost predicate Sound(w: Wire, env: Env)
  {
    Counted(w) && Tagged(w) && Begun(w) && forall s: StreamId :: SoundAt(w, s, env)
  }

  // ---------------------------------------------------------------- how a stream's view changes

  lemma One(frame: Frame, s: StreamId)
    ensures Fwds([frame], s) == Fwd(frame, s) && Backs([frame], s) == Back(frame, s)
  {
    assert [frame][1..] == [];
  }

  /** What putting at most one frame on the link does to the two queues. */
  lemma PutQueues(w: Wire, e: Side, end: End, frames: seq<Frame>, s: StreamId)
    requires |frames| <= 1
    ensures var w' := Put(w, e, end, frames);
      && At(w', e) == end && At(w', Peer(e)) == At(w, Peer(e)) && From(w', Peer(e)) == From(w, Peer(e))
      && Fwds(From(w', e), s) == Fwds(From(w, e), s) + (if frames == [] then [] else Fwd(frames[0], s))
      && Backs(From(w', e), s) == Backs(From(w, e), s) + (if frames == [] then [] else Back(frames[0], s))
  {
    FwdsPlus(From(w, e), frames, s);
    BacksPlus(From(w, e), frames, s);
    if frames != [] {
      One(frames[0], s);
      assert frames == [frames[0]];
    }
  }

  lemma TakeQueues(w: Wire, e: Side, s: StreamId)
    requires From(w, Peer(e)) != []
    ensures var w', f := Take(w, e), From(w, Peer(e))[0];
      && At(w', e) == At(w, e) && At(w', Peer(e)) == At(w, Peer(e)) && From(w', e) == From(w, e)
      && Fwds(From(w, Peer(e)), s) == Fwd(f, s) + Fwds(From(w', Peer(e)), s)
      && Backs(From(w, Peer(e)), s) == Back(f, s) + Backs(From(w', Peer(e)), s)
  {
  }

  /** Nothing about `s` changed between `w` and `w'`. */
  ghost predicate SameAt(w: Wire, w': Wire, s: StreamId)
  {
    && (s in w.born <==> s in w'.born) && (s in w.born ==> w.born[s] == w'.born[s])
    && SameSide(w, w', s, Dialer) && SameSide(w, w', s, Acceptor)
  }

  predicate SameSide(w: Wire, w': Wire, s: StreamId, e: Side)
  {
    && RowOf(At(w', e), s) == RowOf(At(w, e), s)
    && Fwds(From(w', e), s) == Fwds(From(w, e), s) && Backs(From(w', e), s) == Backs(From(w, e), s)
  }

  lemma SameStaysSound(w: Wire, w': Wire, s: StreamId, env: Env)
    requires SoundAt(w, s, env) && SameAt(w, w', s)
    ensures SoundAt(w', s, env)
  {
    if s in w.born { assert View(w', s, w.born[s]) == View(w, s, w.born[s]); }
  }

  /** Frames, at most one, that say nothing about `s`. */
  predicate Mute(frames: seq<Frame>, s: StreamId)
  {
    |frames| <= 1 && (frames != [] ==> Fwd(frames[0], s) == [] && Back(frames[0], s) == [])
  }

  /** A side that changes only other streams' records leaves `s` as it was. */
  lemma PutElsewhere(w: Wire, e: Side, end: End, frames: seq<Frame>, s: StreamId)
    requires RowOf(end, s) == RowOf(At(w, e), s) && Mute(frames, s)
    ensures SameAt(w, Put(w, e, end, frames), s)
  {
    PutQueues(w, e, end, frames, s);
    assert SameSide(w, Put(w, e, end, frames), s, e) && SameSide(w, Put(w, e, end, frames), s, Peer(e));
  }

  lemma TakeElsewhere(w: Wire, e: Side, s: StreamId)
    requires From(w, Peer(e)) != [] && Mute([From(w, Peer(e))[0]], s)
    ensures SameAt(w, Take(w, e), s)
  {
    TakeQueues(w, e, s);
    assert SameSide(w, Take(w, e), s, e) && SameSide(w, Take(w, e), s, Peer(e));
  }

  /** The stream's own step, seen from the whole. */
  lemma Advance(w: Wire, w': Wire, s: StreamId, e: Side, step: Flow.Step, env: Env)
    requires SoundAt(w, s, env) && s in w.born && w.born[s] == e && w'.born == w.born && Cast(w', s, e)
    requires Flow.Enabled(View(w, s, e), step) && View(w', s, e) == Flow.Next(View(w, s, e), step, env.window)
    ensures SoundAt(w', s, env)
  {
    Flow.StepInv(View(w, s, e), step, env.window);
  }

  lemma SendsItsOwn(w: Wire, e: Side, s: StreamId, env: Env)
    requires SoundAt(w, s, env) && (s in At(w, e).outs || s in At(w, e).credits)
    ensures s in w.born && w.born[s] == e && Cast(w, s, e)
  {
    assert RowOf(At(w, e), s) != Blank && !ReceivingRow(RowOf(At(w, e), s));
  }

  lemma ReceivesItsOwn(w: Wire, e: Side, s: StreamId, env: Env)
    requires SoundAt(w, s, env) && (s in At(w, e).ins || s in At(w, e).incoming)
    ensures s in w.born && w.born[s] == Peer(e) && Cast(w, s, Peer(e))
  {
    assert RowOf(At(w, e), s) != Blank && !SendingRow(RowOf(At(w, e), s));
  }

  // ---------------------------------------------------------------- acts of a sender

  /** The step a stream takes when its own sender acts. */
  function StepOf(a: Act): Flow.Step
  {
    match a
    case Refuse(_, _) => Flow.Reject
    case Produce(_, _, x) => Flow.Produce(x)
    case Close(_, _) => Flow.Close
    case Send(_, _) => Flow.Send
    case Finish(_, _) => Flow.Finish
    case Fail(_, _) => Flow.Fail
    case _ => Flow.Halt
  }

  /** Moving a sender is the stream's own step. */
  lemma SenderAgrees(a: Act, snd: Row, rcv: Row, fwd: seq<Flow.Fwd>, back: seq<Flow.Back>, window: nat)
    requires SenderAct(a) && snd.out.Some? && SendingRow(snd)
    requires Flow.Enabled(Assemble(snd, rcv, fwd, back), StepOf(a))
    ensures var (o, listed, out) := SenderMove(a.s, snd.out.value, snd.listed, a);
      && |out| <= 1 && (out != [] ==> Back(out[0], a.s) == [])
      && Assemble(snd.(out := Some(o), listed := listed), rcv, fwd + (if out == [] then [] else Fwd(out[0], a.s)), back)
         == Flow.Next(Assemble(snd, rcv, fwd, back), StepOf(a), window)
  {
    assert fwd + [] == fwd;
  }

  lemma MovedRow(end: End, s: StreamId, o: Outgoing, listed: bool, t: StreamId)
    ensures RowOf(Moved(end, s, o, listed), t)
         == if t == s then RowOf(end, s).(out := Some(o), listed := listed) else RowOf(end, t)
  {
  }

  lemma SenderEnabled(w: Wire, a: Act, env: Env)
    requires SenderAct(a) && Enabled(w, a, env)
    ensures Flow.Enabled(View(w, a.s, a.side), StepOf(a)) && a.s in At(w, a.side).outs
  {
  }

  lemma SenderNext(w: Wire, a: Act, env: Env)
    requires SenderAct(a) && Enabled(w, a, env)
    ensures a.s in At(w, a.side).outs
    ensures var end := At(w, a.side);
      var (o, listed, out) := SenderMove(a.s, end.outs[a.s], a.s in end.credits, a);
      Next(w, a, env) == Put(w, a.side, Moved(end, a.s, o, listed), out)
      && |out| <= 1 && (out != [] ==> !out[0].Res? && About(out[0]) == a.s)
  {
  }

  /** The stream a frame is about, when it is about one. */
  function About(frame: Frame): StreamId
    requires !frame.Res?
  {
    frame.stream
  }

  lemma SenderView(w: Wire, a: Act, env: Env)
    requires SenderAct(a) && Enabled(w, a, env) && Cast(w, a.s, a.side)
    ensures var w' := Next(w, a, env);
      Cast(w', a.s, a.side) && View(w', a.s, a.side) == Flow.Next(View(w, a.s, a.side), StepOf(a), env.window)
  {
    var e, t := a.side, a.s;
    var end, row := At(w, e), RowOf(At(w, e), t);
    SenderEnabled(w, a, env);
    SenderNext(w, a, env);
    var (o, listed, out) := SenderMove(t, end.outs[t], t in end.credits, a);
    MovedRow(end, t, o, listed, t);
    SenderAgrees(a, row, RowOf(At(w, Peer(e)), t), Fwds(From(w, e), t), Backs(From(w, Peer(e)), t), env.window);
    PutQueues(w, e, Moved(end, t, o, listed), out, t);
  }

  lemma SenderElsewhere(w: Wire, a: Act, env: Env, s: StreamId)
    requires SenderAct(a) && Enabled(w, a, env) && s != a.s
    ensures SameAt(w, Next(w, a, env), s)
  {
    var end := At(w, a.side);
    SenderNext(w, a, env);
    var (o, listed, out) := SenderMove(a.s, end.outs[a.s], a.s in end.credits, a);
    MovedRow(end, a.s, o, listed, s);
    PutElsewhere(w, a.side, Moved(end, a.s, o, listed), out, s);
  }

  lemma SenderActs(w: Wire, a: Act, env: Env, s: StreamId)
    requires SenderAct(a) && Enabled(w, a, env) && SoundAt(w, a.s, env) && SoundAt(w, s, env)
    ensures SoundAt(Next(w, a, env), s, env)
  {
    if s == a.s {
      SenderEnabled(w, a, env);
      SendsItsOwn(w, a.side, s, env);
      SenderView(w, a, env);
      SenderNext(w, a, env);
      Advance(w, Next(w, a, env), s, a.side, StepOf(a), env);
    } else {
      SenderElsewhere(w, a, env, s);
      SameStaysSound(w, Next(w, a, env), s, env);
    }
  }

  // ---------------------------------------------------------------- acts of a consumer

  lemma ConsumerAgrees(end: End, s: StreamId, poll: bool, snd: Row, fwd: seq<Flow.Fwd>, back: seq<Flow.Back>, window: nat)
    requires Reads(end, s) && (poll ==> end.ins[s].chan != []) && ReceivingRow(RowOf(end, s))
    ensures var (end', out) := ConsumerMove(end, s, poll);
      var step := if poll then Flow.Poll else Flow.Drop;
      && |out| <= 1 && (out != [] ==> Fwd(out[0], s) == []) && ReceivingRow(RowOf(end', s))
      && Flow.Enabled(Assemble(snd, RowOf(end, s), fwd, back), step)
      && Assemble(snd, RowOf(end', s), fwd, back + (if out == [] then [] else Back(out[0], s)))
         == Flow.Next(Assemble(snd, RowOf(end, s), fwd, back), step, window)
  {
    assert back + [] == back;
  }

  lemma ConsumerRow(end: End, s: StreamId, poll: bool, t: StreamId)
    requires poll ==> Reads(end, s) && end.ins[s].chan != []
    requires s != t
    ensures RowOf(ConsumerMove(end, s, poll).0, t) == RowOf(end, t) && Mute(ConsumerMove(end, s, poll).1, t)
  {
  }

  lemma ConsumerView(w: Wire, e: Side, s: StreamId, poll: bool, env: Env)
    requires Reads(At(w, e), s) && (poll ==> At(w, e).ins[s].chan != []) && Cast(w, s, Peer(e))
    ensures var (end, out) := ConsumerMove(At(w, e), s, poll);
      var w', p, step := Put(w, e, end, out), Peer(e), if poll then Flow.Poll else Flow.Drop;
      && Cast(w', s, p) && Flow.Enabled(View(w, s, p), step)
      && View(w', s, p) == Flow.Next(View(w, s, p), step, env.window)
  {
    var p := Peer(e);
    var (end, out) := ConsumerMove(At(w, e), s, poll);
    ConsumerAgrees(At(w, e), s, poll, RowOf(At(w, p), s), Fwds(From(w, p), s), Backs(From(w, e), s), env.window);
    PutQueues(w, e, end, out, s);
  }

  lemma ConsumerActs(w: Wire, e: Side, t: StreamId, poll: bool, env: Env, s: StreamId)
    requires Reads(At(w, e), t) && (poll ==> At(w, e).ins[t].chan != []) && SoundAt(w, t, env) && SoundAt(w, s, env)
    ensures SoundAt(Put(w, e, ConsumerMove(At(w, e), t, poll).0, ConsumerMove(At(w, e), t, poll).1), s, env)
  {
    var (end, out) := ConsumerMove(At(w, e), t, poll);
    var w' := Put(w, e, end, out);
    if s == t {
      ReceivesItsOwn(w, e, s, env);
      ConsumerView(w, e, s, poll, env);
      Advance(w, w', s, Peer(e), if poll then Flow.Poll else Flow.Drop, env);
    } else {
      ConsumerRow(At(w, e), t, poll, s);
      PutElsewhere(w, e, end, out, s);
      SameStaysSound(w, w', s, env);
    }
  }

  // ---------------------------------------------------------------- delivery of a stream's frame

  lemma HandledRow(end: End, frame: Frame, s: StreamId)
    requires !frame.Res? && About(frame) != s
    ensures RowOf(Handle(end, frame).0, s) == RowOf(end, s) && Mute(Handle(end, frame).1, s)
  {
  }

  lemma DeliverElsewhere(w: Wire, e: Side, env: Env, s: StreamId)
    requires From(w, Peer(e)) != []
    requires var f := From(w, Peer(e))[0]; !f.Res? && About(f) != s
    ensures SameAt(w, Delivered(w, e), s)
  {
    var f := From(w, Peer(e))[0];
    var (end, out) := Handle(At(w, e), f);
    HandledRow(At(w, e), f, s);
    TakeElsewhere(w, e, s);
    PutElsewhere(Take(w, e), e, end, out, s);
  }

  predicate Forward(frame: Frame)
  {
    frame.Err? || frame.SData? || frame.SEnd? || frame.SErr?
  }

  predicate Backward(frame: Frame)
  {
    frame.Req? || frame.SCredit? || frame.SCancel?
  }

  /** What the tables do with a chunk or an ending is what the stream alone does. */
  lemma ForwardAgrees(end: End, frame: Frame, snd: Row, fwd: seq<Flow.Fwd>, back: seq<Flow.Back>)
    requires Forward(frame) && ReceivingRow(RowOf(end, About(frame)))
    requires About(frame) in end.incoming ==> About(frame) in end.ins && end.ins[About(frame)].Rx?
    ensures var s, (end', out) := About(frame), Handle(end, frame);
      && |out| <= 1 && (out != [] ==> Fwd(out[0], s) == []) && ReceivingRow(RowOf(end', s))
      && Assemble(snd, RowOf(end', s), fwd, back + (if out == [] then [] else Back(out[0], s)))
         == Flow.Arrive(Assemble(snd, RowOf(end, s), fwd, back), Fwd(frame, s)[0])
  {
    assert back + [] == back;
  }

  /** The parts of the system after side `e` took one frame and became `end`. */
  ghost predicate Parts(w: Wire, w': Wire, e: Side, s: StreamId, f: Frame, end: End, out: seq<Frame>)
  {
    var p := Peer(e);
    && w'.born == w.born && At(w', e) == end && At(w', p) == At(w, p)
    && Fwds(From(w, p), s) == Fwd(f, s) + Fwds(From(w', p), s)
    && Backs(From(w, p), s) == Back(f, s) + Backs(From(w', p), s)
    && Fwds(From(w', e), s) == Fwds(From(w, e), s) + (if out == [] then [] else Fwd(out[0], s))
    && Backs(From(w', e), s) == Backs(From(w, e), s) + (if out == [] then [] else Back(out[0], s))
  }

  lemma DeliverParts(w: Wire, e: Side, env: Env, s: StreamId)
    requires From(w, Peer(e)) != [] && |Handle(At(w, e), From(w, Peer(e))[0]).1| <= 1
    ensures var f := From(w, Peer(e))[0];
      Parts(w, Delivered(w, e), e, s, f, Handle(At(w, e), f).0, Handle(At(w, e), f).1)
  {
    var (end, out) := Handle(At(w, e), From(w, Peer(e))[0]);
    TakeQueues(w, e, s);
    PutQueues(Take(w, e), e, end, out, s);
  }

  lemma ForwardParts(w: Wire, w': Wire, e: Side, s: StreamId, f: Frame, end: End, out: seq<Frame>, window: nat)
    requires Parts(w, w', e, s, f, end, out) && Cast(w, s, Peer(e)) && |Fwd(f, s)| == 1 && Back(f, s) == []
    requires ReceivingRow(RowOf(end, s)) && (out != [] ==> Fwd(out[0], s) == [])
    requires var p := Peer(e);
      Assemble(RowOf(At(w, p), s), RowOf(end, s), Fwds(From(w', p), s),
               Backs(From(w, e), s) + (if out == [] then [] else Back(out[0], s)))
      == Flow.Arrive(Assemble(RowOf(At(w, p), s), RowOf(At(w, e), s), Fwds(From(w', p), s), Backs(From(w, e), s)), Fwd(f, s)[0])
    ensures var p := Peer(e);
      && Cast(w', s, p) && Flow.Enabled(View(w, s, p), Flow.RecvFwd)
      && View(w', s, p) == Flow.Next(View(w, s, p), Flow.RecvFwd, window)
  {
    assert View(w, s, Peer(e)).fwd[1..] == Fwds(From(w', Peer(e)), s);
  }

  lemma ForwardView(w: Wire, e: Side, env: Env, s: StreamId)
    requires From(w, Peer(e)) != [] && Cast(w, s, Peer(e))
    requires var f := From(w, Peer(e))[0]; Forward(f) && About(f) == s
    requires s in At(w, e).incoming ==> s in At(w, e).ins && At(w, e).ins[s].Rx?
    ensures var w', p := Delivered(w, e), Peer(e);
      && w'.born == w.born && Cast(w', s, p) && Flow.Enabled(View(w, s, p), Flow.RecvFwd)
      && View(w', s, p) == Flow.Next(View(w, s, p), Flow.RecvFwd, env.window)
  {
    var p, frame, w' := Peer(e), From(w, Peer(e))[0], Delivered(w, e);
    ForwardAgrees(At(w, e), frame, RowOf(At(w, p), s), Fwds(From(w', p), s), Backs(From(w, e), s));
    DeliverParts(w, e, env, s);
    ForwardParts(w, w', e, s, frame, Handle(At(w, e), frame).0, Handle(At(w, e), frame).1, env.window);
  }

  /** What the tables do with credit, a cancel or a request is what the stream alone does. */
  lemma BackAgrees(end: End, frame: Frame, rcv: Row, fwd: seq<Flow.Fwd>, back: seq<Flow.Back>)
    requires Backward(frame) && SendingRow(RowOf(end, About(frame)))
    requires About(frame) in end.credits ==> Transmits(end, About(frame))
    requires About(frame) in end.outs ==> !end.outs[About(frame)].snd.Idle?
    ensures var s, (end', out) := About(frame), Handle(end, frame);
      && out == [] && SendingRow(RowOf(end', s))
      && Assemble(RowOf(end', s), rcv, fwd, back)
         == Flow.Granted(Assemble(RowOf(end, s), rcv, fwd, back), Back(frame, s)[0])
  {
  }

  lemma BackParts(w: Wire, w': Wire, e: Side, s: StreamId, f: Frame, end: End, window: nat)
    requires Parts(w, w', e, s, f, end, []) && Cast(w, s, e) && |Back(f, s)| == 1 && Fwd(f, s) == []
    requires SendingRow(RowOf(end, s))
    requires var p := Peer(e);
      Assemble(RowOf(end, s), RowOf(At(w, p), s), Fwds(From(w, e), s), Backs(From(w', p), s))
      == Flow.Granted(Assemble(RowOf(At(w, e), s), RowOf(At(w, p), s), Fwds(From(w, e), s), Backs(From(w', p), s)), Back(f, s)[0])
    ensures Cast(w', s, e) && Flow.Enabled(View(w, s, e), Flow.RecvBack)
    ensures View(w', s, e) == Flow.Next(View(w, s, e), Flow.RecvBack, window)
  {
    assert View(w, s, e).back[1..] == Backs(From(w', Peer(e)), s);
  }

  lemma BackView(w: Wire, e: Side, env: Env, s: StreamId)
    requires From(w, Peer(e)) != [] && Cast(w, s, e)
    requires var f := From(w, Peer(e))[0]; Backward(f) && About(f) == s
    requires s in At(w, e).credits ==> Transmits(At(w, e), s)
    requires s in At(w, e).outs ==> !At(w, e).outs[s].snd.Idle?
    ensures var w' := Delivered(w, e);
      && w'.born == w.born && Cast(w', s, e) && Flow.Enabled(View(w, s, e), Flow.RecvBack)
      && View(w', s, e) == Flow.Next(View(w, s, e), Flow.RecvBack, env.window)
  {
    var p, frame, w' := Peer(e), From(w, Peer(e))[0], Delivered(w, e);
    BackAgrees(At(w, e), frame, RowOf(At(w, p), s), Fwds(From(w, e), s), Backs(From(w', p), s));
    DeliverParts(w, e, env, s);
    BackParts(w, w', e, s, frame, Handle(At(w, e), frame).0, env.window);
  }

  /** Which side a frame on the link casts a stream's ends on. */
  lemma CastByFrame(w: Wire, e: Side, env: Env, s: StreamId)
    requires From(w, Peer(e)) != [] && SoundAt(w, s, env)
    ensures var f := From(w, Peer(e))[0];
      && (Fwd(f, s) != [] ==> s in w.born && w.born[s] == Peer(e) && Cast(w, s, Peer(e)))
      && (Back(f, s) != [] ==> s in w.born && w.born[s] == e && Cast(w, s, e))
  {
    TakeQueues(w, e, s);
  }

  /** In a sound stream, an entry has its queue and a listed gate has its sender. */
  lemma RowsOfSound(f: Flow.Flow, window: nat)
    requires Flow.Inv(f, window)
    ensures f.entry.Some? ==> f.rx.Rx?
    ensures f.listed ==> f.snd.Sending?
  {
  }

  lemma DeliverForward(w: Wire, e: Side, env: Env, s: StreamId)
    requires From(w, Peer(e)) != [] && SoundAt(w, s, env)
    requires var f := From(w, Peer(e))[0]; Forward(f) && About(f) == s
    ensures SoundAt(Delivered(w, e), s, env)
  {
    CastByFrame(w, e, env, s);
    RowsOfSound(View(w, s, Peer(e)), env.window);
    ForwardView(w, e, env, s);
    Advance(w, Delivered(w, e), s, Peer(e), Flow.RecvFwd, env);
  }

  lemma DeliverBack(w: Wire, e: Side, env: Env, s: StreamId)
    requires From(w, Peer(e)) != [] && SoundAt(w, s, env) && Begun(w)
    requires var f := From(w, Peer(e))[0]; Backward(f) && About(f) == s
    ensures SoundAt(Delivered(w, e), s, env)
  {
    BackFits(w, e, env, s);
    BackView(w, e, env, s);
    Advance(w, Delivered(w, e), s, e, Flow.RecvBack, env);
  }

  /** The sending end's tables are as a frame back to it needs them. */
  lemma BackFits(w: Wire, e: Side, env: Env, s: StreamId)
    requires From(w, Peer(e)) != [] && SoundAt(w, s, env) && Begun(w) && Back(From(w, Peer(e))[0], s) != []
    ensures s in w.born && w.born[s] == e && Cast(w, s, e)
    ensures (s in At(w, e).credits ==> Transmits(At(w, e), s)) && (s in At(w, e).outs ==> !At(w, e).outs[s].snd.Idle?)
  {
    CastByFrame(w, e, env, s);
    RowsOfSound(View(w, s, e), env.window);
  }

  // ---------------------------------------------------------------- delivery of a response

  lemma {:induction false} RegisterRow(end: End, refs: seq<AttachmentRef>, s: StreamId)
    ensures RowOf(RegisterAll(end, refs), s) ==
      if Names(refs, s) && s !in end.incoming
      then RowOf(end, s).(entry := Some(0), rx := Some(Flow.Rx(true, [], [], Flow.Still)))
      else RowOf(end, s)
    decreases |refs|
  {
    if refs != [] {
      var front, last := refs[..|refs| - 1], refs[|refs| - 1].stream;
      RegisterRow(end, front, s);
      assert Names(refs, s) <==> Names(front, s) || last == s by {
        if Names(front, s) {
          var i :| 0 <= i < |front| && front[i].stream == s;
          assert refs[i].stream == s;
        }
        if Names(refs, s) && last != s {
          var i :| 0 <= i < |refs| && refs[i].stream == s;
          assert front[i].stream == s;
        }
      }
    }
  }

  /** An announcement finds its stream the way its kind says. */
  lemma AnnounceShape(f: Flow.Flow, window: nat)
    requires Flow.Inv(f, window) && f.fwd != [] && f.fwd[0].Announce?
    ensures f.plan.Some? ==> f.rx.Absent? && f.entry.None?
    ensures f.plan.None? ==> f.rx == Flow.Unready && f.entry == Some(0)
  {
    if Flow.Live(f) { Flow.PendingPlain(f.sent, f.entry.value, f.closing); }
    assert Flow.Announced(f);
  }

  lemma ResponseParts(w: Wire, e: Side, env: Env, s: StreamId)
    requires From(w, Peer(e)) != [] && From(w, Peer(e))[0].Res?
    ensures var f, end := From(w, Peer(e))[0], At(w, e);
      Parts(w, Delivered(w, e), e, s, f, Ready(RegisterAll(end, Refs(f.result)), f.answers), [])
  {
    DeliverParts(w, e, env, s);
  }

  lemma ResponseElsewhere(w: Wire, e: Side, env: Env, s: StreamId)
    requires From(w, Peer(e)) != [] && From(w, Peer(e))[0].Res? && Fwd(From(w, Peer(e))[0], s) == []
    ensures SameAt(w, Delivered(w, e), s)
  {
    var frame := From(w, Peer(e))[0];
    ResponseParts(w, e, env, s);
    RegisterRow(At(w, e), Refs(frame.result), s);
    assert SameSide(w, Delivered(w, e), s, e) && SameSide(w, Delivered(w, e), s, Peer(e));
  }

  /** What registering does to an announced stream's row. */
  lemma AnnounceRow(end: End, frame: Frame, s: StreamId)
    requires frame.Res? && ReceivingRow(RowOf(end, s))
    requires if frame.answers == Some(s)
             then !Names(Refs(frame.result), s) && s in end.ins && end.ins[s] == Flow.Unready
             else Names(Refs(frame.result), s) && RowOf(end, s).entry.None? && (s in end.ins ==> end.ins[s].Absent?)
    ensures var r := RowOf(Ready(RegisterAll(end, Refs(frame.result)), frame.answers), s);
      && ReceivingRow(r)
      && r.entry == (if frame.answers == Some(s) then RowOf(end, s).entry else Some(0))
      && r.rx == Some(Flow.Rx(true, [], [], Flow.Still))
  {
    RegisterRow(end, Refs(frame.result), s);
  }

  lemma AnnounceView(w: Wire, e: Side, env: Env, s: StreamId)
    requires From(w, Peer(e)) != [] && From(w, Peer(e))[0].Res? && Cast(w, s, Peer(e))
    requires var frame, end := From(w, Peer(e))[0], At(w, e);
      if frame.answers == Some(s)
      then !Names(Refs(frame.result), s) && s in end.ins && end.ins[s] == Flow.Unready
      else Names(Refs(frame.result), s) && RowOf(end, s).entry.None? && (s in end.ins ==> end.ins[s].Absent?)
    ensures var w', p := Delivered(w, e), Peer(e);
      && w'.born == w.born && Cast(w', s, p) && Flow.Enabled(View(w, s, p), Flow.RecvFwd)
      && View(w', s, p) == Flow.Next(View(w, s, p), Flow.RecvFwd, env.window)
  {
    var p, frame, w' := Peer(e), From(w, Peer(e))[0], Delivered(w, e);
    ResponseParts(w, e, env, s);
    AnnounceRow(At(w, e), frame, s);
    var end := Ready(RegisterAll(At(w, e), Refs(frame.result)), frame.answers);
    assert Backs(From(w, e), s) + [] == Backs(From(w, e), s);
    ForwardParts(w, w', e, s, frame, end, [], env.window);
  }

  /** The frame and the stream agree on which kind of announcement it is. */
  lemma AnnounceKind(w: Wire, e: Side, env: Env, s: StreamId)
    requires From(w, Peer(e)) != [] && From(w, Peer(e))[0].Res? && SoundAt(w, s, env) && Tagged(w)
    requires Fwd(From(w, Peer(e))[0], s) != []
    ensures s in w.born && w.born[s] == Peer(e) && Cast(w, s, Peer(e))
    ensures var frame, end := From(w, Peer(e))[0], At(w, e);
      if frame.answers == Some(s)
      then !Names(Refs(frame.result), s) && s in end.ins && end.ins[s] == Flow.Unready
      else Names(Refs(frame.result), s) && RowOf(end, s).entry.None? && (s in end.ins ==> end.ins[s].Absent?)
  {
    var p, frame := Peer(e), From(w, Peer(e))[0];
    CastByFrame(w, e, env, s);
    TakeQueues(w, e, s);
    assert TaggedFrame(At(w, p), frame);
    assert View(w, s, p).fwd[0] == Flow.Announce;
    AnnounceShape(View(w, s, p), env.window);
  }

  lemma DeliverResponse(w: Wire, e: Side, env: Env, s: StreamId)
    requires From(w, Peer(e)) != [] && From(w, Peer(e))[0].Res? && SoundAt(w, s, env) && Tagged(w)
    ensures SoundAt(Delivered(w, e), s, env)
  {
    if Fwd(From(w, Peer(e))[0], s) == [] {
      ResponseElsewhere(w, e, env, s);
      SameStaysSound(w, Delivered(w, e), s, env);
    } else {
      AnnounceKind(w, e, env, s);
      AnnounceView(w, e, env, s);
      Advance(w, Delivered(w, e), s, Peer(e), Flow.RecvFwd, env);
    }
  }

  lemma Delivers(w: Wire, e: Side, env: Env, s: StreamId)
    requires From(w, Peer(e)) != [] && SoundAt(w, s, env) && Tagged(w) && Begun(w)
    ensures SoundAt(Delivered(w, e), s, env)
  {
    var f := From(w, Peer(e))[0];
    if f.Res? {
      DeliverResponse(w, e, env, s);
    } else if About(f) != s {
      DeliverElsewhere(w, e, env, s);
      SameStaysSound(w, Delivered(w, e), s, env);
    } else if Forward(f) {
      DeliverForward(w, e, env, s);
    } else {
      DeliverBack(w, e, env, s);
    }
  }

  // ---------------------------------------------------------------- a stream is born

  lemma BornSound(w': Wire, s: StreamId, e: Side, step: Flow.Step, env: Env)
    requires s in w'.born && w'.born[s] == e && Cast(w', s, e)
    requires (step.Declare? || step.Attach?) && View(w', s, e) == Flow.Next(Flow.Unborn, step, env.window)
    ensures SoundAt(w', s, env)
  {
    Flow.StepInv(Flow.Unborn, step, env.window);
  }

  lemma CallBorn(w: Wire, e: Side, env: Env, s: StreamId)
    requires At(w, e).next == s && Clear(w, s)
    ensures SoundAt(Called(w, e), s, env) && View(Called(w, e), s, Peer(e)) == Flow.Next(Flow.Unborn, Flow.Declare, env.window)
  {
    PutQueues(w, e, Calling(At(w, e)), [Req(s)], s);
    CallingRow(At(w, e), s);
    assert RowOf(At(w, e), s) == Blank && RowOf(At(w, Peer(e)), s) == Blank;
    BornSound(Called(w, e), s, Peer(e), Flow.Declare, env);
  }

  lemma CallElsewhere(w: Wire, e: Side, s: StreamId)
    requires At(w, e).next < 0x1_0000_0000 && s != At(w, e).next
    ensures SameAt(w, Called(w, e), s)
  {
    CallingRow(At(w, e), s);
    PutElsewhere(w, e, Calling(At(w, e)), [Req(At(w, e).next)], s);
  }

  lemma CallActs(w: Wire, e: Side, env: Env, s: StreamId)
    requires At(w, e).next < 0x1_0000_0000 && Counted(w) && SoundAt(w, s, env)
    ensures SoundAt(Called(w, e), s, env)
  {
    if s == At(w, e).next {
      CallBorn(w, e, env, s);
    } else {
      CallElsewhere(w, e, s);
      SameStaysSound(w, Called(w, e), s, env);
    }
  }

  // ---------------------------------------------------------------- a response is sent

  lemma {:induction false} OpenRow(end: End, env: Env, ds: seq<Detached>, i: nat)
    requires i < |ds| && forall j, k :: 0 <= j < k < |ds| ==> ds[j].stream != ds[k].stream
    ensures RowOf(OpenAll(end, env, ds), ds[i].stream)
         == RowOf(end, ds[i].stream).(listed := true, out := Some(Opened(env, ds[i].bytes)))
    decreases |ds|
  {
    var front := ds[..|ds| - 1];
    if i < |ds| - 1 {
      assert ds[i].stream != ds[|ds| - 1].stream;
      OpenRow(end, env, front, i);
    } else {
      OpenRowElse(end, env, front, ds[i].stream);
    }
  }

  lemma {:induction false} OpenRowElse(end: End, env: Env, ds: seq<Detached>, s: StreamId)
    requires forall j :: 0 <= j < |ds| ==> ds[j].stream != s
    ensures var r, q := RowOf(OpenAll(end, env, ds), s), RowOf(end, s);
      r.listed == q.listed && r.out == q.out && r.entry == q.entry && r.rx == q.rx
    decreases |ds|
  {
    if ds != [] { OpenRowElse(end, env, ds[..|ds| - 1], s); }
  }

  /** What leaves with a response: one stream per blob over the limit, in walk order. */
  lemma Leaves(env: Env, original: Value, ids: seq<StreamId>, next: nat)
    requires Refs(original) == [] && |ids| == |Blobs(original, env.threshold)| && Fresh(ids, next)
    ensures var (tree, ds) := Detach(original, CtxOf(env, ids), 0);
      && |ds| == |ids|
      && (forall i :: 0 <= i < |ids| ==> ds[i].stream == ids[i] && ds[i].bytes == Blobs(original, env.threshold)[i])
      && Refs(tree) == RefsTo(ds)
  {
    var c := CtxOf(env, ids);
    DetachSends(original, c, 0);
    NoRefs(original, env.threshold);
    RefsListWhatLeft(original, c, 0);
  }

  lemma NamesIds(ds: seq<Detached>, ids: seq<StreamId>, s: StreamId)
    requires |ds| == |ids| && forall i :: 0 <= i < |ids| ==> ds[i].stream == ids[i]
    ensures Names(RefsTo(ds), s) <==> s in ids
  {
    if s in ids {
      var i :| 0 <= i < |ids| && ids[i] == s;
      assert RefsTo(ds)[i].stream == s;
    }
  }

  /** What a response may be: no reference in it, an id for each blob, an answer to a waiting call. */
  ghost predicate MayRespond(end: End, env: Env, answers: Option<StreamId>, original: Value, ids: seq<StreamId>)
  {
    Refs(original) == [] && |ids| == |Blobs(original, env.threshold)| && Fresh(ids, end.next)
    && (answers.Some? ==> answers.value in end.outs && end.outs[answers.value].snd.Asked?)
  }

  /** The sending row of a declared stream once it is answered. */
  function Answered(r: Row, env: Env, streams: bool): Row
  {
    if streams then r.(listed := true, out := Some(Begins(env))) else r.(out := Some(Silent))
  }

  /** Answering comes on top of opening the blobs' streams. */
  lemma RespondedRow(end: End, env: Env, answers: Option<StreamId>, streams: bool, original: Value, ids: seq<StreamId>, s: StreamId)
    ensures var row := RowOf(OpenAll(end, env, Detach(original, CtxOf(env, ids), 0).1), s);
      RowOf(Responded(end, env, answers, streams, original, ids), s) == if answers == Some(s) then Answered(row, env, streams) else row
  {
  }

  lemma RespondedElse(end: End, env: Env, answers: Option<StreamId>, streams: bool, original: Value, ids: seq<StreamId>, s: StreamId)
    requires MayRespond(end, env, answers, original, ids) && s !in ids
    ensures RowOf(Responded(end, env, answers, streams, original, ids), s)
         == if answers == Some(s) then Answered(RowOf(end, s), env, streams) else RowOf(end, s)
  {
    RespondedRow(end, env, answers, streams, original, ids, s);
    Leaves(env, original, ids, end.next);
    OpenRowElse(end, env, Detach(original, CtxOf(env, ids), 0).1, s);
  }

  lemma RespondedNew(end: End, env: Env, answers: Option<StreamId>, streams: bool, original: Value, ids: seq<StreamId>, i: nat)
    requires MayRespond(end, env, answers, original, ids) && i < |ids| && answers != Some(ids[i])
    ensures RowOf(Responded(end, env, answers, streams, original, ids), ids[i])
         == RowOf(end, ids[i]).(listed := true, out := Some(Opened(env, Blobs(original, env.threshold)[i])))
  {
    RespondedRow(end, env, answers, streams, original, ids, ids[i]);
    Leaves(env, original, ids, end.next);
    OpenRow(end, env, Detach(original, CtxOf(env, ids), 0).1, i);
  }

  /** Fresh ids have never been used. */
  lemma FreshUnborn(w: Wire, e: Side, ids: seq<StreamId>, i: nat)
    requires Counted(w) && Fresh(ids, At(w, e).next) && i < |ids|
    ensures ids[i] !in w.born
  {
  }

  /** The system after a response, as one stream sees it. */
  ghost predicate RespondedParts(w: Wire, w': Wire, e: Side, answers: Option<StreamId>, ids: seq<StreamId>, s: StreamId)
  {
    && At(w', Peer(e)) == At(w, Peer(e)) && From(w', Peer(e)) == From(w, Peer(e))
    && w'.born == w.born + (map t | t in ids :: e)
    && Fwds(From(w', e), s) == Fwds(From(w, e), s) + (if answers == Some(s) || s in ids then [Flow.Announce] else [])
    && Backs(From(w', e), s) == Backs(From(w, e), s)
  }

  lemma RespondParts(w: Wire, e: Side, answers: Option<StreamId>, streams: bool, original: Value, ids: seq<StreamId>, env: Env, s: StreamId)
    requires MayRespond(At(w, e), env, answers, original, ids)
    ensures var w' := Replied(w, e, answers, streams, original, ids, env);
      RespondedParts(w, w', e, answers, ids, s) && At(w', e) == Responded(At(w, e), env, answers, streams, original, ids)
  {
    var (tree, ds) := Detach(original, CtxOf(env, ids), 0);
    Leaves(env, original, ids, At(w, e).next);
    NamesIds(ds, ids, s);
    PutQueues(w, e, Responded(At(w, e), env, answers, streams, original, ids), [Res(answers, tree)], s);
  }

  lemma RespondAttach(w: Wire, w': Wire, e: Side, answers: Option<StreamId>, ids: seq<StreamId>, bytes: Bytes, env: Env, s: StreamId)
    requires RespondedParts(w, w', e, answers, ids, s) && Clear(w, s) && s in ids
    requires RowOf(At(w', e), s) == RowOf(At(w, e), s).(listed := true, out := Some(Opened(env, bytes)))
    ensures SoundAt(w', s, env)
    ensures View(w', s, e) == Flow.Next(Flow.Unborn, Flow.Attach(Chunks(bytes, ChunkSize(env))), env.window)
  {
    assert RowOf(At(w, e), s) == Blank && RowOf(At(w, Peer(e)), s) == Blank;
    BornSound(w', s, e, Flow.Attach(Chunks(bytes, ChunkSize(env))), env);
  }

  lemma AskedIsPlain(w: Wire, e: Side, s: StreamId, env: Env)
    requires SoundAt(w, s, env) && s in At(w, e).outs && At(w, e).outs[s].snd.Asked?
    ensures s in w.born && w.born[s] == e && Cast(w, s, e)
    ensures At(w, e).outs[s] == Outgoing(None, Flow.Asked, [], Flow.Running)
  {
    SendsItsOwn(w, e, s, env);
    assert View(w, s, e).snd.Asked?;
  }

  lemma RespondBegin(w: Wire, w': Wire, e: Side, streams: bool, ids: seq<StreamId>, env: Env, s: StreamId)
    requires RespondedParts(w, w', e, Some(s), ids, s) && Cast(w, s, e) && s !in ids
    requires s in At(w, e).outs && At(w, e).outs[s] == Outgoing(None, Flow.Asked, [], Flow.Running)
    requires RowOf(At(w', e), s) == Answered(RowOf(At(w, e), s), env, streams)
    ensures var step := if streams then Flow.Begin else Flow.Answer;
      && Cast(w', s, e) && Flow.Enabled(View(w, s, e), step)
      && View(w', s, e) == Flow.Next(View(w, s, e), step, env.window)
  {
  }

  lemma RespondElsewhere(w: Wire, w': Wire, e: Side, answers: Option<StreamId>, ids: seq<StreamId>, s: StreamId)
    requires RespondedParts(w, w', e, answers, ids, s) && answers != Some(s) && s !in ids
    requires RowOf(At(w', e), s) == RowOf(At(w, e), s)
    ensures SameAt(w, w', s)
  {
    assert SameSide(w, w', s, e) && SameSide(w, w', s, Peer(e));
  }

  lemma RespondActs(w: Wire, e: Side, answers: Option<StreamId>, streams: bool, original: Value, ids: seq<StreamId>, env: Env, s: StreamId)
    requires MayRespond(At(w, e), env, answers, original, ids) && Counted(w)
    requires SoundAt(w, s, env) && (answers.Some? ==> SoundAt(w, answers.value, env))
    ensures SoundAt(Replied(w, e, answers, streams, original, ids, env), s, env)
  {
    var w' := Replied(w, e, answers, streams, original, ids, env);
    RespondParts(w, e, answers, streams, original, ids, env, s);
    if answers.Some? { AskedIsPlain(w, e, answers.value, env); }
    if s in ids {
      var i :| 0 <= i < |ids| && ids[i] == s;
      FreshUnborn(w, e, ids, i);
      RespondedNew(At(w, e), env, answers, streams, original, ids, i);
      RespondAttach(w, w', e, answers, ids, Blobs(original, env.threshold)[i], env, s);
    } else {
      RespondedElse(At(w, e), env, answers, streams, original, ids, s);
      if answers == Some(s) {
        RespondBegin(w, w', e, streams, ids, env, s);
        Flow.StepInv(View(w, s, e), if streams then Flow.Begin else Flow.Answer, env.window);
      } else {
        RespondElsewhere(w, w', e, answers, ids, s);
        SameStaysSound(w, w', s, env);
      }
    }
  }
}
