/**
 One stream, both of its ends, and what is on the link between them.

 The sending end owns a credit gate and numbers its chunks; the receiving end checks the numbers,
 queues what it accepts, and grants credit for each chunk its consumer takes.  Frames travel in
 order in each direction.  Taking credit and handing the chunk to the link is one step.
 */
module Flow {
  import opened Base

  type Item = seq<byte>

  /** From the sending end: the response that announces the stream, chunks, and how it ended. */
  datatype Fwd = Announce | Refuse | Data(no: nat, item: Item) | Fin | Fault

  /** From the receiving end: the request that declares the stream, credit, and a cancel. */
  datatype Back = Ask | Grant(n: nat) | Stop

  datatype Event = Chunk(item: Item) | End | Broken

  datatype Sender =
    | Idle
    | Asked
    | Sending(avail: nat, canceled: bool, todo: seq<Item>, open: bool)
    | Gone

  datatype Receiver =
    | Absent
    | Rx(ready: bool, chan: seq<Event>, got: seq<Item>, finished: Finish)
    | Dropped

  /** What the consumer was told last: nothing yet, a clean end, or a failure. */
  datatype Finish = Still | Good | Bad

  datatype Closing = Running | Ended | Faulted | Silent

  /**
   `plan` is what an attachment is going to send, from the start; a tool's stream has none.
   `listed` says the gate is in the sending end's `credits` table; `entry` is the receiving end's
   `incoming` entry with the number it expects next; `sent` and `closing` are what the sending end
   has put on the link so far.
   */
  datatype Flow = Flow(plan: Option<seq<Item>>, snd: Sender, listed: bool, sent: seq<Item>, closing: Closing,
                       fwd: seq<Fwd>, back: seq<Back>, entry: Option<nat>, rx: Receiver)

  const Unborn := Flow(None, Idle, false, [], Running, [], [], None, Absent)

  datatype Step =
    | Declare                     // call_streaming_raw
    | Attach(items: seq<Item>)    // reply_res detaches a blob
    | Begin                       // a streaming tool answers with a head
    | Answer                      // a tool answers without a stream, though one was declared
    | Reject                      // the call is answered with an error instead
    | Produce(item: Item)
    | Close
    | Send
    | Finish
    | Fail
    | Halt
    | RecvFwd
    | RecvBack
    | Poll
    | Drop

  predicate Enabled(f: Flow, s: Step)
  {
    match s
    case Declare => f == Unborn
    case Attach(_) => f == Unborn
    case Begin => f.snd.Asked?
    case Answer => f.snd.Asked?
    case Reject => f.snd.Asked?
    case Produce(_) => f.snd.Sending? && f.snd.open
    case Close => f.snd.Sending? && f.snd.open
    case Send => f.snd.Sending? && !f.snd.canceled && f.snd.todo != [] && |f.snd.todo[0]| <= f.snd.avail
    case Finish => f.snd.Sending? && f.snd.todo == [] && !f.snd.open
    case Fail => f.snd.Sending? && f.listed && f.plan.None?
    case Halt => f.snd.Sending? && !f.listed
    case RecvFwd => f.fwd != []
    case RecvBack => f.back != []
    case Poll => f.rx.Rx? && f.rx.ready && f.rx.finished.Still? && f.rx.chan != []
    case Drop => f.rx.Rx? && f.rx.ready && f.rx.finished.Still?
  }

  /** `handle_frame` and the stream arms of `handle_control`, on the receiving end. */
  function Arrive(f: Flow, frame: Fwd): (r: Flow)
  {
    match frame
    case Announce =>
      if f.rx.Absent? && f.entry.None? then f.(entry := Some(0), rx := Rx(true, [], [], Still))
      else if f.rx.Rx? then f.(rx := f.rx.(ready := true))
      else f
    case Refuse => if f.rx.Rx? && !f.rx.ready then f.(entry := None, rx := Dropped) else f
    case Data(k, x) =>
      if f.entry.None? then f
      else if k != f.entry.value then Tell(f.(back := f.back + [Stop]), Broken)
      else Queued(f.(entry := Some(k + 1)), Chunk(x))
    case Fin => if f.entry.None? then f else Tell(f, End)
    case Fault => if f.entry.None? then f else Tell(f, Broken)
  }

  /** The entry goes and the consumer is told why. */
  function Tell(f: Flow, e: Event): Flow
  {
    Queued(f.(entry := None), e)
  }

  function Queued(f: Flow, e: Event): Flow
  {
    if f.rx.Rx? then f.(rx := f.rx.(chan := f.rx.chan + [e])) else f
  }

  /** The credit arms of `handle_control`, on the sending end. */
  function Granted(f: Flow, frame: Back): (r: Flow)
  {
    match frame
    case Ask => if f.snd.Idle? then f.(snd := Asked) else f
    case Grant(n) => if f.listed && f.snd.Sending? then f.(snd := f.snd.(avail := f.snd.avail + n)) else f
    case Stop =>
      if f.listed && f.snd.Sending? then f.(listed := false, snd := f.snd.(canceled := true)) else f
  }

  /** `RawIncomingStream::poll_next`. */
  function Polled(f: Flow): (r: Flow)
    requires f.rx.Rx? && f.rx.chan != []
  {
    var rest := f.rx.(chan := f.rx.chan[1..]);
    match f.rx.chan[0]
    case Chunk(x) => f.(rx := rest.(got := f.rx.got + [x]), back := f.back + [Grant(|x|)])
    case End => f.(rx := rest.(finished := Good))
    case Broken => f.(rx := rest.(finished := Bad))
  }

  function Next(f: Flow, s: Step, window: nat): (r: Flow)
    requires Enabled(f, s)
  {
    match s
    case Declare => f.(entry := Some(0), rx := Rx(false, [], [], Still), back := [Ask])
    case Attach(items) =>
      f.(plan := Some(items), snd := Sending(window, false, items, false), listed := true, fwd := [Announce])
    case Begin => f.(snd := Sending(window, false, [], true), listed := true, fwd := f.fwd + [Announce])
    case Answer => f.(snd := Gone, closing := Silent, fwd := f.fwd + [Announce])
    case Reject => f.(snd := Gone, closing := Silent, fwd := f.fwd + [Refuse])
    case Produce(x) => f.(snd := f.snd.(todo := f.snd.todo + [x]))
    case Close => f.(snd := f.snd.(open := false))
    case Send =>
      var x := f.snd.todo[0];
      f.(snd := f.snd.(avail := f.snd.avail - |x|, todo := f.snd.todo[1..]),
         sent := f.sent + [x], fwd := f.fwd + [Data(|f.sent|, x)])
    case Finish => f.(snd := Gone, listed := false, closing := Ended, fwd := f.fwd + [Fin])
    case Fail => f.(snd := Gone, listed := false, closing := Faulted, fwd := f.fwd + [Fault])
    case Halt => f.(snd := Gone, closing := Silent)
    case RecvFwd => Arrive(f.(fwd := f.fwd[1..]), f.fwd[0])
    case RecvBack => Granted(f.(back := f.back[1..]), f.back[0])
    case Poll => Polled(f)
    case Drop => f.(rx := Dropped, entry := None, back := f.back + [Stop])
  }

  // ---------------------------------------------------------------- accounting

  function FwdBytes(q: seq<Fwd>): nat
  {
    if q == [] then 0 else (if q[0].Data? then |q[0].item| else 0) + FwdBytes(q[1..])
  }

  function ChanBytes(q: seq<Event>): nat
  {
    if q == [] then 0 else (if q[0].Chunk? then |q[0].item| else 0) + ChanBytes(q[1..])
  }

  function Credit(q: seq<Back>): nat
  {
    if q == [] then 0 else (if q[0].Grant? then q[0].n else 0) + Credit(q[1..])
  }

  /** The chunks waiting in a queue of events. */
  function Waiting(q: seq<Event>): seq<Item>
  {
    if q == [] then [] else (if q[0].Chunk? then [q[0].item] else []) + Waiting(q[1..])
  }

  /** Data queued at the receiver. */
  function Queue(f: Flow): seq<Event>
  {
    if f.rx.Rx? then f.rx.chan else []
  }

  lemma {:induction false} FwdAppend(q: seq<Fwd>, x: Fwd)
    ensures FwdBytes(q + [x]) == FwdBytes(q) + (if x.Data? then |x.item| else 0)
  {
    if q != [] {
      assert (q + [x])[1..] == q[1..] + [x];
      FwdAppend(q[1..], x);
    }
  }

  lemma {:induction false} CreditAppend(q: seq<Back>, x: Back)
    ensures Credit(q + [x]) == Credit(q) + (if x.Grant? then x.n else 0)
  {
    if q != [] {
      assert (q + [x])[1..] == q[1..] + [x];
      CreditAppend(q[1..], x);
    }
  }

  lemma {:induction false} ChanAppend(q: seq<Event>, x: Event)
    ensures ChanBytes(q + [x]) == ChanBytes(q) + (if x.Chunk? then |x.item| else 0)
    ensures Waiting(q + [x]) == Waiting(q) + (if x.Chunk? then [x.item] else [])
  {
    if q != [] {
      assert (q + [x])[1..] == q[1..] + [x];
      ChanAppend(q[1..], x);
    }
  }

  // ---------------------------------------------------------------- the invariant

  /** What must still be on the link when the receiver has taken the first `from` chunks. */
  function Pending(sent: seq<Item>, from: nat, closing: Closing): (r: seq<Fwd>)
    requires from <= |sent|
    decreases |sent| - from
  {
    if from == |sent| then
      if closing.Ended? then [Fin] else if closing.Faulted? then [Fault] else []
    else [Data(from, sent[from])] + Pending(sent, from + 1, closing)
  }

  lemma {:induction false} PendingSend(sent: seq<Item>, from: nat, x: Item)
    requires from <= |sent|
    ensures Pending(sent + [x], from, Running) == Pending(sent, from, Running) + [Data(|sent|, x)]
    decreases |sent| - from
  {
    if from < |sent| {
      PendingSend(sent, from + 1, x);
    } else {
      assert Pending(sent + [x], from + 1, Running) == [];
    }
  }

  lemma {:induction false} PendingClose(sent: seq<Item>, from: nat, closing: Closing)
    requires from <= |sent|
    ensures Pending(sent, from, closing)
         == Pending(sent, from, Running) + Pending(sent, |sent|, closing)
    decreases |sent| - from
  {
    if from < |sent| { PendingClose(sent, from + 1, closing); }
  }

  /** Chunks, then nothing after a terminal event. */
  predicate Orderly(q: seq<Event>)
  {
    forall i :: 0 <= i < |q| - 1 ==> q[i].Chunk?
  }

  predicate Closed(q: seq<Event>)
  {
    q != [] && !q[|q| - 1].Chunk?
  }

  ghost predicate SenderInv(f: Flow)
  {
    && (f.listed ==> f.snd.Sending? && !f.snd.canceled)
    && (f.snd.Sending? && !f.listed ==> f.snd.canceled && f.rx.Dropped?)
    && (f.plan.Some? && f.closing.Silent? ==> f.rx.Dropped?)
    && (f.plan.Some? && f.rx.Rx? ==> f.rx.ready)
    && (f.plan.None? && f.rx.Absent? ==> f == Unborn)
    && (f.snd.Idle? || f.snd.Asked? ==> f.sent == [] && f.fwd == [])
    && (f.snd.Gone? <==> f.closing != Running)
    && (f.plan.Some? && f.snd.Sending? ==> !f.snd.open && f.sent + f.snd.todo == f.plan.value)
    && (f.plan.Some? && f.closing.Ended? ==> f.sent == f.plan.value)
    && (f.plan.Some? ==> !f.closing.Faulted? && !f.snd.Idle? && !f.snd.Asked?)
  }

  // The shapes a stream can be in, in the order it goes through them.

  const Unready := Rx(false, [], [], Still)

  ghost predicate Declared(f: Flow)
  {
    f.rx == Unready && f.entry == Some(0) && f.fwd == []
    && ((f.snd.Idle? && f.back == [Ask]) || (f.snd.Asked? && f.back == []))
  }

  ghost predicate Rejected(f: Flow)
  {
    f.rx == Unready && f.entry == Some(0) && f.snd.Gone? && f.fwd == [Refuse] && f.back == []
  }

  ghost predicate Announced(f: Flow)
  {
    (f.snd.Sending? || f.snd.Gone?) && f.back == [] && f.fwd == [Announce] + Pending(f.sent, 0, f.closing)
    && ((f.rx.Absent? && f.entry.None?) || (f.rx == Unready && f.entry == Some(0)))
  }

  ghost predicate Live(f: Flow)
  {
    (f.snd.Sending? || f.snd.Gone?) && Grants(f.back) && f.rx.Rx? && f.rx.ready
    && f.entry.Some? && f.entry.value <= |f.sent| && f.fwd == Pending(f.sent, f.entry.value, f.closing)
  }

  ghost predicate Over(f: Flow)
  {
    (f.snd.Sending? || f.snd.Gone?) && NoAsk(f.back) && f.entry.None? && Plain(f.fwd)
    && (f.rx.Dropped? || (f.rx.Rx? && f.rx.ready && Grants(f.back)))
  }

  ghost predicate Grants(q: seq<Back>)
  {
    forall i :: 0 <= i < |q| ==> q[i].Grant?
  }

  ghost predicate NoAsk(q: seq<Back>)
  {
    forall i :: 0 <= i < |q| ==> !q[i].Ask?
  }

  ghost predicate Plain(q: seq<Fwd>)
  {
    forall i :: 0 <= i < |q| ==> !q[i].Announce? && !q[i].Refuse?
  }

  ghost predicate LinkInv(f: Flow)
  {
    f == Unborn || Declared(f) || Rejected(f) || Announced(f) || Live(f) || Over(f)
  }

  /** What the consumer has seen and is about to see is a prefix of what was sent. */
  ghost predicate DeliveryInv(f: Flow)
  {
    f.rx.Rx? ==>
      && Orderly(f.rx.chan)
      && (!f.rx.finished.Still? ==> f.rx.chan == [] && f.entry.None?)
      && (f.entry.None? ==> !f.rx.finished.Still? || Closed(f.rx.chan))
      && (f.entry.Some? ==> f.entry.value <= |f.sent| && !Closed(f.rx.chan) && f.rx.got + Waiting(f.rx.chan) == f.sent[..f.entry.value])
      && f.rx.got + Waiting(f.rx.chan) <= f.sent
      && (f.rx.finished.Good? || (Closed(f.rx.chan) && f.rx.chan[|f.rx.chan| - 1].End?) ==>
            f.closing.Ended? && f.rx.got + Waiting(f.rx.chan) == f.sent)
      && (f.rx.finished.Bad? || (Closed(f.rx.chan) && f.rx.chan[|f.rx.chan| - 1].Broken?) ==>
            f.closing.Faulted?)
  }

  ghost predicate CreditInv(f: Flow, window: nat)
  {
    f.listed && f.snd.Sending? ==>
      var total := f.snd.avail + FwdBytes(f.fwd) + ChanBytes(Queue(f)) + Credit(f.back);
      if f.rx.Dropped? then total <= window else total == window
  }

  ghost predicate Inv(f: Flow, window: nat)
  {
    SenderInv(f) && LinkInv(f) && DeliveryInv(f) && CreditInv(f, window)
  }

  // ---------------------------------------------------------------- every step keeps it

  lemma {:induction false} PendingPlain(sent: seq<Item>, from: nat, closing: Closing)
    requires from <= |sent|
    ensures Plain(Pending(sent, from, closing))
    decreases |sent| - from
  {
    if from < |sent| { PendingPlain(sent, from + 1, closing); }
  }

  lemma StepOpen(f: Flow, s: Step, window: nat)
    requires Inv(f, window) && Enabled(f, s) && (s.Declare? || s.Attach? || s.Begin? || s.Answer? || s.Reject?)
    ensures Inv(Next(f, s, window), window)
  {
    var g := Next(f, s, window);
    assert s.Attach? || s.Begin? || s.Answer? ==> Announced(g);
  }

  lemma StepFeed(f: Flow, s: Step, window: nat)
    requires Inv(f, window) && Enabled(f, s) && (s.Produce? || s.Close?)
    ensures Inv(Next(f, s, window), window)
  {
    var g := Next(f, s, window);
    assert LinkInv(g);
  }

  lemma SendLink(f: Flow, window: nat)
    requires LinkInv(f) && SenderInv(f) && Enabled(f, Send)
    ensures LinkInv(Next(f, Send, window))
  {
    var g := Next(f, Send, window);
    var x := f.snd.todo[0];
    if Announced(f) {
      PendingSend(f.sent, 0, x);
      assert Announced(g);
    } else if Live(f) {
      PendingSend(f.sent, f.entry.value, x);
      assert Live(g);
    } else {
      assert Over(g);
    }
  }

  lemma SendCredit(f: Flow, window: nat)
    requires CreditInv(f, window) && SenderInv(f) && Enabled(f, Send)
    ensures CreditInv(Next(f, Send, window), window) && SenderInv(Next(f, Send, window))
  {
    var g := Next(f, Send, window);
    FwdAppend(f.fwd, Data(|f.sent|, f.snd.todo[0]));
    assert f.plan.Some? ==> g.sent + g.snd.todo == f.sent + f.snd.todo;
  }

  lemma SendDelivery(f: Flow, window: nat)
    requires DeliveryInv(f) && SenderInv(f) && Enabled(f, Send)
    ensures DeliveryInv(Next(f, Send, window))
  {
    var g := Next(f, Send, window);
    if f.rx.Rx? && f.entry.Some? { assert g.sent[..f.entry.value] == f.sent[..f.entry.value]; }
  }

  lemma StepSend(f: Flow, window: nat)
    requires Inv(f, window) && Enabled(f, Send)
    ensures Inv(Next(f, Send, window), window)
  {
    SendLink(f, window);
    SendCredit(f, window);
    SendDelivery(f, window);
  }

  lemma StepEnd(f: Flow, s: Step, window: nat)
    requires Inv(f, window) && Enabled(f, s) && (s.Finish? || s.Fail? || s.Halt?)
    ensures Inv(Next(f, s, window), window)
  {
    EndLink(f, s, window);
    EndRest(f, s, window);
  }

  lemma EndLink(f: Flow, s: Step, window: nat)
    requires LinkInv(f) && SenderInv(f) && Enabled(f, s) && (s.Finish? || s.Fail? || s.Halt?)
    ensures LinkInv(Next(f, s, window))
  {
    var g := Next(f, s, window);
    EndFrames(f, s, window);
    if Announced(f) {
      PendingClose(f.sent, 0, g.closing);
      Regroup([Announce], Pending(f.sent, 0, Running), Pending(f.sent, |f.sent|, g.closing));
      assert Announced(g);
    } else if Live(f) {
      PendingClose(f.sent, f.entry.value, g.closing);
      assert Live(g);
    } else {
      PendingPlain(f.sent, |f.sent|, g.closing);
      assert Over(g);
    }
  }

  lemma EndFrames(f: Flow, s: Step, window: nat)
    requires SenderInv(f) && Enabled(f, s) && (s.Finish? || s.Fail? || s.Halt?)
    ensures var g := Next(f, s, window); f.closing.Running? && g.fwd == f.fwd + Pending(f.sent, |f.sent|, g.closing)
  {
  }

  lemma Regroup(a: seq<Fwd>, b: seq<Fwd>, c: seq<Fwd>)
    ensures (a + b) + c == a + (b + c)
  {
  }

  lemma EndRest(f: Flow, s: Step, window: nat)
    requires Inv(f, window) && Enabled(f, s) && (s.Finish? || s.Fail? || s.Halt?)
    ensures var g := Next(f, s, window); SenderInv(g) && DeliveryInv(g) && CreditInv(g, window)
  {
  }

  lemma StepRecvBack(f: Flow, window: nat)
    requires Inv(f, window) && Enabled(f, RecvBack)
    ensures Inv(Next(f, RecvBack, window), window)
  {
    var g := Next(f, RecvBack, window);
    if Declared(f) {
      assert Declared(g);
    } else if Live(f) {
      assert Live(g);
    } else {
      assert Over(g);
    }
  }

  lemma PollLink(f: Flow, window: nat)
    requires LinkInv(f) && Enabled(f, Poll)
    ensures LinkInv(Next(f, Poll, window))
  {
    var g := Next(f, Poll, window);
    assert if f.entry.Some? then Live(g) else Over(g);
  }

  lemma PollCredit(f: Flow, window: nat)
    requires CreditInv(f, window) && SenderInv(f) && Enabled(f, Poll)
    ensures CreditInv(Next(f, Poll, window), window) && SenderInv(Next(f, Poll, window))
  {
    if f.rx.chan[0].Chunk? { CreditAppend(f.back, Grant(|f.rx.chan[0].item|)); }
  }

  lemma PollDelivery(f: Flow, window: nat)
    requires DeliveryInv(f) && Enabled(f, Poll)
    ensures DeliveryInv(Next(f, Poll, window))
  {
    if f.rx.chan[0].Chunk? {
      PollChunk(f, window);
    } else {
      assert |f.rx.chan| == 1;
    }
  }

  lemma PollChunk(f: Flow, window: nat)
    requires DeliveryInv(f) && Enabled(f, Poll) && f.rx.chan[0].Chunk?
    ensures DeliveryInv(Next(f, Poll, window))
  {
    var g, q := Next(f, Poll, window), f.rx.chan;
    MovesOne(f.rx.got, q);
    assert g.rx.chan == q[1..] && g.rx.got == f.rx.got + [q[0].item];
    assert Closed(q[1..]) <==> Closed(q) by { assert |q| > 1 ==> q[1..][|q| - 2] == q[|q| - 1]; }
    assert Orderly(q[1..]) by {
      forall i | 0 <= i < |q[1..]| - 1 ensures q[1..][i].Chunk? { assert q[1..][i] == q[i + 1]; }
    }
  }

  lemma MovesOne(got: seq<Item>, q: seq<Event>)
    requires q != [] && q[0].Chunk?
    ensures got + Waiting(q) == (got + [q[0].item]) + Waiting(q[1..])
  {
  }

  lemma StepPoll(f: Flow, window: nat)
    requires Inv(f, window) && Enabled(f, Poll)
    ensures Inv(Next(f, Poll, window), window)
  {
    PollLink(f, window);
    PollCredit(f, window);
    PollDelivery(f, window);
  }

  lemma StepDrop(f: Flow, window: nat)
    requires Inv(f, window) && Enabled(f, Drop)
    ensures Inv(Next(f, Drop, window), window)
  {
    if f.entry.Some? { PendingPlain(f.sent, f.entry.value, f.closing); }
    assert Over(Next(f, Drop, window));
    CreditAppend(f.back, Stop);
  }

  lemma RecvData(f: Flow, window: nat)
    requires Inv(f, window) && Live(f) && f.entry.value < |f.sent|
    ensures f.fwd != [] && Inv(Next(f, RecvFwd, window), window)
  {
    var g := Next(f, RecvFwd, window);
    var x := f.sent[f.entry.value];
    assert f.fwd[0] == Data(f.entry.value, x);
    ChanAppend(f.rx.chan, Chunk(x));
    assert f.sent[..f.entry.value + 1] == f.sent[..f.entry.value] + [x];
    assert Live(g);
  }

  lemma RecvLast(f: Flow, window: nat)
    requires Inv(f, window) && Live(f) && f.entry.value == |f.sent| && f.fwd != []
    ensures Inv(Next(f, RecvFwd, window), window)
  {
    var g := Next(f, RecvFwd, window);
    ChanAppend(f.rx.chan, if f.fwd[0].Fin? then End else Broken);
    assert f.sent[..|f.sent|] == f.sent;
    assert Over(g);
  }

  /** A consumer that was told the end was told it by a sender that is gone. */
  lemma ToldIsGone(f: Flow, window: nat)
    requires Inv(f, window) && f.rx.Rx? && f.entry.None?
    ensures f.snd.Gone? && !f.listed
  {
    if f.rx.finished.Still? {
      var last := f.rx.chan[|f.rx.chan| - 1];
      assert last.End? || last.Broken?;
    }
  }

  lemma RecvLate(f: Flow, window: nat)
    requires Inv(f, window) && Over(f) && f.fwd != []
    ensures Inv(Next(f, RecvFwd, window), window)
  {
    if f.rx.Rx? { ToldIsGone(f, window); }
    assert Over(Next(f, RecvFwd, window));
  }

  lemma RecvFirst(f: Flow, window: nat)
    requires Inv(f, window) && (Announced(f) || Rejected(f))
    ensures Inv(Next(f, RecvFwd, window), window)
  {
    var g := Next(f, RecvFwd, window);
    if Announced(f) {
      assert f.fwd[1..] == Pending(f.sent, 0, f.closing);
      assert Live(g);
    } else {
      assert Over(g);
    }
  }

  lemma StepRecvFwd(f: Flow, window: nat)
    requires Inv(f, window) && Enabled(f, RecvFwd)
    ensures Inv(Next(f, RecvFwd, window), window)
  {
    if Announced(f) || Rejected(f) {
      RecvFirst(f, window);
    } else if Live(f) {
      if f.entry.value < |f.sent| { RecvData(f, window); } else { RecvLast(f, window); }
    } else {
      RecvLate(f, window);
    }
  }

  lemma StepInv(f: Flow, s: Step, window: nat)
    requires Inv(f, window) && Enabled(f, s)
    ensures Inv(Next(f, s, window), window)
  {
    match s
    case Declare => StepOpen(f, s, window);
    case Attach(_) => StepOpen(f, s, window);
    case Begin => StepOpen(f, s, window);
    case Answer => StepOpen(f, s, window);
    case Reject => StepOpen(f, s, window);
    case Produce(_) => StepFeed(f, s, window);
    case Close => StepFeed(f, s, window);
    case Send => StepSend(f, window);
    case Finish => StepEnd(f, s, window);
    case Fail => StepEnd(f, s, window);
    case Halt => StepEnd(f, s, window);
    case RecvFwd => StepRecvFwd(f, window);
    case RecvBack => StepRecvBack(f, window);
    case Poll => StepPoll(f, window);
    case Drop => StepDrop(f, window);
  }

  // ---------------------------------------------------------------- what it gives

  /**
   Credit conservation: on every open stream, the gate, the chunks on the link, the chunks queued at
   the receiver and the credit on its way back add up to the initial window; so what the consumer
   has not taken yet never exceeds it.
   */
  lemma CreditIsConserved(f: Flow, window: nat)
    requires Inv(f, window) && f.listed && !f.rx.Dropped?
    ensures f.snd.avail + FwdBytes(f.fwd) + ChanBytes(Queue(f)) + Credit(f.back) == window
    ensures FwdBytes(f.fwd) + ChanBytes(Queue(f)) <= window
  {
  }

  lemma {:induction false} SomeData(q: seq<Fwd>)
    requires FwdBytes(q) > 0
    ensures exists i :: 0 <= i < |q| && q[i].Data?
  {
    if !q[0].Data? {
      SomeData(q[1..]);
      var i :| 0 <= i < |q[1..]| && q[1..][i].Data?;
      assert q[i + 1].Data?;
    }
  }

  lemma {:induction false} SomeCredit(q: seq<Back>)
    requires Credit(q) > 0
    ensures exists i :: 0 <= i < |q| && q[i].Grant?
  {
    if !q[0].Grant? {
      SomeCredit(q[1..]);
      var i :| 0 <= i < |q[1..]| && q[1..][i].Grant?;
      assert q[i + 1].Grant?;
    }
  }

  lemma {:induction false} SomeChunk(q: seq<Event>)
    requires ChanBytes(q) > 0
    ensures exists i :: 0 <= i < |q| && q[i].Chunk?
  {
    if !q[0].Chunk? {
      SomeChunk(q[1..]);
      var i :| 0 <= i < |q[1..]| && q[1..][i].Chunk?;
      assert q[i + 1].Chunk?;
    }
  }

  /**
   No deadlock: a sender that waits for credit, with an item that fits the window and a receiver
   that has not hung up, waits for something still to be delivered, consumed or credited.
   */
  lemma BlockedMeansMoreToCome(f: Flow, window: nat)
    requires Inv(f, window) && f.listed && !f.rx.Dropped?
    requires f.snd.todo != [] && |f.snd.todo[0]| <= window && !Enabled(f, Send)
    ensures (exists i :: 0 <= i < |f.fwd| && f.fwd[i].Data?)
         || (exists i :: 0 <= i < |Queue(f)| && Queue(f)[i].Chunk?)
         || (exists i :: 0 <= i < |f.back| && f.back[i].Grant?)
  {
    CreditIsConserved(f, window);
    if FwdBytes(f.fwd) > 0 { SomeData(f.fwd); }
    else if ChanBytes(Queue(f)) > 0 { SomeChunk(Queue(f)); }
    else { SomeCredit(f.back); }
  }

  /**
   An item larger than the window is never sent, whatever happens: the exact bound the chunk size
   has to keep.
   */
  lemma OversizedNeverSends(f: Flow, window: nat)
    requires Inv(f, window) && f.snd.Sending? && f.snd.todo != [] && |f.snd.todo[0]| > window
    ensures !Enabled(f, Send)
  {
  }

  // ---------------------------------------------------------------- an attachment gets there

  /** The steps of an attachment nobody cancels. */
  predicate Forward(s: Step)
  {
    s.Send? || s.Finish? || s.RecvFwd? || s.RecvBack? || s.Poll?
  }

  function Todo(f: Flow): nat
  {
    if f.snd.Sending? then 1 + |f.snd.todo| else 0
  }

  /** What is left to do: each chunk has four hands to pass through, the rest follows. */
  function Work(f: Flow): nat
  {
    4 * Todo(f) + 3 * |f.fwd| + 2 * |Queue(f)| + |f.back|
  }

  ghost predicate Fits(f: Flow, window: nat)
  {
    f.snd.Sending? ==> forall i :: 0 <= i < |f.snd.todo| ==> |f.snd.todo[i]| <= window
  }

  /** With nothing on the link or in the queue, an attachment whose sender is done was heard to the end. */
  lemma LastHeard(f: Flow, window: nat)
    requires Inv(f, window) && f.plan.Some? && !f.rx.Dropped? && f.snd.Gone? && f.fwd == [] && Queue(f) == []
    ensures f.rx.Rx? && f.rx.finished.Good?
  {
    assert f.closing.Ended?;
  }

  /** Somebody can always move until the consumer has seen the end. */
  lemma AttachmentNeverStuck(f: Flow, window: nat)
    requires Inv(f, window) && f.plan.Some? && Fits(f, window)
    requires !f.rx.Dropped? && !(f.rx.Rx? && f.rx.finished.Good?)
    ensures exists s :: Forward(s) && Enabled(f, s)
  {
    if f.fwd != [] {
      assert Forward(RecvFwd) && Enabled(f, RecvFwd);
    } else if f.back != [] {
      assert Forward(RecvBack) && Enabled(f, RecvBack);
    } else if Queue(f) != [] {
      assert Forward(Poll) && Enabled(f, Poll);
    } else if f.snd.Sending? {
      if f.snd.todo == [] {
        assert Forward(Finish) && Enabled(f, Finish);
      } else {
        if !Enabled(f, Send) { BlockedMeansMoreToCome(f, window); }
        assert Forward(Send) && Enabled(f, Send);
      }
    } else {
      LastHeard(f, window);
      assert false;
    }
  }

  lemma RecvFwdWorks(f: Flow, window: nat)
    requires Inv(f, window) && f.plan.Some? && !f.rx.Dropped? && f.fwd != []
    ensures var g := Next(f, RecvFwd, window);
      Work(g) < Work(f) && g.plan == f.plan && g.snd == f.snd && !g.rx.Dropped?
  {
    if Live(f) {
      if f.entry.value < |f.sent| { assert f.fwd[0] == Data(f.entry.value, f.sent[f.entry.value]); }
    } else if Over(f) {
      assert !f.fwd[0].Announce? && !f.fwd[0].Refuse?;
    }
  }

  /** And every move leaves less to do. */
  lemma ForwardWorks(f: Flow, s: Step, window: nat)
    requires Inv(f, window) && f.plan.Some? && !f.rx.Dropped? && Fits(f, window)
    requires Enabled(f, s) && Forward(s)
    ensures var g := Next(f, s, window);
      Work(g) < Work(f) && g.plan == f.plan && !g.rx.Dropped? && Fits(g, window)
  {
    if s.RecvFwd? { RecvFwdWorks(f, window); }
  }

  /** A stream that was declared and answered without one. */
  predicate Mute(f: Flow)
  {
    f.snd.Gone? && f.closing.Silent? && f.sent == []
  }

  lemma MuteForGood(f: Flow, s: Step, window: nat)
    requires Inv(f, window) && Mute(f) && Enabled(f, s)
    ensures Mute(Next(f, s, window))
  {
  }

  /** Whoever holds its other end hears nothing, not even an ending. */
  lemma MuteIsUnheard(f: Flow, window: nat)
    requires Inv(f, window) && Mute(f) && f.rx.Rx?
    ensures f.rx.got == [] && f.rx.finished.Still?
  {
  }

  // ---------------------------------------------------------------- a link that loses, repeats and reorders

  /** A receiver just opened, before anything has arrived. */
  const Listening := Unborn.(entry := Some(0), rx := Rx(true, [], [], Still))

  /** The receiving end after any arrivals at all. */
  function Heard(arrivals: seq<Fwd>): (f: Flow)
  {
    if arrivals == [] then Listening
    else Arrive(Heard(arrivals[..|arrivals| - 1]), arrivals[|arrivals| - 1])
  }

  /** Chunk frames the sender really made, in any number and any order, and terminators anywhere. */
  ghost predicate Genuine(arrivals: seq<Fwd>, items: seq<Item>)
  {
    forall i :: 0 <= i < |arrivals| ==>
      match arrivals[i]
      case Data(k, x) => k < |items| && x == items[k]
      case Fin => true
      case Fault => true
      case _ => false
  }

  /** What any arrivals leave: a prefix of the items queued, and after it at most one ending. */
  ghost predicate HeardPrefix(f: Flow, items: seq<Item>)
  {
    && f.rx.Rx? && Orderly(f.rx.chan) && Waiting(f.rx.chan) <= items
    && (f.entry.None? <==> Closed(f.rx.chan))
    && (f.entry.Some? ==> f.entry.value <= |items| && Waiting(f.rx.chan) == items[..f.entry.value])
  }

  lemma HearOne(f: Flow, a: Fwd, items: seq<Item>)
    requires HeardPrefix(f, items) && Genuine([a], items)
    ensures HeardPrefix(Arrive(f, a), items)
  {
    assert [a][0] == a;
    if f.entry.Some? {
      if a.Data? && a.no == f.entry.value {
        ChanAppend(f.rx.chan, Chunk(a.item));
        assert items[..f.entry.value + 1] == items[..f.entry.value] + [a.item];
      } else {
        ChanAppend(f.rx.chan, if a.Fin? then End else Broken);
      }
    }
  }

  /**
   Delivery is always a prefix: whatever subset, duplication or order of genuine frames arrives, the
   consumer is handed a prefix of the items in order, then at most one terminal event, last.
   */
  lemma {:induction false} AlwaysAPrefix(arrivals: seq<Fwd>, items: seq<Item>)
    requires Genuine(arrivals, items)
    ensures HeardPrefix(Heard(arrivals), items)
    decreases |arrivals|
  {
    if arrivals != [] {
      var before, a := arrivals[..|arrivals| - 1], arrivals[|arrivals| - 1];
      AlwaysAPrefix(before, items);
      HearOne(Heard(before), a, items);
    }
  }
}
