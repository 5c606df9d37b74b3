/**
 Endpoints as the source has them: tables that calls change in place, and a queue to the writer.  Two of
 them joined by their queues take exactly the acts of the two-ended model, so everything proved of its
 runs holds of the objects.
 */
module Endpoint {
  import opened Base
  import opened Attach
  import opened Wire
  import Session
  import Delivery
  import Flow

  /** The ids `fetch_add(2)` hands out, one for each of `n` blobs. */
  function Allotted(next: nat, n: nat): (ids: seq<StreamId>)
    requires next + 2 * n < 0x1_0000_0000
    ensures Fresh(ids, next) && |ids| == n
  {
    seq(n, i requires 0 <= i < n => next + 2 * i)
  }

  /** And the counter then stands two further for each. */
  lemma CounterMoves(next: nat, n: nat)
    requires next + 2 * n < 0x1_0000_0000
    ensures Last(Allotted(next, n), next) == next + 2 * n
    ensures forall i :: 0 <= i < n ==> Allotted(next, n)[i] == next + 2 * i
  {
  }

  class Shared {
    const env: Env
    var next: nat
    var credits: set<StreamId>
    var outs: map<StreamId, Outgoing>
    var incoming: map<StreamId, nat>
    var ins: map<StreamId, Flow.Receiver>
    var attachments: map<StreamId, AttachmentRef>
    var out: seq<Frame>

    /** The tables, as the two-ended model has them. */
    function Tables(): End
      reads this
    {
      End(next, credits, outs, incoming, ins, attachments)
    }

    constructor (env: Env, dialer: bool)
      ensures this.env == env && out == []
      ensures Tables() == End(if dialer then 1 else 2, {}, map[], map[], map[], map[])
    {
      this.env, next, out := env, if dialer then 1 else 2, [];
      credits, outs, incoming, ins, attachments := {}, map[], map[], map[], map[];
    }

    /** Hands an event to a stream's queue, if somebody still holds its other end. */
    method Push(s: StreamId, event: Flow.Event)
      modifies `ins
      ensures Tables() == Tell(old(Tables()), s, event)
    {
      if s in ins && ins[s].Rx? {
        ins := ins[s := ins[s].(chan := ins[s].chan + [event])];
      }
    }

    method RegisterAttachments(result: Value)
      modifies `incoming, `ins, `attachments
      ensures Tables() == RegisterAll(old(Tables()), Refs(result))
    {
      var refs := Refs(result);
      for i := 0 to |refs|
        invariant Tables() == RegisterAll(old(Tables()), refs[..i])
      {
        var s := refs[i].stream;
        assert refs[..i + 1][..i] == refs[..i];
        if s !in incoming {
          incoming := incoming[s := 0];
          ins := ins[s := Flow.Rx(true, [], [], Flow.Still)];
          attachments := attachments[s := refs[i]];
        }
      }
      assert refs[..|refs|] == refs;
    }

    method StreamData(s: StreamId, no: nat, item: Item)
      modifies `incoming, `ins, `out
      ensures (Tables(), out) == (Handle(old(Tables()), SData(s, no, item)).0, old(out) + Handle(old(Tables()), SData(s, no, item)).1)
    {
      assert out + [] == out;
      if s in incoming {
        if no != incoming[s] {
          incoming := incoming - {s};
          Push(s, Flow.Broken);
          out := out + [SCancel(s)];
          return;
        }
        incoming := incoming[s := no + 1];
        Push(s, Flow.Chunk(item));
      }
    }

    /** The end or failure of a stream: the entry goes, and its consumer is told. */
    method Conclude(s: StreamId, event: Flow.Event)
      modifies `incoming, `ins
      ensures Tables() == if s !in old(incoming) then old(Tables())
                          else Tell(old(Tables()).(incoming := old(incoming) - {s}), s, event)
    {
      if s in incoming {
        incoming := incoming - {s};
        Push(s, event);
      }
    }

    method HandleFrame(frame: Frame)
      modifies this
      ensures Tables() == Handle(old(Tables()), frame).0
      ensures out == old(out) + Handle(old(Tables()), frame).1
    {
      match frame
      case Req(s) =>
        if s !in outs { outs := outs[s := Outgoing(None, Flow.Asked, [], Flow.Running)]; }
      case Res(answers, result) =>
        RegisterAttachments(result);
        if answers.Some? && answers.value in ins && ins[answers.value].Rx? {
          ins := ins[answers.value := ins[answers.value].(ready := true)];
        }
      case Err(s) =>
        if s in ins && ins[s].Rx? && !ins[s].ready {
          incoming := incoming - {s};
          ins := ins[s := Flow.Dropped];
        }
      case SData(s, no, item) => StreamData(s, no, item);
      case SEnd(s) => Conclude(s, Flow.End);
      case SErr(s) => Conclude(s, Flow.Broken);
      case SCredit(s, n) => AddCredit(s, n);
      case SCancel(s) => CancelGate(s);
    }

    /** `CreditGate::add`, through the table. */
    method AddCredit(s: StreamId, n: nat)
      modifies `outs
      ensures Tables() == Handle(old(Tables()), SCredit(s, n)).0
    {
      if s in credits && s in outs && outs[s].snd.Sending? {
        outs := outs[s := outs[s].(snd := outs[s].snd.(avail := outs[s].snd.avail + n))];
      }
    }

    /** `CreditGate::cancel`, and the gate leaves the table. */
    method CancelGate(s: StreamId)
      modifies `outs, `credits
      ensures Tables() == Handle(old(Tables()), SCancel(s)).0
    {
      if s in credits && s in outs && outs[s].snd.Sending? {
        credits := credits - {s};
        outs := outs[s := outs[s].(snd := outs[s].snd.(canceled := true))];
      }
    }

    /** `call_streaming_raw` as far as sending the request. */
    method CallStreaming() returns (s: StreamId)
      requires next < 0x1_0000_0000
      modifies this
      ensures s == old(next) && Tables() == Calling(old(Tables())) && out == old(out) + [Req(s)]
    {
      s := next;
      next := next + 2;
      incoming := incoming[s := 0];
      ins := ins[s := Flow.Unready];
      out := out + [Req(s)];
    }

    /** `reply_res`. */
    method ReplyRes(answers: Option<StreamId>, streams: bool, original: Value)
      requires next + 2 * |Blobs(original, env.threshold)| < 0x1_0000_0000
      modifies this
      ensures var ids := Allotted(old(next), |Blobs(original, env.threshold)|);
        && Tables() == Responded(old(Tables()), env, answers, streams, original, ids) && next == old(next) + 2 * |ids|
        && out == old(out) + [Res(answers, Detach(original, CtxOf(env, ids), 0).0)]
    {
      var ids := Allotted(next, |Blobs(original, env.threshold)|);
      var detached := Detach(original, CtxOf(env, ids), 0);
      var tree, ds := detached.0, detached.1;
      for i := 0 to |ds|
        invariant Tables() == OpenAll(old(Tables()), env, ds[..i]) && out == old(out) && next == old(next)
      {
        assert ds[..i + 1][..i] == ds[..i];
        credits := credits + {ds[i].stream};
        outs := outs[ds[i].stream := Opened(env, ds[i].bytes)];
      }
      assert ds[..|ds|] == ds;
      CounterMoves(next, |ids|);
      next := Last(ids, next);
      if answers.Some? {
        if streams { credits := credits + {answers.value}; }
        outs := outs[answers.value := if streams then Begins(env) else Silent];
      }
      out := out + [Res(answers, tree)];
    }

    /** `RawIncomingStream::poll_next`, with something to hear. */
    method TakeEvent(s: StreamId) returns (item: Option<Item>)
      requires Reads(Tables(), s) && ins[s].chan != []
      modifies `ins, `out
      ensures Tables() == PollNext(old(Tables()), s).0
      ensures out == old(out) + PollNext(old(Tables()), s).1
      ensures item == if old(ins[s].chan[0]).Chunk? then Some(old(ins[s].chan[0]).item) else None
    {
      var event, rest := ins[s].chan[0], ins[s].(chan := ins[s].chan[1..]);
      item := None;
      assert out + [] == out;
      match event
      case Chunk(x) =>
        out := out + [SCredit(s, |x|)];
        ins := ins[s := rest.(got := rest.got + [x])];
        item := Some(x);
      case End => ins := ins[s := rest.(finished := Flow.Good)];
      case Broken => ins := ins[s := rest.(finished := Flow.Bad)];
    }

    /** A consumer that hangs up before the end: the entry goes, and the sender is told to stop. */
    method DropStream(s: StreamId)
      requires Reads(Tables(), s)
      modifies `ins, `incoming, `attachments, `out
      ensures Tables() == ConsumerMove(old(Tables()), s, false).0
      ensures out == old(out) + ConsumerMove(old(Tables()), s, false).1
    {
      incoming := incoming - {s};
      ins := ins[s := Flow.Dropped];
      attachments := attachments - {s};
      out := out + [SCancel(s)];
    }

    /** One turn of a sender's loop: take the credit and hand the chunk over, or find out why not. */
    method SendNext(s: StreamId) returns (sent: bool)
      requires Transmits(Tables(), s) && outs[s].snd.todo != []
      modifies `outs, `out
      ensures sent <==> !old(outs[s].snd.canceled) && |old(outs[s].snd.todo[0])| <= old(outs[s].snd.avail)
      ensures !sent ==> Tables() == old(Tables()) && out == old(out)
      ensures sent ==> forall a: Act | a.Send? && a.s == s ::
                var (o, listed, frames) := SenderMove(s, old(outs[s]), s in old(credits), a);
                Tables() == Moved(old(Tables()), s, o, listed) && out == old(out) + frames
    {
      var o := outs[s];
      sent := !o.snd.canceled && |o.snd.todo[0]| <= o.snd.avail;
      if sent {
        var x := o.snd.todo[0];
        outs := outs[s := o.(snd := o.snd.(avail := o.snd.avail - |x|, todo := o.snd.todo[1..]), sent := o.sent + [x])];
        out := out + [SData(s, |o.sent|, x)];
        assert s in credits ==> credits + {s} == credits;
        assert s !in credits ==> credits - {s} == credits;
      }
    }

    /** `attachment`: the reference, and from now on the stream, are the caller's. */
    method TakeAttachment(s: StreamId) returns (r: Option<AttachmentRef>)
      modifies `attachments
      ensures Tables() == Claiming(old(Tables()), s)
      ensures r == if s in old(attachments) then Some(old(attachments)[s]) else None
    {
      r := if s in attachments then Some(attachments[s]) else None;
      attachments := attachments - {s};
    }

    /** A tool's stream has another item, or no more of them. */
    method Feed(s: StreamId, item: Option<Item>)
      requires Transmits(Tables(), s)
      modifies `outs
      ensures forall a: Act | (if item.Some? then a.Produce? && a.item == item.value else a.Close?) && a.s == s ::
                var (o, listed, frames) := SenderMove(s, old(outs[s]), s in old(credits), a);
                Tables() == Moved(old(Tables()), s, o, listed) && frames == []
    {
      var o := outs[s];
      outs := outs[s := o.(snd := if item.Some? then o.snd.(todo := o.snd.todo + [item.value]) else o.snd.(open := false))];
      assert s in credits ==> credits + {s} == credits;
      assert s !in credits ==> credits - {s} == credits;
    }

    /** A sender is over: the gate leaves the table, and the peer is told how, if it is told at all. */
    method Over(s: StreamId, closing: Flow.Closing)
      requires s in outs && !closing.Running?
      modifies `outs, `credits, `out
      ensures forall a: Act | (match closing case Ended => a.Finish? case Faulted => a.Fail? case _ => a.Halt?) && a.s == s ::
                var (o, listed, frames) := SenderMove(s, old(outs[s]), s in old(credits), a);
                Tables() == Moved(old(Tables()), s, o, listed) && out == old(out) + frames
    {
      outs := outs[s := outs[s].(snd := Flow.Gone, closing := closing)];
      credits := credits - {s};
      if closing.Ended? {
        out := out + [SEnd(s)];
      } else if closing.Faulted? {
        out := out + [SErr(s)];
      }
      assert old(out) + [] == old(out);
    }

    /** `reply_err`, for a call that declared a stream. */
    method ReplyErr(s: StreamId)
      requires s in outs
      modifies `outs, `out
      ensures forall a: Act | a.Refuse? && a.s == s ::
                var (o, listed, frames) := SenderMove(s, old(outs[s]), s in old(credits), a);
                Tables() == Moved(old(Tables()), s, o, listed) && out == old(out) + frames
    {
      outs := outs[s := outs[s].(snd := Flow.Gone, closing := Flow.Silent)];
      out := out + [Err(s)];
      assert s in credits ==> credits + {s} == credits;
      assert s !in credits ==> credits - {s} == credits;
    }
  }

  /**
   Two endpoints after a handshake, each one's queue read in order by the other.  The ghost fields keep
   the run they have taken together; `Valid` says that it is a run of the model and has led here.
   */
  class Pair {
    const env: Env
    const dialer: Shared
    const acceptor: Shared
    ghost var born: map<StreamId, Side>
    ghost var replies: seq<Reply>
    ghost var trace: seq<Wire>
    ghost var acts: seq<Act>

    ghost function Abs(): Wire
      reads this, dialer, acceptor
    {
      Wire(dialer.Tables(), acceptor.Tables(), dialer.out, acceptor.out, born, replies)
    }

    ghost predicate Joined()
      reads this, dialer, acceptor
    {
      dialer != acceptor && dialer.env == env && acceptor.env == env
    }

    ghost predicate Valid()
      reads this, dialer, acceptor
    {
      Joined() && Session.Run(trace, acts, env) && trace[|acts|] == Abs()
    }

    function On(e: Side): Shared
    {
      if e.Dialer? then dialer else acceptor
    }

    constructor (env: Env)
      ensures Valid() && this.env == env && acts == [] && fresh(dialer) && fresh(acceptor)
    {
      this.env := env;
      dialer := new Shared(env, true);
      acceptor := new Shared(env, false);
      born, replies, acts := map[], [], [];
      trace := [Session.Start];
    }

    /** Both ends have taken the act. */
    ghost method Commit(a: Act)
      requires Joined() && Session.Run(trace, acts, env) && Enabled(trace[|acts|], a, env)
      requires Abs() == Next(trace[|acts|], a, env)
      modifies `trace, `acts
      ensures Valid() && acts == old(acts) + [a]
    {
      Delivery.RunMore(trace, acts, a, env);
      trace, acts := trace + [Abs()], acts + [a];
    }

    method CallStreaming(e: Side) returns (s: StreamId)
      requires Valid() && On(e).next < 0x1_0000_0000
      modifies this, dialer, acceptor
      ensures Valid() && acts == old(acts) + [Call(e)] && s == old(On(e).next)
    {
      s := On(e).CallStreaming();
      born := born[s := Peer(e)];
      Commit(Call(e));
    }

    method Respond(e: Side, answers: Option<StreamId>, streams: bool, original: Value)
      requires Valid() && Refs(original) == [] && On(e).next + 2 * |Blobs(original, env.threshold)| < 0x1_0000_0000
      requires answers.Some? ==> answers.value in On(e).outs && On(e).outs[answers.value].snd.Asked?
      modifies this, dialer, acceptor
      ensures Valid()
      ensures acts == old(acts) + [Act.Respond(e, answers, streams, original, Allotted(old(On(e).next), |Blobs(original, env.threshold)|))]
    {
      ghost var ids := Allotted(On(e).next, |Blobs(original, env.threshold)|);
      assert Enabled(trace[|acts|], Act.Respond(e, answers, streams, original, ids), env);
      On(e).ReplyRes(answers, streams, original);
      born := born + map s | s in ids :: e;
      replies := replies + [Reply(e, original, ids)];
      Commit(Act.Respond(e, answers, streams, original, ids));
    }

    /** The next frame on its way to `e` arrives. */
    method Deliver(e: Side)
      requires Valid() && On(Peer(e)).out != []
      modifies this, dialer, acceptor
      ensures Valid() && acts == old(acts) + [Act.Deliver(e)]
    {
      var frame := On(Peer(e)).out[0];
      On(Peer(e)).out := On(Peer(e)).out[1..];
      On(e).HandleFrame(frame);
      Commit(Act.Deliver(e));
    }

    /** Says what the claimant was handed. */
    method Claim(e: Side, s: StreamId) returns (r: AttachmentRef)
      requires Valid() && s in On(e).attachments
      modifies this, dialer, acceptor
      ensures Valid() && acts == old(acts) + [Act.Claim(e, s)] && r == old(On(e).attachments[s])
    {
      var taken := On(e).TakeAttachment(s);
      r := taken.value;
      Commit(Act.Claim(e, s));
    }

    method Poll(e: Side, s: StreamId) returns (item: Option<Item>)
      requires Valid() && Reads(On(e).Tables(), s) && On(e).ins[s].chan != [] && s !in On(e).attachments
      modifies this, dialer, acceptor
      ensures Valid() && acts == old(acts) + [Act.Poll(e, s)]
      ensures item == if old(On(e).ins[s].chan[0]).Chunk? then Some(old(On(e).ins[s].chan[0]).item) else None
    {
      item := On(e).TakeEvent(s);
      Commit(Act.Poll(e, s));
    }

    method Drop(e: Side, s: StreamId)
      requires Valid() && Reads(On(e).Tables(), s)
      modifies this, dialer, acceptor
      ensures Valid() && acts == old(acts) + [Act.Drop(e, s)]
    {
      On(e).DropStream(s);
      Commit(Act.Drop(e, s));
    }

    /** One turn of a sender's loop: a chunk goes out, or nothing happens. */
    method Send(e: Side, s: StreamId) returns (sent: bool)
      requires Valid() && Transmits(On(e).Tables(), s) && On(e).outs[s].snd.todo != []
      modifies this, dialer, acceptor
      ensures Valid() && acts == old(acts) + (if sent then [Act.Send(e, s)] else [])
      ensures sent <==> !old(On(e).outs[s].snd.canceled) && |old(On(e).outs[s].snd.todo[0])| <= old(On(e).outs[s].snd.avail)
    {
      sent := On(e).SendNext(s);
      if sent { Commit(Act.Send(e, s)); }
    }

    /** A tool's stream yields an item, or closes. */
    method Feed(e: Side, s: StreamId, item: Option<Item>)
      requires Valid() && Transmits(On(e).Tables(), s) && On(e).outs[s].snd.open
      modifies this, dialer, acceptor
      ensures Valid() && acts == old(acts) + [if item.Some? then Produce(e, s, item.value) else Close(e, s)]
    {
      On(e).Feed(s, item);
      Commit(if item.Some? then Produce(e, s, item.value) else Close(e, s));
    }

    /** A sender ends its stream: it has sent everything, its tool failed, or its gate was cancelled. */
    method Over(e: Side, s: StreamId, closing: Flow.Closing)
      requires Valid() && Transmits(On(e).Tables(), s)
      requires match closing
               case Running => false
               case Ended => On(e).outs[s].snd.todo == [] && !On(e).outs[s].snd.open
               case Faulted => s in On(e).credits && On(e).outs[s].plan.None?
               case Silent => s !in On(e).credits
      modifies this, dialer, acceptor
      ensures Valid()
      ensures acts == old(acts) + [match closing case Ended => Finish(e, s) case Faulted => Fail(e, s) case _ => Halt(e, s)]
    {
      On(e).Over(s, closing);
      Commit(match closing case Ended => Finish(e, s) case Faulted => Fail(e, s) case _ => Halt(e, s));
    }

    method Refuse(e: Side, s: StreamId)
      requires Valid() && s in On(e).outs && On(e).outs[s].snd.Asked?
      modifies this, dialer, acceptor
      ensures Valid() && acts == old(acts) + [Act.Refuse(e, s)]
    {
      On(e).ReplyErr(s);
      Commit(Act.Refuse(e, s));
    }

    /** So what a consumer of either object has is a prefix of what the other object sent, and an end means all of it. */
    lemma WhatIsHeard(e: Side, s: StreamId)
      requires Valid() && s in On(e).ins && On(e).ins[s].Rx?
      ensures var rx, outs := On(e).ins[s], On(Peer(e)).outs;
        var sent := if s in outs then outs[s].sent else [];
        && rx.got + Flow.Waiting(rx.chan) <= sent
        && (rx.finished.Good? ==> s in outs && outs[s].closing.Ended? && rx.got == sent)
        && (rx.finished.Bad? ==> s in outs && outs[s].closing.Faulted?)
        && (!rx.finished.Still? ==> rx.chan == [] && s !in On(e).incoming)
    {
      Session.ConsumersSeeAPrefix(trace, acts, env, |acts|, e, s);
    }

    /** And what was sent and not yet taken never exceeds the window, however the calls were mixed. */
    lemma CreditsAddUp(e: Side, s: StreamId)
      requires Valid() && s in On(e).credits && !Session.HungUp(On(Peer(e)).Tables(), s)
      ensures var onLink := Flow.FwdBytes(Fwds(On(e).out, s));
        && Transmits(On(e).Tables(), s)
        && On(e).outs[s].snd.avail + onLink + Session.Unread(On(Peer(e)).Tables(), s) + Flow.Credit(Backs(On(Peer(e)).out, s)) == env.window
        && onLink + Session.Unread(On(Peer(e)).Tables(), s) <= env.window
    {
      Session.CreditIsConserved(trace, acts, env, |acts|, e, s);
    }
  }
}
