/**
 The handshake, from both ends: what the dialer takes from the acknowledgement and the acceptor from
 its own decision.
 */
module Handshake {
  import opened Base
  import Attach
  import Datums
  import Wire
  import Session

  type u32 = n: int | 0 <= n < 0x1_0000_0000

  const MAJOR: nat := 1

  datatype Serialization = Msgpack | Json

  datatype Limits = Limits(maxControlFrame: u32, maxChunk: u32, maxInflightReqs: u32, initialStreamCredit: u32)

  datatype Heartbeat = Heartbeat(interval: u32, timeout: u32)

  datatype Hello = Hello(major: nat, serialization: seq<Serialization>, features: seq<string>)

  datatype HelloAck = HelloAck(major: nat, serialization: Serialization, heartbeat: Heartbeat, limits: Limits, features: seq<string>)

  datatype Options = Options(limits: Limits, heartbeat: Heartbeat, features: seq<string>)

  datatype Answer = Ack(ack: HelloAck) | Refusal

  /** The features this side offered, and those the other did. */
  datatype Features = Features(local: seq<string>, peer: seq<string>)
  {
    predicate Agreed(feature: string)
    {
      feature in local && feature in peer
    }
  }

  /** What the handshake leaves a connection with. */
  datatype Terms = Terms(serialization: Serialization, limits: Limits, heartbeat: Heartbeat, features: Features, nextStream: nat)

  function Max(a: u32, b: u32): u32
  {
    if a < b then b else a
  }

  function SaturatingAdd(a: u32, b: u32): u32
  {
    if a + b < 0x1_0000_0000 then a + b else 0xffff_ffff
  }

  /** The timeout is at least one interval and a second. */
  function Effective(h: Heartbeat): Heartbeat
  {
    Heartbeat(h.interval, Max(h.timeout, SaturatingAdd(h.interval, 1)))
  }

  /** The acceptor: what it answers, and its own terms when it goes on. */
  function Accept(hello: Hello, decision: Option<Options>): (r: (Answer, Option<Terms>))
  {
    if hello.major != MAJOR then (Refusal, None) else
    match decision
    case None => (Refusal, None)
    case Some(options) =>
      var serialization := if hello.serialization == [] then Msgpack else hello.serialization[0];
      (Ack(HelloAck(MAJOR, serialization, options.heartbeat, options.limits, options.features)),
       Some(Terms(serialization, options.limits, Effective(options.heartbeat), Features(options.features, hello.features), 2)))
  }

  /** The dialer, on the answer. */
  function Dial(local: seq<string>, answer: Answer): (r: Option<Terms>)
  {
    match answer
    case Refusal => None
    case Ack(ack) =>
      if ack.major != MAJOR then None
      else Some(Terms(ack.serialization, ack.limits, Effective(ack.heartbeat), Features(local, ack.features), 1))
  }

  /**
   Whatever the dialer offers and the acceptor decides: either both ends go on or neither does, and
   when they do they hold the same serialization, limits and effective heartbeat, use exactly the
   same features, and count stream ids of different parity.
   */
  lemma BothEndsAgree(hello: Hello, decision: Option<Options>)
    ensures var (answer, accepted) := Accept(hello, decision);
      var dialed := Dial(hello.features, answer);
      && (dialed.Some? <==> accepted.Some?)
      && (accepted.Some? <==> hello.major == 1 && decision.Some?)
      && (accepted.Some? ==>
            && dialed.value.serialization == accepted.value.serialization
            && dialed.value.limits == accepted.value.limits
            && dialed.value.heartbeat == accepted.value.heartbeat
            && (forall f :: dialed.value.features.Agreed(f) <==> accepted.value.features.Agreed(f))
            && dialed.value.nextStream % 2 != accepted.value.nextStream % 2)
  {
  }

  /** Whoever answers, the dialer goes on with an acknowledgement of its own major version and with nothing else. */
  lemma DialsItsOwnMajor(local: seq<string>, answer: Answer)
    ensures Dial(local, answer).Some? <==> answer.Ack? && answer.ack.major == 1
  {
  }

  /** One end's terms, after a handshake that went through. */
  ghost predicate Completed(hello: Hello, options: Options, t: Terms)
  {
    var (answer, accepted) := Accept(hello, Some(options));
    Some(t) == accepted || Some(t) == Dial(hello.features, answer)
  }

  /**
   And what they agree on: the dialer's first serialization, or msgpack; the acceptor's limits and
   heartbeat interval; the features both offered; and odd ids for the dialer.
   */
  lemma WhatTheyAgreeOn(hello: Hello, options: Options, t: Terms)
    requires Completed(hello, options, t)
    ensures hello.serialization != [] ==> t.serialization == hello.serialization[0]
    ensures hello.serialization == [] ==> t.serialization == Msgpack
    ensures t.limits == options.limits && t.heartbeat.interval == options.heartbeat.interval
    ensures forall f :: t.features.Agreed(f) <==> f in hello.features && f in options.features
    ensures t.nextStream == if Some(t) == Accept(hello, Some(options)).1 then 2 else 1
  {
  }

  /** The timeout in use is the one asked for, or the shortest after that which outlasts the interval. */
  lemma TimeoutIsLeast(h: Heartbeat, timeout: u32)
    requires h.timeout <= timeout && (h.interval < timeout || timeout == 0xffff_ffff)
    ensures h.timeout <= Effective(h).timeout <= timeout && h.interval <= Effective(h).timeout
  {
  }

  /** A connection never lapses before its next heartbeat is due, unless the interval is the largest there is. */
  lemma TimeoutOutlastsInterval(h: Heartbeat)
    ensures Effective(h).interval < Effective(h).timeout <==> h.interval != 0xffff_ffff
  {
  }

  // ---------------------------------------------------------------- where the run starts

  const ATTACHMENTS := "attachments"
  const INLINE_BLOB_MAX: nat := 4 * 1024 * 1024

  /** No blob is this long. */
  const NEVER: nat := 0x1_0000_0000_0000_0000

  /** What one end runs with: its window, its chunk size, and the size above which a blob is detached. */
  function EnvOf(t: Terms, sha: seq<byte> -> string): Wire.Env
  {
    Wire.Env(t.limits.initialStreamCredit, t.limits.maxChunk, if t.features.Agreed(ATTACHMENTS) then INLINE_BLOB_MAX else NEVER, sha)
  }

  function TablesOf(t: Terms): Wire.End
  {
    Session.Idle.(next := t.nextStream)
  }

  /** Two ends that completed a handshake run with one and the same environment, from the model's start. */
  lemma HandshakeOpensTheRun(hello: Hello, decision: Option<Options>, sha: seq<byte> -> string)
    requires Accept(hello, decision).1.Some?
    ensures var (answer, accepted) := Accept(hello, decision);
      var dialed := Dial(hello.features, answer);
      && dialed.Some? && EnvOf(dialed.value, sha) == EnvOf(accepted.value, sha)
      && Wire.Wire(TablesOf(dialed.value), TablesOf(accepted.value), [], [], map[], []) == Session.Start
      && Session.Run([Session.Start], [], EnvOf(accepted.value, sha))
  {
    BothEndsAgree(hello, decision);
  }

  /** The window and the chunk size are the acceptor's. */
  lemma RunsWithTheAcceptorsLimits(hello: Hello, options: Options, t: Terms, sha: seq<byte> -> string)
    requires Completed(hello, options, t)
    ensures EnvOf(t, sha).window == options.limits.initialStreamCredit
    ensures EnvOf(t, sha).maxChunk == options.limits.maxChunk
    ensures EnvOf(t, sha).sha == sha
  {
  }

  /** When either side did not offer attachments, whatever is answered goes out as it is. */
  lemma NothingIsDetachedUnlessAgreed(hello: Hello, options: Options, t: Terms, sha: seq<byte> -> string, v: Attach.Value, ids: seq<Attach.StreamId>)
    requires Completed(hello, options, t)
    requires "attachments" !in hello.features || "attachments" !in options.features
    ensures Attach.Detach(v, Wire.CtxOf(EnvOf(t, sha), ids), 0) == (v, [])
  {
    NothingToDetach(v);
    Attach.DetachNothing(v, Wire.CtxOf(EnvOf(t, sha), ids), 0);
  }

  /** When both did, a blob goes out on a stream exactly when the walk comes to it and it is longer than 4 MiB. */
  lemma DetachedOnceAgreed(hello: Hello, options: Options, t: Terms, sha: seq<byte> -> string, v: Attach.Value, ids: seq<Attach.StreamId>,
                           bytes: Bytes)
    requires Completed(hello, options, t)
    requires "attachments" in hello.features && "attachments" in options.features
    ensures Datums.Sent(Attach.Detach(v, Wire.CtxOf(EnvOf(t, sha), ids), 0).1, bytes) <==> Datums.Reaches(v, 4 * 1024 * 1024, bytes)
  {
    Datums.SentExactlyWhen(v, Wire.CtxOf(EnvOf(t, sha), ids), 0, bytes);
  }

  /** Without the feature, no response has anything to detach. */
  lemma {:induction false} NothingToDetach(v: Attach.Value)
    ensures Attach.Blobs(v, NEVER) == []
    decreases v, 1
  {
    if v.Arr? || v.Map? { NothingToDetachIn(v.vals); }
  }

  lemma {:induction false} NothingToDetachIn(vs: seq<Attach.Value>)
    ensures Attach.BlobsAll(vs, NEVER) == []
    decreases vs, 0
  {
    if vs != [] {
      NothingToDetach(vs[0]);
      NothingToDetachIn(vs[1..]);
    }
  }
}
