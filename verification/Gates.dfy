/**
 The gate of one streaming call: entered by the call's worker, taken out by whoever ends the stream.

 The worker enters the gate, answers with the head and streams; a cancel from the caller or a revocation
 may take the call over at any moment, even between the gate and the head.  The worker can be aborted only
 where it awaits: in the tool, and in the stream.  Each step is one access to something shared.
 */
module Gates {

  /** Where the call's worker is. */
  datatype Task =
    | Running                  // in the tool
    | Gated                    // the gate is entered, the head not answered yet
    | Streaming
    | Closing                  // the stream is over, the gate about to be taken out
    | Ended
    | Aborted(streaming: bool)

  /** How far whoever took the call over has got. */
  datatype Hold =
    | Free
    | Taken(revoke: bool)      // the entry is out of the table
    | Flagged                  // a cancel has asked for the abort
    | Paid(revoke: bool)       // it answers for the worker
    | Late(revoke: bool)       // the worker had answered
    | Cleared(revoke: bool)    // and the gate was taken out
    | Over

  /** `headOut`: the worker answered with the head.  `stopped`: the peer cancelled the stream itself. */
  datatype Call = Call(task: Task, hold: Hold, aborting: bool, replied: bool, headOut: bool, gate: bool, stopped: bool)

  const Start := Call(Running, Free, false, false, false, false, false)

  datatype Act =
    | EnterGate | Refuse | Head | EndStream | LeaveGate | Abort          // the worker
    | Take(revoke: bool) | Flag | Swap | Clear | Finish                  // the cancel or the revocation
    | Stop                                                               // the peer's cancel of the stream

  predicate Enabled(c: Call, a: Act)
  {
    match a
    case EnterGate => c.task.Running?
    case Refuse => c.task.Running?
    case Head => c.task.Gated?
    case EndStream => c.task.Streaming?
    case LeaveGate => c.task.Closing?
    case Abort => c.aborting && (c.task.Running? || c.task.Streaming?)
    case Take(_) => c.hold.Free?
    case Flag => c.hold == Taken(false)
    case Swap => c.hold.Flagged? || c.hold == Taken(true)
    case Clear => c.hold.Late?
    case Finish => c.hold.Paid? || c.hold.Cleared?
    case Stop => c.gate
  }

  function Next(c: Call, a: Act): (r: Call)
    requires Enabled(c, a)
  {
    match a
    case EnterGate => c.(task := Gated, gate := true)
    case Refuse => c.(task := Ended, replied := true)
    case Head => c.(task := Streaming, replied := true, headOut := !c.replied)
    case EndStream => c.(task := Closing)
    case LeaveGate => c.(task := Ended, gate := false)
    case Abort => c.(task := Aborted(c.task.Streaming?))
    case Take(revoke) => c.(hold := Taken(revoke))
    case Flag => c.(hold := Flagged, aborting := true)
    case Swap => c.(replied := true, hold := if c.replied then Late(c.hold.Taken?) else Paid(c.hold.Taken?))
    case Clear => c.(hold := Cleared(c.hold.revoke), gate := false)
    case Finish => c.(hold := Over, aborting := true)
    case Stop => c.(gate := false, stopped := true)
  }

  ghost predicate Run(cs: seq<Call>, acts: seq<Act>)
  {
    |cs| == |acts| + 1 && cs[0] == Start
    && forall i {:trigger acts[i]} :: 0 <= i < |acts| ==> Enabled(cs[i], acts[i]) && cs[i + 1] == Next(cs[i], acts[i])
  }

  /** The worker has gone through the gate, and is not past it. */
  predicate Inside(task: Task)
  {
    task.Gated? || task.Streaming? || task.Closing? || task == Aborted(true)
  }

  ghost predicate Inv(c: Call)
  {
    && (c.headOut ==> c.replied && (c.task.Streaming? || c.task.Closing? || c.task.Ended? || c.task == Aborted(true)))
    && (c.gate ==> Inside(c.task))
    && (Inside(c.task) && !c.gate ==> c.stopped || (c.headOut && (c.hold.Cleared? || c.hold.Over?)))
    && (c.stopped ==> !c.gate && !c.task.Running?)
    && (c.aborting ==> !c.hold.Free? && !c.hold.Taken?)
    && (c.task.Aborted? ==> c.aborting)
    // Who answered first: the worker, or whoever took the call over.
    && (c.hold.Free? || c.hold.Taken? || c.hold.Flagged? ==> (c.replied ==> c.headOut || c.task.Ended?))
    && (c.hold.Paid? ==> c.replied && !c.headOut)
    && (c.hold.Late? || c.hold.Cleared? ==> c.replied && (c.headOut || c.task.Ended?))
    && (c.hold.Cleared? || (c.hold.Over? && c.headOut) ==> !c.gate)
    && (c.hold.Over? ==> c.replied && c.aborting)
    && (c.hold.Flagged? ==> c.aborting)
    && (c.task.Streaming? || c.task.Closing? || c.task.Ended? ==> c.replied)
  }

  lemma StepInv(c: Call, a: Act)
    requires Inv(c) && Enabled(c, a)
    ensures Inv(Next(c, a))
  {
  }

  lemma {:induction false} RunInv(cs: seq<Call>, acts: seq<Act>, i: nat)
    requires Run(cs, acts) && i < |cs|
    ensures Inv(cs[i])
  {
    if i > 0 {
      RunInv(cs, acts, i - 1);
      StepInv(cs[i - 1], acts[i - 1]);
    }
  }

  /** Neither the worker nor whoever took the call over has anything left to do. */
  predicate Settled(c: Call)
  {
    (c.task.Ended? || c.task.Aborted?) && (c.hold.Free? || c.hold.Over?)
  }

  /**
   In every run, once a call is settled its gate is still in the table exactly when its task was aborted
   in the stream, somebody else had answered before its head, and the peer never cancelled the stream.
   */
  lemma LeftBehindExactlyWhen(cs: seq<Call>, acts: seq<Act>, i: nat)
    requires Run(cs, acts) && i < |cs| && Settled(cs[i])
    ensures cs[i].gate <==> cs[i].task == Aborted(true) && !cs[i].headOut && !cs[i].stopped
  {
    RunInv(cs, acts, i);
  }

  /** A settled call has been answered, and one that was taken over has been told to stop. */
  lemma SettledIsAnswered(cs: seq<Call>, acts: seq<Act>, i: nat)
    requires Run(cs, acts) && i < |cs| && Settled(cs[i])
    ensures cs[i].replied && (cs[i].aborting <==> !cs[i].hold.Free?)
  {
    RunInv(cs, acts, i);
  }

  /** A cancel has its worker stopped before it answers for it. */
  lemma StoppedBeforeAnswered(cs: seq<Call>, acts: seq<Act>, i: nat)
    requires Run(cs, acts) && i < |acts| && acts[i] == Swap && cs[i].hold != Taken(true)
    ensures cs[i].aborting
  {
    RunInv(cs, acts, i);
    assert Enabled(cs[i], acts[i]);
  }

  /** A cancel between the gate and the head leaves the gate behind. */
  lemma AGateIsLeftBehind() returns (cs: seq<Call>, acts: seq<Act>)
    ensures Run(cs, acts) && Settled(cs[|acts|]) && cs[|acts|].gate
    ensures acts == [EnterGate, Take(false), Flag, Swap, Head, Finish, Abort]
  {
    acts := [EnterGate, Take(false), Flag, Swap, Head, Finish, Abort];
    var c1 := Next(Start, EnterGate);
    var c2 := Next(c1, Take(false));
    var c3 := Next(c2, Flag);
    var c4 := Next(c3, Swap);
    var c5 := Next(c4, Head);
    var c6 := Next(c5, Finish);
    cs := [Start, c1, c2, c3, c4, c5, c6, Next(c6, Abort)];
  }
}
