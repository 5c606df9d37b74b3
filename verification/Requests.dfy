/**
 One reply per call, and no entry left behind.

 A request is dispatched by the reader, which spawns a worker for it and only then enters it in the
 in-flight table; by then the worker may already have finished.  A cancel or a revocation may take the
 entry at any moment and answer in its place.  Each of these is cut into the steps other threads can
 see.  The table's lock is held from the reader's look at `done` to its insert.
 */
module Requests {
  import opened Base

  type Id = nat

  type Name = string

  /** The spawned task.  It can be aborted only where it awaits: while running or streaming. */
  datatype Task =
    | Running
    | Owing(streams: bool)   // won the right to reply, has not sent yet
    | Streaming
    | Storing                // about to set `done`
    | Removing               // about to take its entry out
    | Ended
    | Aborted

  /** What a cancel or a revocation has done about the call since taking its entry. */
  datatype Hold = Unheld | Taken(cancel: bool) | Marked | Pays | Late | Closing | Closed

  datatype Call = Call(cap: Name, stream: bool, task: Task, replied: bool, done: bool, hold: Hold, aborting: bool, sent: nat)

  datatype Reader = Idle | Spawned(id: Id) | Loaded(id: Id, done: bool)

  datatype World = World(served: set<Name>, calls: map<Id, Call>, inflight: set<Id>, reader: Reader)

  datatype Act =
    | Serve(cap: Name)
    | Withdraw(cap: Name)
    | Dispatch(id: Id, cap: Name, stream: bool)
    | Load
    | Insert
    | Answer(id: Id, streams: bool)
    | SendReply(id: Id)
    | EndStream(id: Id)
    | StoreDone(id: Id)
    | Remove(id: Id)
    | Abort(id: Id)
    | Cancel(id: Id)
    | Mark(id: Id)
    | Swap(id: Id)
    | SendError(id: Id)
    | Release(id: Id)
    | Revoke(cap: Name, caller: Option<Id>)

  predicate Enabled(w: World, a: Act)
  {
    match a
    case Serve(_) => true
    case Withdraw(_) => true
    case Dispatch(id, cap, _) => w.reader.Idle? && id !in w.calls && cap in w.served
    case Load => w.reader.Spawned? && w.reader.id in w.calls
    case Insert => w.reader.Loaded?
    case Answer(id, streams) => id in w.calls && w.calls[id].task.Running? && (streams ==> w.calls[id].stream)
    case SendReply(id) => id in w.calls && w.calls[id].task.Owing?
    case EndStream(id) => id in w.calls && w.calls[id].task.Streaming?
    case StoreDone(id) => id in w.calls && w.calls[id].task.Storing?
    case Remove(id) => id in w.calls && w.calls[id].task.Removing? && !w.reader.Loaded?
    case Abort(id) => id in w.calls && w.calls[id].aborting && (w.calls[id].task.Running? || w.calls[id].task.Streaming?)
    case Cancel(id) => w.reader.Idle? && id in w.inflight && id in w.calls
    case Mark(id) => id in w.calls && w.calls[id].hold == Taken(true)
    case Swap(id) => id in w.calls && (w.calls[id].hold == Taken(false) || w.calls[id].hold.Marked?)
    case SendError(id) => id in w.calls && w.calls[id].hold.Pays?
    case Release(id) => id in w.calls && (w.calls[id].hold.Late? || w.calls[id].hold.Closing?)
    case Revoke(_, _) => !w.reader.Loaded?
  }

  /** After its reply, or instead of one. */
  function Onward(streams: bool): Task
  {
    if streams then Streaming else Storing
  }

  /** What an act by the call's own task, or by whoever took its entry, does to the call. */
  function Moved(c: Call, a: Act): (r: Call)
    requires a.SendReply? ==> c.task.Owing?
  {
    match a
    case Answer(_, streams) =>
      if c.replied then c.(task := Onward(streams)) else c.(replied := true, task := Owing(streams))
    case SendReply(_) => c.(sent := c.sent + 1, task := Onward(c.task.streams))
    case EndStream(_) => c.(task := Storing)
    case StoreDone(_) => c.(done := true, task := Removing)
    case Remove(_) => c.(task := Ended)
    case Abort(_) => c.(task := Aborted)
    case Cancel(_) => c.(hold := Taken(true), aborting := true)
    case Mark(_) => c.(done := true, hold := Marked)
    case Swap(_) => if c.replied then c.(hold := Late) else c.(replied := true, hold := Pays)
    case SendError(_) => c.(sent := c.sent + 1, hold := Closing)
    case Release(_) => c.(hold := Closed, aborting := true)
    case _ => c
  }

  /** The entries `revoke_inflight` takes: those of the capability, except the caller's own. */
  function Victims(w: World, cap: Name, caller: Option<Id>): set<Id>
  {
    set id | id in w.inflight && id in w.calls && w.calls[id].cap == cap && caller != Some(id)
  }

  function Next(w: World, a: Act): (r: World)
    requires Enabled(w, a)
  {
    match a
    case Serve(cap) => w.(served := w.served + {cap})
    case Withdraw(cap) => w.(served := w.served - {cap})
    case Dispatch(id, cap, stream) =>
      w.(calls := w.calls[id := Call(cap, stream, Running, false, false, Unheld, false, 0)], reader := Spawned(id))
    case Load => w.(reader := Loaded(w.reader.id, w.calls[w.reader.id].done))
    case Insert => w.(inflight := if w.reader.done then w.inflight else w.inflight + {w.reader.id}, reader := Idle)
    case Revoke(cap, caller) =>
      var victims := Victims(w, cap, caller);
      w.(inflight := w.inflight - victims,
         calls := map id | id in w.calls :: if id in victims then w.calls[id].(hold := Taken(false)) else w.calls[id])
    case _ =>
      w.(calls := w.calls[a.id := Moved(w.calls[a.id], a)],
         inflight := if a.Remove? || a.Cancel? then w.inflight - {a.id} else w.inflight)
  }

  // ---------------------------------------------------------------- the invariant

  function Count(b: bool): nat
  {
    if b then 1 else 0
  }

  /** Where the reader and the table stand on one call. */
  datatype Place = Reading | Seen(done: bool) | Listed | Out

  function PlaceOf(w: World, id: Id): Place
  {
    if w.reader == Spawned(id) then Reading
    else if w.reader.Loaded? && w.reader.id == id then Seen(w.reader.done)
    else if id in w.inflight then Listed
    else Out
  }

  /** One call, with where it stands. */
  ghost predicate CallInv(c: Call, at: Place)
  {
    && c.sent + Count(c.task.Owing?) + Count(c.hold.Pays?) == Count(c.replied)
    && (c.task.Owing? || c.task.Streaming? || c.task.Storing? || c.task.Removing? || c.task.Ended? ==> c.replied)
    && (c.task.Removing? || c.task.Ended? ==> c.done)
    && (c.hold.Unheld? && c.done ==> c.task.Removing? || c.task.Ended?)
    && (c.hold.Late? || c.hold.Closing? || c.hold.Closed? ==> c.replied)
    && (c.aborting || c.task.Aborted? ==> !c.hold.Unheld?)
    && (c.hold == Taken(true) || c.hold.Marked? || c.hold.Closed? ==> c.aborting)
    && (c.hold.Marked? ==> c.done)
    && (!c.hold.Unheld? ==> at.Out?)
    && (at.Listed? || at == Seen(false) ==> !c.task.Ended?)
    && (at == Seen(true) ==> c.done)
    && (at.Out? && c.hold.Unheld? ==> c.done)
  }

  ghost predicate Inv(w: World)
  {
    && (!w.reader.Idle? ==> w.reader.id in w.calls && w.reader.id !in w.inflight)
    && w.inflight <= w.calls.Keys
    && forall id | id in w.calls :: CallInv(w.calls[id], PlaceOf(w, id))
  }

  predicate OwnAct(a: Act)
  {
    !a.Serve? && !a.Withdraw? && !a.Dispatch? && !a.Load? && !a.Insert? && !a.Revoke?
  }

  lemma OwnStep(w: World, a: Act)
    requires Inv(w) && OwnAct(a) && Enabled(w, a)
    ensures a.id in w.calls
    ensures var w' := Next(w, a);
      CallInv(w'.calls[a.id], PlaceOf(w', a.id)) && (forall id | id != a.id :: PlaceOf(w', id) == PlaceOf(w, id))
  {
    var at := PlaceOf(w, a.id);
    assert CallInv(w.calls[a.id], at);
    OwnPlace(w, a);
    MovedInv(w.calls[a.id], a, at);
  }

  /** A call's own act leaves the reader where it is; it can only take the entry out. */
  lemma OwnPlace(w: World, a: Act)
    requires Inv(w) && OwnAct(a) && Enabled(w, a)
    ensures var w' := Next(w, a);
      && PlaceOf(w', a.id) == (if (a.Remove? || a.Cancel?) && PlaceOf(w, a.id).Listed? then Out else PlaceOf(w, a.id))
      && (forall id | id != a.id :: PlaceOf(w', id) == PlaceOf(w, id))
      && (a.Cancel? ==> PlaceOf(w, a.id).Listed?) && (a.Remove? ==> !PlaceOf(w, a.id).Seen?)
  {
  }

  /** The worker or the holder of the call is where the act needs it. */
  predicate May(c: Call, a: Act)
  {
    match a
    case Answer(_, streams) => c.task.Running? && (streams ==> c.stream)
    case SendReply(_) => c.task.Owing?
    case EndStream(_) => c.task.Streaming?
    case StoreDone(_) => c.task.Storing?
    case Remove(_) => c.task.Removing?
    case Abort(_) => c.aborting && (c.task.Running? || c.task.Streaming?)
    case Mark(_) => c.hold == Taken(true)
    case Swap(_) => c.hold == Taken(false) || c.hold.Marked?
    case SendError(_) => c.hold.Pays?
    case Release(_) => c.hold.Late? || c.hold.Closing?
    case _ => true
  }

  lemma MovedInv(c: Call, a: Act, at: Place)
    requires CallInv(c, at) && OwnAct(a) && May(c, a)
    requires (a.Cancel? ==> at.Listed?) && (a.Remove? ==> !at.Seen?)
    ensures CallInv(Moved(c, a), if (a.Remove? || a.Cancel?) && at.Listed? then Out else at)
  {
  }

  lemma StepInv(w: World, a: Act)
    requires Inv(w) && Enabled(w, a)
    ensures Inv(Next(w, a))
  {
    var w' := Next(w, a);
    if OwnAct(a) { OwnStep(w, a); }
    forall id | id in w'.calls ensures CallInv(w'.calls[id], PlaceOf(w', id)) {
      if id in w.calls { assert CallInv(w.calls[id], PlaceOf(w, id)); }
    }
  }

  // ---------------------------------------------------------------- runs

  /** `ws` is what the acts lead through, starting at `ws[0]`. */
  ghost predicate From(ws: seq<World>, acts: seq<Act>)
  {
    |ws| == |acts| + 1
    && forall i :: 0 <= i < |acts| ==> Enabled(ws[i], acts[i]) && ws[i + 1] == Next(ws[i], acts[i])
  }

  const Start := World({}, map[], {}, Idle)

  lemma {:induction false} RunInv(ws: seq<World>, acts: seq<Act>, i: nat)
    requires From(ws, acts) && ws[0] == Start && i < |ws|
    ensures Inv(ws[i])
  {
    if i > 0 {
      RunInv(ws, acts, i - 1);
      StepInv(ws[i - 1], acts[i - 1]);
    }
  }

  /** A dispatched request never gets two replies. */
  lemma AtMostOneReply(ws: seq<World>, acts: seq<Act>, i: nat, id: Id)
    requires From(ws, acts) && ws[0] == Start && i < |ws| && id in ws[i].calls
    ensures ws[i].calls[id].sent <= 1
  {
    RunInv(ws, acts, i);
    assert CallInv(ws[i].calls[id], PlaceOf(ws[i], id));
  }

  /** Out of the table, and nobody is in the middle of answering it. */
  predicate Over(w: World, id: Id)
    requires id in w.calls
  {
    && PlaceOf(w, id).Out? && !w.calls[id].task.Owing?
    && (w.calls[id].hold.Unheld? || w.calls[id].hold.Closing? || w.calls[id].hold.Closed? || w.calls[id].hold.Late?)
  }

  /** Every call that has left the table, and that nobody is still answering, has had exactly one reply. */
  lemma ExactlyOneReply(ws: seq<World>, acts: seq<Act>, i: nat, id: Id)
    requires From(ws, acts) && ws[0] == Start && i < |ws| && id in ws[i].calls && Over(ws[i], id)
    ensures ws[i].calls[id].sent == 1
  {
    RunInv(ws, acts, i);
    assert CallInv(ws[i].calls[id], PlaceOf(ws[i], id));
  }

  /** A finished or aborted task has no entry, and the reader is not going to give it one. */
  lemma FinishedLeavesNothing(ws: seq<World>, acts: seq<Act>, i: nat, id: Id)
    requires From(ws, acts) && ws[0] == Start && i < |ws| && id in ws[i].calls
    requires ws[i].calls[id].task.Ended? || ws[i].calls[id].task.Aborted?
    ensures id !in ws[i].inflight && ws[i].reader != Loaded(id, false)
    ensures ws[i].reader == Spawned(id) ==> ws[i].calls[id].done
  {
    RunInv(ws, acts, i);
    assert CallInv(ws[i].calls[id], PlaceOf(ws[i], id));
  }

  /** A cancelled call's worker is asked to stop at once, a revoked one's by the time it has been told. */
  lemma TakenIsStopped(ws: seq<World>, acts: seq<Act>, i: nat, id: Id)
    requires From(ws, acts) && ws[0] == Start && i < |ws| && id in ws[i].calls
    ensures ws[i].calls[id].hold == Taken(true) || ws[i].calls[id].hold.Closed? ==> ws[i].calls[id].aborting
    ensures ws[i].calls[id].hold.Marked? ==> ws[i].calls[id].aborting && ws[i].calls[id].done
    ensures ws[i].calls[id].aborting ==> !ws[i].calls[id].hold.Unheld?
  {
    RunInv(ws, acts, i);
    assert CallInv(ws[i].calls[id], PlaceOf(ws[i], id));
  }

  /** A worker that answered with a stream and has not ended it. */
  predicate InStream(task: Task)
  {
    task == Owing(true) || task.Streaming? || task.Aborted?
  }

  /** A call answered with a stream is not marked done by its worker before the stream has ended. */
  lemma {:induction false} StaysUntilItsStreamEnds(ws: seq<World>, acts: seq<Act>, m: nat, i: nat, id: Id)
    requires From(ws, acts) && m < i < |ws| && acts[m] == Answer(id, true) && forall k :: m < k < i ==> acts[k] != EndStream(id)
    ensures id in ws[i].calls && InStream(ws[i].calls[id].task)
    decreases i
  {
    if m < i - 1 { StaysUntilItsStreamEnds(ws, acts, m, i - 1, id); }
    StepInStream(ws[i - 1], acts[i - 1], id);
  }

  lemma StepInStream(w: World, a: Act, id: Id)
    requires Enabled(w, a) && a != EndStream(id) && (a == Answer(id, true) || (id in w.calls && InStream(w.calls[id].task)))
    ensures id in Next(w, a).calls && InStream(Next(w, a).calls[id].task)
  {
  }

  // ---------------------------------------------------------------- settling

  /** What the reader, the worker and the holder of the call still have before them. */
  function Ahead(reader: Reader, c: Call): nat
  {
    (match reader case Spawned(_) => 2 case Loaded(_, _) => 1 case Idle => 0)
    + (match c.task
       case Running => 6 case Owing(_) => 5 case Streaming => 4 case Storing => 3 case Removing => 2 case _ => 0)
    + (match c.hold
       case Taken(_) => 5 case Marked => 4 case Pays => 3 case Late => 2 case Closing => 1 case _ => 0)
  }

  /** Some act that is possible now. */
  function Onwards(w: World, id: Id): (a: Option<Act>)
    requires id in w.calls
  {
    var c := w.calls[id];
    if w.reader.Spawned? then Some(Load) else if w.reader.Loaded? then Some(Insert)
    else if c.task.Running? then Some(Answer(id, false)) else if c.task.Owing? then Some(SendReply(id))
    else if c.task.Streaming? then Some(EndStream(id)) else if c.task.Storing? then Some(StoreDone(id))
    else if c.task.Removing? then Some(Remove(id))
    else if c.hold == Taken(true) then Some(Mark(id)) else if c.hold.Taken? || c.hold.Marked? then Some(Swap(id))
    else if c.hold.Pays? then Some(SendError(id)) else if c.hold.Late? || c.hold.Closing? then Some(Release(id))
    else None
  }

  lemma MovesOn(reader: Reader, c: Call, a: Act)
    requires OwnAct(a) && !a.Cancel? && May(c, a)
    ensures Ahead(reader, Moved(c, a)) < Ahead(reader, c)
  {
  }

  lemma OnwardsMoves(w: World, id: Id)
    requires Inv(w) && id in w.calls && Onwards(w, id).Some?
    ensures var a := Onwards(w, id).value;
      Enabled(w, a) && id in Next(w, a).calls && Ahead(Next(w, a).reader, Next(w, a).calls[id]) < Ahead(w.reader, w.calls[id])
  {
    var a := Onwards(w, id).value;
    if w.reader.Idle? { MovesOn(w.reader, w.calls[id], a); }
  }

  /** Over and done with: no entry, nobody at it, one reply. */
  ghost predicate Finished(w: World, id: Id)
  {
    id in w.calls && var c := w.calls[id];
    && (c.task.Ended? || c.task.Aborted?) && (c.hold.Unheld? || c.hold.Closed?)
    && id !in w.inflight && w.reader.Idle? && c.sent == 1
  }

  lemma NothingAhead(w: World, id: Id)
    requires Inv(w) && id in w.calls && Onwards(w, id).None?
    ensures Finished(w, id)
  {
    assert CallInv(w.calls[id], PlaceOf(w, id));
  }

  /** From every reachable state, a call can be brought to its end, whoever holds it; and it ends with exactly one reply. */
  lemma {:induction false} EveryCallCanFinish(w: World, id: Id) returns (ws: seq<World>, acts: seq<Act>)
    requires Inv(w) && id in w.calls
    ensures From(ws, acts) && ws[0] == w && Finished(ws[|acts|], id)
    decreases Ahead(w.reader, w.calls[id])
  {
    if Onwards(w, id).None? {
      NothingAhead(w, id);
      ws, acts := [w], [];
    } else {
      var a := Onwards(w, id).value;
      OnwardsMoves(w, id);
      StepInv(w, a);
      ws, acts := EveryCallCanFinish(Next(w, a), id);
      FromOneBefore(w, a, ws, acts);
      ws, acts := [w] + ws, [a] + acts;
    }
  }

  lemma FromOneBefore(w: World, a: Act, ws: seq<World>, acts: seq<Act>)
    requires Enabled(w, a) && From(ws, acts) && ws[0] == Next(w, a)
    ensures From([w] + ws, [a] + acts)
  {
    var more, all := [w] + ws, [a] + acts;
    forall i | 0 <= i < |all| ensures Enabled(more[i], all[i]) && more[i + 1] == Next(more[i], all[i]) {
      if i > 0 { assert more[i] == ws[i - 1] && all[i] == acts[i - 1] && more[i + 1] == ws[i]; }
    }
  }

  // ---------------------------------------------------------------- revocation

  /**
   A call is taken out of its worker's hands only by its own cancel, or by a revocation of its
   capability that some other call makes; and by either, exactly if it is in the table.
   */
  lemma TakenExactlyWhen(ws: seq<World>, acts: seq<Act>, i: nat, id: Id)
    requires From(ws, acts) && ws[0] == Start && i < |acts| && id in ws[i].calls && ws[i].calls[id].hold.Unheld?
    ensures id in ws[i + 1].calls
    ensures !ws[i + 1].calls[id].hold.Unheld? <==>
      id in ws[i].inflight
      && (acts[i] == Cancel(id) || (acts[i].Revoke? && acts[i].cap == ws[i].calls[id].cap && acts[i].caller != Some(id)))
    ensures !ws[i + 1].calls[id].hold.Unheld? ==> ws[i + 1].calls[id].hold == Taken(acts[i].Cancel?) && id !in ws[i + 1].inflight
  {
    assert Enabled(ws[i], acts[i]) && ws[i + 1] == Next(ws[i], acts[i]);
  }

  /** The reader has looked the capability up and spawned a call, but not entered it yet. */
  predicate Uncaught(w: World, cap: Name, caller: Option<Id>)
  {
    w.reader.Spawned? && w.reader.id in w.calls && caller != Some(w.reader.id)
    && w.calls[w.reader.id].cap == cap && !w.calls[w.reader.id].done
  }

  /** Nothing on `cap` is in the table but the caller's own call, and nothing is about to be. */
  ghost predicate Clean(w: World, cap: Name, caller: Option<Id>)
  {
    && cap !in w.served && !Uncaught(w, cap, caller)
    && (w.reader.Loaded? && w.reader.id in w.calls && w.calls[w.reader.id].cap == cap ==> w.reader.done || caller == Some(w.reader.id))
    && forall id | id in w.inflight && id in w.calls && w.calls[id].cap == cap :: caller == Some(id)
  }

  lemma StepClean(w: World, a: Act, cap: Name, caller: Option<Id>)
    requires Inv(w) && Clean(w, cap, caller) && Enabled(w, a) && a != Serve(cap)
    ensures Clean(Next(w, a), cap, caller)
  {
    if OwnAct(a) { OwnClean(w, a, cap, caller); }
  }

  lemma OwnClean(w: World, a: Act, cap: Name, caller: Option<Id>)
    requires Inv(w) && Clean(w, cap, caller) && OwnAct(a) && Enabled(w, a)
    ensures Clean(Next(w, a), cap, caller)
  {
    var w' := Next(w, a);
    assert w'.reader == w.reader && w'.served == w.served && w'.inflight <= w.inflight;
    assert forall id | id in w.calls :: w'.calls[id].cap == w.calls[id].cap && (w.calls[id].done ==> w'.calls[id].done);
  }

  /** No entry on `cap` but the caller's own in any state that can follow, until it is served again. */
  ghost predicate StaysOut(w: World, cap: Name, caller: Option<Id>)
  {
    forall ws, acts, i | From(ws, acts) && ws[0] == w && Serve(cap) !in acts && 0 <= i < |ws| :: NoneOn(ws[i], cap, caller)
  }

  ghost predicate NoneOn(w: World, cap: Name, caller: Option<Id>)
  {
    forall id | id in w.inflight && id in w.calls && w.calls[id].cap == cap :: caller == Some(id)
  }

  lemma {:induction false} CleanStays(ws: seq<World>, acts: seq<Act>, i: nat, cap: Name, caller: Option<Id>)
    requires From(ws, acts) && Inv(ws[0]) && Clean(ws[0], cap, caller) && Serve(cap) !in acts && i < |ws|
    ensures Inv(ws[i]) && Clean(ws[i], cap, caller)
  {
    if i > 0 {
      CleanStays(ws, acts, i - 1, cap, caller);
      StepInv(ws[i - 1], acts[i - 1]);
      StepClean(ws[i - 1], acts[i - 1], cap, caller);
    }
  }

  /** How a call slips past: the reader enters it after the revocation has looked. */
  lemma SlipsPast(w: World, cap: Name, caller: Option<Id>)
    requires Inv(w) && Uncaught(w, cap, caller)
    ensures !StaysOut(Next(w, Revoke(cap, caller)), cap, caller)
  {
    var id := w.reader.id;
    var w1 := Next(w, Revoke(cap, caller));
    var w2 := Next(w1, Load);
    var w3 := Next(w2, Insert);
    var ws, acts := [w1, w2, w3], [Load, Insert];
    assert From(ws, acts) && ws[0] == w1 && Serve(cap) !in acts;
    assert id in ws[2].inflight && !NoneOn(ws[2], cap, caller);
  }

  /**
   `revoke_inflight` is meant to fail every call still running on a withdrawn capability.  It does,
   once and for all, precisely when the reader is not between spawning another call on that capability
   and entering it in the table.
   */
  lemma RevocationIsComplete(w: World, cap: Name, caller: Option<Id>)
    requires Inv(w) && cap !in w.served && !w.reader.Loaded?
    ensures StaysOut(Next(w, Revoke(cap, caller)), cap, caller) <==> !Uncaught(w, cap, caller)
  {
    var w1 := Next(w, Revoke(cap, caller));
    if Uncaught(w, cap, caller) {
      SlipsPast(w, cap, caller);
    } else {
      StepInv(w, Revoke(cap, caller));
      assert Clean(w1, cap, caller);
      forall ws, acts, i | From(ws, acts) && ws[0] == w1 && Serve(cap) !in acts && 0 <= i < |ws|
        ensures NoneOn(ws[i], cap, caller)
      {
        CleanStays(ws, acts, i, cap, caller);
      }
    }
  }

  /** And that moment is reached: a run from the start to a revocation that a call slips past. */
  lemma ARevokedCallSurvives(cap: Name)
    ensures exists ws: seq<World>, acts: seq<Act> ::
              From(ws, acts) && ws[0] == Start && |ws| == 4 && acts[2] == Withdraw(cap)
              && !ws[3].reader.Loaded? && !StaysOut(Next(ws[3], Revoke(cap, None)), cap, None)
  {
    var call := Call(cap, false, Running, false, false, Unheld, false, 0);
    var spawned := World({}, map[0 := call], {}, Spawned(0));
    var ws := [Start, World({cap}, map[], {}, Idle), spawned.(served := {cap}), spawned];
    var acts := [Serve(cap), Dispatch(0, cap, false), Withdraw(cap)];
    assert {} + {cap} == {cap} && {cap} - {cap} == {};
    assert From(ws, acts);
    RunInv(ws, acts, 3);
    SlipsPast(spawned, cap, None);
  }
}
