/**
 The pin ledger and its lock file, as many processes use them at once.

 A call moves through the steps the source takes on the file system.  Checking a lock's age and
 removing it are separate steps, and so are the read and the removal done when a lock guard is
 dropped, so one call may remove the lock another call has just taken.  Confirming the nonce and
 renaming the new ledger into place is one step.  A call may fail or crash anywhere.  The in-process
 mutex is left out: without it more interleavings are possible, never fewer.
 */
module Ledger {
  import opened Base

  type Slug = string
  type Nonce = string

  datatype Entry = Entry(endpointId: string, firstSeenMs: nat)
  type Pins = map<Slug, Entry>

  /** What is at the ledger's path: nothing, bytes that do not parse, or a table of entries. */
  datatype Disk = Missing | Garbage | Peers(pins: Pins)

  datatype TofuError = Changed | Malformed | Io | Refused | InvalidEndpointId
  datatype Outcome = Ok | Removed(existed: bool) | Failed(error: TofuError)

  /** `canonical_endpoint_id`: the one spelling of a key, or nothing for a string that is no key. */
  type Canon = string -> Option<string>

  ghost predicate OneForm(canon: Canon)
  {
    forall s :: canon(s).Some? ==> canon(canon(s).value) == canon(s)
  }

  /** `read`: a missing file is an empty ledger, an unreadable one is an error. */
  function Read(disk: Disk, canon: Canon): (r: Option<Pins>)
  {
    match disk
    case Missing => Some(map[])
    case Garbage => None
    case Peers(pins) =>
      if forall s | s in pins :: canon(pins[s].endpointId).Some?
      then Some(map s | s in pins :: Entry(canon(pins[s].endpointId).value, pins[s].firstSeenMs))
      else None
  }

  predicate Canonical(pins: Pins, canon: Canon)
  {
    forall s | s in pins :: canon(pins[s].endpointId) == Some(pins[s].endpointId)
  }

  lemma ReadIsCanonical(disk: Disk, canon: Canon)
    requires OneForm(canon) && Read(disk, canon).Some?
    ensures Canonical(Read(disk, canon).value, canon)
  {
    var m := Read(disk, canon).value;
    forall s | s in m ensures canon(m[s].endpointId) == Some(m[s].endpointId) {
      var spelt := disk.pins[s].endpointId;
      assert canon(canon(spelt).value) == canon(spelt);
    }
  }

  lemma ReadBack(pins: Pins, canon: Canon)
    requires Canonical(pins, canon)
    ensures Read(Peers(pins), canon) == Some(pins)
  {
    var r := Read(Peers(pins), canon).value;
    assert r.Keys == pins.Keys && forall s | s in pins :: r[s] == pins[s];
    assert r == pins;
  }

  /** Bytes that do not parse, or an entry whose key is no key. */
  ghost predicate Unreadable(disk: Disk, canon: Canon)
  {
    match disk
    case Missing => false
    case Garbage => true
    case Peers(pins) => exists s :: s in pins && canon(pins[s].endpointId).None?
  }

  /** A ledger is read whole, in canonical spelling, or not at all; only a missing one is an empty one. */
  lemma ReadsExactlyWhen(disk: Disk, canon: Canon)
    ensures Read(disk, canon).None? <==> Unreadable(disk, canon)
    ensures disk.Missing? ==> Read(disk, canon) == Some(map[])
    ensures disk.Peers? && !Unreadable(disk, canon) ==>
      && Read(disk, canon).Some? && Read(disk, canon).value.Keys == disk.pins.Keys
      && forall s | s in disk.pins ::
           canon(disk.pins[s].endpointId) == Some(Read(disk, canon).value[s].endpointId)
           && Read(disk, canon).value[s].firstSeenMs == disk.pins[s].firstSeenMs
  {
    if disk.Peers? && !Unreadable(disk, canon) { assert forall s | s in disk.pins :: canon(disk.pins[s].endpointId).Some?; }
  }

  /** `after` is `before` in canonical spelling, except at `slug`. */
  ghost predicate SameBut(before: Pins, after: Pins, slug: Slug, canon: Canon)
  {
    && (forall s | s != slug :: s in after <==> s in before)
    && forall s | s in before && s != slug ::
         canon(before[s].endpointId) == Some(after[s].endpointId) && after[s].firstSeenMs == before[s].firstSeenMs
  }

  // ---------------------------------------------------------------- the file system

  /** A file created with `create_new` has its own inode and is empty until the nonce is written. */
  datatype LockFile = LockFile(ino: nat, text: Option<Nonce>)

  datatype Fs = Fs(disk: Disk, lock: Option<LockFile>, nextIno: nat)

  function CreateNew(fs: Fs): (r: (Fs, Option<nat>))
  {
    if fs.lock.Some? then (fs, None)
    else (fs.(lock := Some(LockFile(fs.nextIno, None)), nextIno := fs.nextIno + 1), Some(fs.nextIno))
  }

  /** Writing goes to the inode that was opened, whether or not the path still leads to it. */
  function WriteNonce(fs: Fs, ino: nat, nonce: Nonce): (r: Fs)
  {
    if fs.lock.Some? && fs.lock.value.ino == ino
    then fs.(lock := Some(LockFile(ino, Some(nonce))))
    else fs
  }

  predicate Holds(fs: Fs, nonce: Nonce)
  {
    fs.lock.Some? && fs.lock.value.text == Some(nonce)
  }

  function Unlink(fs: Fs): Fs
  {
    fs.(lock := None)
  }

  // ---------------------------------------------------------------- calls

  datatype Op = Pin | Authorize | Forget

  datatype Phase =
    | Looking                                            // authorize: about to look the slug up
    | Asking                                             // authorize: a person is deciding
    | Trying                                             // about to create the lock file
    | Breaking                                           // judged the lock stale, about to remove it
    | Created(ino: nat, nonce: Nonce)                    // lock file created, nonce not written yet
    | Held(ino: nat, nonce: Nonce)                       // nonce written, ledger not read yet
    | Ready(ino: nat, nonce: Nonce, base: Pins, next: Pins)  // about to confirm the nonce and rename
    | Dropping(ino: nat, nonce: Nonce, out: Outcome)     // guard dropped, about to read the lock
    | Removing(ino: nat, nonce: Nonce, out: Outcome)     // read our nonce, about to remove the lock
    | Done(out: Outcome)
    | Crashed

  datatype Call = Call(op: Op, slug: Slug, key: string, phase: Phase)

  datatype World = World(fs: Fs, calls: map<nat, Call>, used: set<Nonce>, accepted: set<(Slug, string)>)

  datatype Act =
    | Begin(p: nat, op: Op, slug: Slug, offered: string)
    | Lookup(p: nat)
    | Answer(p: nat, yes: bool)
    | Create(p: nat, nonce: Nonce)
    | Stale(p: nat)
    | BreakLock(p: nat)
    | Write(p: nat)
    | ReadLedger(p: nat, now: nat)
    | Publish(p: nat)
    | Fail(p: nat)
    | DropRead(p: nat)
    | DropRemove(p: nat)
    | Crash(p: nat)

  predicate Enabled(w: World, a: Act)
  {
    if a.Begin? then a.p !in w.calls else
    a.p in w.calls &&
    var phase := w.calls[a.p].phase;
    match a
    case Begin(_, _, _, _) => true
    case Lookup(_) => phase.Looking?
    case Answer(_, _) => phase.Asking?
    case Create(_, nonce) => phase.Trying? && w.fs.lock.None? && nonce !in w.used
    case Stale(_) => phase.Trying? && w.fs.lock.Some?
    case BreakLock(_) => phase.Breaking?
    case Write(_) => phase.Created?
    case ReadLedger(_, _) => phase.Held?
    case Publish(_) => phase.Ready?
    case Fail(_) => phase.Looking? || phase.Trying? || phase.Created? || phase.Held? || phase.Ready?
    case DropRead(_) => phase.Dropping?
    case DropRemove(_) => phase.Removing?
    case Crash(_) => !phase.Done?
  }

  /** `authorize` up to the confirmer: only an unknown slug is ever put to a person. */
  function LookedUp(c: Call, pins: Option<Pins>): (r: Phase)
  {
    match pins
    case None => Done(Failed(Malformed))
    case Some(m) =>
      if c.slug !in m then Asking
      else if m[c.slug].endpointId == c.key then Done(Ok)
      else Done(Failed(Changed))
  }

  /** What a call that holds the lock decides once it has read the ledger. */
  function Decide(c: Call, pins: Option<Pins>, now: nat): (r: Phase)
    requires c.phase.Held?
  {
    var Held(ino, nonce) := c.phase;
    match pins
    case None => Dropping(ino, nonce, Failed(Malformed))
    case Some(m) =>
      if c.op.Forget? then
        if c.slug !in m then Dropping(ino, nonce, Removed(false))
        else Ready(ino, nonce, m, m - {c.slug})
      else
        if c.slug !in m then Ready(ino, nonce, m, m[c.slug := Entry(c.key, now)])
        else Dropping(ino, nonce, if m[c.slug].endpointId == c.key then Ok else Failed(Changed))
  }

  function Moved(w: World, a: Act, canon: Canon): (r: Call)
    requires Enabled(w, a)
  {
    if a.Begin? then
      var key := canon(a.offered);
      Call(a.op, a.slug, if key.Some? then key.value else "",
           if a.op.Forget? then Trying
           else if key.None? then Done(Failed(InvalidEndpointId))
           else if a.op.Authorize? then Looking else Trying)
    else
      var c := w.calls[a.p];
      c.(phase := match a
        case Begin(_, _, _, _) => c.phase
        case Lookup(_) => LookedUp(c, Read(w.fs.disk, canon))
        case Answer(_, yes) => if yes then Trying else Done(Failed(Refused))
        case Create(_, nonce) => Created(w.fs.nextIno, nonce)
        case Stale(_) => Breaking
        case BreakLock(_) => Trying
        case Write(_) => Held(c.phase.ino, c.phase.nonce)
        case ReadLedger(_, now) => Decide(c, Read(w.fs.disk, canon), now)
        case Publish(_) =>
          Dropping(c.phase.ino, c.phase.nonce,
                   if !Holds(w.fs, c.phase.nonce) then Failed(Io) else if c.op.Forget? then Removed(true) else Ok)
        case Fail(_) =>
          // A failed nonce write returns before there is a guard to drop: the lock file stays behind.
          if c.phase.Held? || c.phase.Ready? then Dropping(c.phase.ino, c.phase.nonce, Failed(Io)) else Done(Failed(Io))
        case DropRead(_) =>
          if Holds(w.fs, c.phase.nonce) then Removing(c.phase.ino, c.phase.nonce, c.phase.out) else Done(c.phase.out)
        case DropRemove(_) => Done(c.phase.out)
        case Crash(_) => Crashed)
  }

  function Touched(w: World, a: Act): (r: Fs)
    requires Enabled(w, a)
  {
    match a
    case Create(_, _) => CreateNew(w.fs).0
    case BreakLock(_) => Unlink(w.fs)
    case Write(p) => WriteNonce(w.fs, w.calls[p].phase.ino, w.calls[p].phase.nonce)
    case Publish(p) =>
      if Holds(w.fs, w.calls[p].phase.nonce) then w.fs.(disk := Peers(w.calls[p].phase.next)) else w.fs
    case DropRemove(_) => Unlink(w.fs)
    case _ => w.fs
  }

  function Next(w: World, a: Act, canon: Canon): (r: World)
    requires Enabled(w, a)
  {
    World(Touched(w, a),
          w.calls[a.p := Moved(w, a, canon)],
          if a.Create? then w.used + {a.nonce} else w.used,
          if a.Answer? && a.yes then w.accepted + {(w.calls[a.p].slug, w.calls[a.p].key)} else w.accepted)
  }

  // ---------------------------------------------------------------- the invariant

  predicate Owns(phase: Phase)
  {
    phase.Created? || phase.Held? || phase.Ready? || phase.Dropping? || phase.Removing?
  }

  /** Acquisitions are told apart by inode and by nonce. */
  ghost predicate Apart(w: World)
  {
    && (forall p | p in w.calls && Owns(w.calls[p].phase) ::
          w.calls[p].phase.ino < w.fs.nextIno && w.calls[p].phase.nonce in w.used)
    && (forall p, q | p in w.calls && q in w.calls && p != q && Owns(w.calls[p].phase) && Owns(w.calls[q].phase) ::
          w.calls[p].phase.ino != w.calls[q].phase.ino && w.calls[p].phase.nonce != w.calls[q].phase.nonce)
  }

  /** The lock file holds a call's nonce exactly when it is the file that call wrote. */
  ghost predicate Faithful(w: World)
  {
    && (w.fs.lock.Some? ==>
          w.fs.lock.value.ino < w.fs.nextIno && (w.fs.lock.value.text.Some? ==> w.fs.lock.value.text.value in w.used))
    && (w.fs.lock.Some? ==> forall p | p in w.calls && Owns(w.calls[p].phase) ::
          var phase := w.calls[p].phase;
          (w.fs.lock.value.ino == phase.ino ==>
             w.fs.lock.value.text == if phase.Created? then None else Some(phase.nonce))
          && (w.fs.lock.value.text == Some(phase.nonce) ==> w.fs.lock.value.ino == phase.ino))
  }

  /** While the lock still holds a reader's nonce, the ledger is still the one it read. */
  ghost predicate Current(w: World, canon: Canon)
  {
    forall p | p in w.calls && w.calls[p].phase.Ready? && Holds(w.fs, w.calls[p].phase.nonce) ::
      Read(w.fs.disk, canon) == Some(w.calls[p].phase.base)
  }

  /** What a writer is about to publish: what it read, with one slug added or taken away. */
  ghost predicate Planned(c: Call, canon: Canon)
  {
    && (!c.op.Forget? && !c.phase.Done? ==> canon(c.key) == Some(c.key))
    && (c.phase.Looking? || c.phase.Asking? ==> c.op.Authorize?)
    && (c.phase.Ready? ==>
          && Canonical(c.phase.base, canon)
          && if c.op.Forget? then c.phase.next == c.phase.base - {c.slug}
             else c.slug !in c.phase.base && c.slug in c.phase.next
                  && c.phase.next == c.phase.base[c.slug := Entry(c.key, c.phase.next[c.slug].firstSeenMs)])
  }

  ghost predicate Inv(w: World, canon: Canon)
  {
    Apart(w) && Faithful(w) && Current(w, canon)
    && forall p | p in w.calls :: Planned(w.calls[p], canon)
  }

  /** A start: any ledger, and perhaps a lock a dead process left behind. */
  ghost predicate Start(w: World)
  {
    w.calls == map[] && w.accepted == {}
    && (w.fs.lock.Some? ==>
          w.fs.lock.value.ino < w.fs.nextIno && (w.fs.lock.value.text.Some? ==> w.fs.lock.value.text.value in w.used))
  }

  /** A step moves one call, and only `Create` gives it a new acquisition. */
  ghost predicate MovesOne(w: World, a: Act, w': World)
  {
    && w'.calls.Keys == w.calls.Keys + {a.p}
    && w.used <= w'.used && w.fs.nextIno <= w'.fs.nextIno
    && (forall q | q in w.calls && q != a.p :: w'.calls[q] == w.calls[q])
    && (Owns(w'.calls[a.p].phase) ==>
          if a.Create?
          then w'.calls[a.p].phase.ino == w.fs.nextIno < w'.fs.nextIno
               && w'.calls[a.p].phase.nonce !in w.used && w'.calls[a.p].phase.nonce in w'.used
          else a.p in w.calls && Owns(w.calls[a.p].phase)
               && w'.calls[a.p].phase.ino == w.calls[a.p].phase.ino
               && w'.calls[a.p].phase.nonce == w.calls[a.p].phase.nonce)
  }

  lemma Moves(w: World, a: Act, canon: Canon)
    requires Enabled(w, a)
    ensures MovesOne(w, a, Next(w, a, canon))
  {
  }

  lemma StepApart(w: World, a: Act, w': World)
    requires Apart(w) && MovesOne(w, a, w')
    ensures Apart(w')
  {
    forall p, q | p in w'.calls && q in w'.calls && p != q && Owns(w'.calls[p].phase) && Owns(w'.calls[q].phase)
      ensures w'.calls[p].phase.ino != w'.calls[q].phase.ino && w'.calls[p].phase.nonce != w'.calls[q].phase.nonce
    {
      var other := if p == a.p then q else p;
      assert w'.calls[other] == w.calls[other];
    }
  }

  lemma StepFaithful(w: World, a: Act, canon: Canon)
    requires Inv(w, canon) && Enabled(w, a)
    ensures Faithful(Next(w, a, canon))
  {
  }

  lemma StepCurrent(w: World, a: Act, canon: Canon)
    requires Inv(w, canon) && Enabled(w, a)
    ensures Current(Next(w, a, canon), canon)
  {
  }

  lemma StepPlanned(w: World, a: Act, canon: Canon)
    requires Inv(w, canon) && Enabled(w, a) && OneForm(canon)
    ensures forall p | p in Next(w, a, canon).calls :: Planned(Next(w, a, canon).calls[p], canon)
  {
    if a.ReadLedger? && Read(w.fs.disk, canon).Some? { ReadIsCanonical(w.fs.disk, canon); }
  }

  // ---------------------------------------------------------------- every run

  /** A run: worlds joined by enabled steps, from a start. */
  ghost predicate Run(ws: seq<World>, acts: seq<Act>, canon: Canon)
  {
    OneForm(canon) && |ws| == |acts| + 1 && Start(ws[0])
    && forall i :: 0 <= i < |acts| ==> Enabled(ws[i], acts[i]) && ws[i + 1] == Next(ws[i], acts[i], canon)
  }

  lemma {:induction false} RunInv(ws: seq<World>, acts: seq<Act>, canon: Canon, i: nat)
    requires Run(ws, acts, canon) && i < |ws|
    ensures Inv(ws[i], canon)
  {
    if i > 0 {
      RunInv(ws, acts, canon, i - 1);
      Moves(ws[i - 1], acts[i - 1], canon);
      StepApart(ws[i - 1], acts[i - 1], ws[i]);
      StepFaithful(ws[i - 1], acts[i - 1], canon);
      StepCurrent(ws[i - 1], acts[i - 1], canon);
      StepPlanned(ws[i - 1], acts[i - 1], canon);
    }
  }

  /** A call that has written its nonce and not yet let go of the lock. */
  predicate Wrote(phase: Phase, nonce: Nonce)
  {
    (phase.Held? || phase.Ready? || phase.Dropping? || phase.Removing?) && phase.nonce == nonce
  }

  /** A lock with a nonce in it belongs to such a call. */
  ghost predicate Attended(w: World)
  {
    w.fs.lock.Some? && w.fs.lock.value.text.Some? ==>
      exists p :: p in w.calls && Wrote(w.calls[p].phase, w.fs.lock.value.text.value)
  }

  lemma StepAttended(w: World, a: Act, canon: Canon)
    requires Attended(w) && Enabled(w, a) && !a.Crash?
    ensures Attended(Next(w, a, canon))
  {
    var w' := Next(w, a, canon);
    if w'.fs.lock.Some? && w'.fs.lock.value.text.Some? {
      var nonce := w'.fs.lock.value.text.value;
      if w.fs.lock.Some? && w.fs.lock.value.text == Some(nonce) {
        var p :| p in w.calls && Wrote(w.calls[p].phase, nonce);
        assert Wrote(w'.calls[p].phase, nonce);
      } else {
        assert Wrote(w'.calls[a.p].phase, nonce);
      }
    }
  }

  /** Unless a process dies, every call that got as far as its nonce takes its lock away again, however it ends. */
  lemma {:induction false} NoLockIsLeftBehind(ws: seq<World>, acts: seq<Act>, canon: Canon, i: nat)
    requires Run(ws, acts, canon) && i < |ws| && ws[0].fs.lock.None? && forall k :: 0 <= k < i ==> !acts[k].Crash?
    ensures Attended(ws[i])
  {
    if i > 0 {
      NoLockIsLeftBehind(ws, acts, canon, i - 1);
      StepAttended(ws[i - 1], acts[i - 1], canon);
    }
  }

  /**
   A lock file is never taken from one call and given to another: while there is one it stays the same
   file, and only the call that made it writes its nonce into it, once.
   */
  lemma LockStaysItsMakers(ws: seq<World>, acts: seq<Act>, canon: Canon, i: nat)
    requires Run(ws, acts, canon) && i < |acts| && ws[i].fs.lock.Some? && ws[i + 1].fs.lock.Some?
    ensures var was, now := ws[i].fs.lock.value, ws[i + 1].fs.lock.value;
      now == was || (acts[i].Write? && acts[i].p in ws[i].calls && was.text.None?
                     && ws[i].calls[acts[i].p].phase == Created(was.ino, now.text.value) && now == LockFile(was.ino, now.text))
  {
    RunInv(ws, acts, canon, i);
    assert Enabled(ws[i], acts[i]) && ws[i + 1] == Next(ws[i], acts[i], canon);
  }

  /** A call that lets go takes the lock away exactly when it still finds its own nonce there, in the file it made. */
  lemma LetsGoExactlyWhen(ws: seq<World>, acts: seq<Act>, canon: Canon, i: nat)
    requires Run(ws, acts, canon) && i < |acts| && acts[i].DropRead?
    ensures var p := acts[i].p;
      && p in ws[i].calls && p in ws[i + 1].calls && ws[i].calls[p].phase.Dropping?
      && var Dropping(ino, nonce, out) := ws[i].calls[p].phase;
         ws[i + 1].calls[p].phase ==
           if ws[i].fs.lock == Some(LockFile(ino, Some(nonce))) then Removing(ino, nonce, out) else Done(out)
  {
    RunInv(ws, acts, canon, i);
    assert Enabled(ws[i], acts[i]) && ws[i + 1] == Next(ws[i], acts[i], canon);
  }

  /** No step touches a ledger it cannot read. */
  lemma StepLeavesUnreadable(w: World, a: Act, canon: Canon)
    requires Inv(w, canon) && Enabled(w, a) && Unreadable(w.fs.disk, canon)
    ensures Next(w, a, canon).fs.disk == w.fs.disk
  {
    ReadsExactlyWhen(w.fs.disk, canon);
  }

  /** So a ledger that does not parse, or that holds something that is no key, stays exactly as it is. */
  lemma {:induction false} UnreadableStays(ws: seq<World>, acts: seq<Act>, canon: Canon, i: nat, j: nat)
    requires Run(ws, acts, canon) && i <= j < |ws| && Unreadable(ws[i].fs.disk, canon)
    ensures ws[j].fs.disk == ws[i].fs.disk
    decreases j
  {
    if i < j {
      UnreadableStays(ws, acts, canon, i, j - 1);
      RunInv(ws, acts, canon, j - 1);
      StepLeavesUnreadable(ws[j - 1], acts[j - 1], canon);
    }
  }

  /**
   What `authorize` does before it asks anybody: a string that is no key is refused outright; on a ledger
   it can read, a slug pinned to that very key is let in, one pinned to another is reported, and only an
   unknown one is put to a person; a ledger it cannot read is reported.
   */
  lemma LookupAnswers(w: World, a: Act, canon: Canon)
    requires Enabled(w, a)
    ensures a.Begin? && !a.op.Forget? && canon(a.offered).None? ==> Next(w, a, canon).calls[a.p].phase == Done(Failed(InvalidEndpointId))
    ensures a.Begin? && a.op.Authorize? && canon(a.offered).Some? ==>
      Next(w, a, canon).calls[a.p] == Call(Authorize, a.slug, canon(a.offered).value, Looking)
    ensures a.Lookup? ==>
      var disk, c := w.fs.disk, w.calls[a.p];
      Next(w, a, canon).calls[a.p].phase ==
        if Unreadable(disk, canon) then Done(Failed(Malformed))
        else if !(disk.Peers? && c.slug in disk.pins) then Asking
        else if canon(disk.pins[c.slug].endpointId) == Some(c.key) then Done(Ok)
        else Done(Failed(Changed))
    ensures a.Answer? && !a.yes ==> Next(w, a, canon).calls[a.p].phase == Done(Failed(Refused)) && Next(w, a, canon).fs == w.fs
    ensures a.Answer? && a.yes ==> Next(w, a, canon).calls[a.p].phase == Trying
  {
    ReadsExactlyWhen(w.fs.disk, canon);
  }

  /** The step takes `slug` off the ledger on purpose. */
  predicate Forgets(w: World, a: Act, slug: Slug)
  {
    a.Publish? && a.p in w.calls && w.calls[a.p].op.Forget? && w.calls[a.p].slug == slug
  }

  /** One step never loses or changes a pin it was not asked to forget. */
  lemma StepKeepsPin(w: World, a: Act, canon: Canon, slug: Slug)
    requires Inv(w, canon) && Enabled(w, a) && !Forgets(w, a, slug)
    requires Read(w.fs.disk, canon).Some? && slug in Read(w.fs.disk, canon).value
    ensures var now := Read(Next(w, a, canon).fs.disk, canon);
      now.Some? && slug in now.value && now.value[slug] == Read(w.fs.disk, canon).value[slug]
  {
    if a.Publish? && Holds(w.fs, w.calls[a.p].phase.nonce) {
      assert Planned(w.calls[a.p], canon);
      ReadBack(w.calls[a.p].phase.next, canon);
    }
  }

  /**
   No lost or overwritten pin: whatever the other writers do and wherever they crash, a pin that was
   on the ledger is on it later, unchanged, unless a `forget` of that very slug was published.
   */
  lemma {:induction false} NoLostPin(ws: seq<World>, acts: seq<Act>, canon: Canon, i: nat, j: nat, slug: Slug)
    requires Run(ws, acts, canon) && i <= j < |ws|
    requires Read(ws[i].fs.disk, canon).Some? && slug in Read(ws[i].fs.disk, canon).value
    requires forall k :: i <= k < j ==> !Forgets(ws[k], acts[k], slug)
    ensures Read(ws[j].fs.disk, canon).Some? && slug in Read(ws[j].fs.disk, canon).value
    ensures Read(ws[j].fs.disk, canon).value[slug] == Read(ws[i].fs.disk, canon).value[slug]
    decreases j
  {
    if i < j {
      NoLostPin(ws, acts, canon, i, j - 1, slug);
      RunInv(ws, acts, canon, j - 1);
      StepKeepsPin(ws[j - 1], acts[j - 1], canon, slug);
    }
  }

  /** A lock that no longer holds a call's nonce never holds it again. */
  lemma LostForGood(w: World, a: Act, canon: Canon, p: nat)
    requires Inv(w, canon) && Enabled(w, a)
    requires p in w.calls && Owns(w.calls[p].phase) && !w.calls[p].phase.Created?
    requires !Holds(w.fs, w.calls[p].phase.nonce)
    ensures !Holds(Next(w, a, canon).fs, w.calls[p].phase.nonce)
  {
    if a.Write? && a.p != p { assert w.calls[a.p].phase.nonce != w.calls[p].phase.nonce; }
  }

  /** Nobody else publishes while the lock holds a writer's nonce. */
  lemma HeldIsExclusive(w: World, a: Act, canon: Canon, p: nat)
    requires Inv(w, canon) && Enabled(w, a)
    requires p in w.calls && Owns(w.calls[p].phase) && Holds(w.fs, w.calls[p].phase.nonce)
    requires !(a.Publish? && a.p == p)
    ensures Next(w, a, canon).fs.disk == w.fs.disk
  {
    if a.Publish? { assert w.calls[a.p].phase.nonce != w.calls[p].phase.nonce; }
  }

  /** How far along a call is; no step takes it back. */
  function Rank(phase: Phase): nat
  {
    match phase
    case Looking => 0
    case Asking => 1
    case Trying => 2
    case Breaking => 2
    case Created(_, _) => 3
    case Held(_, _) => 4
    case Ready(_, _, _, _) => 5
    case Dropping(_, _, _) => 6
    case Removing(_, _, _) => 7
    case Done(_) => 8
    case Crashed => 8
  }

  /** A call that has read the ledger and is still about to publish has done nothing in between. */
  lemma {:induction false} Waits(ws: seq<World>, acts: seq<Act>, canon: Canon, k: nat, j: nat, p: nat)
    requires Run(ws, acts, canon) && k <= j < |ws|
    requires p in ws[k].calls && Rank(ws[k].calls[p].phase) >= 5
    requires p in ws[j].calls && ws[j].calls[p].phase.Ready?
    ensures forall i :: k <= i <= j ==> p in ws[i].calls && ws[i].calls[p].phase == ws[j].calls[p].phase
    decreases j - k
  {
    if k < j {
      Moves(ws[k], acts[k], canon);
      Waits(ws, acts, canon, k + 1, j, p);
    }
  }

  /**
   A publish happens only if the lock has held that writer's nonce continuously since it read the
   ledger, and the ledger has not changed in between.
   */
  lemma {:induction false} PublishedUnderLock(ws: seq<World>, acts: seq<Act>, canon: Canon, i: nat, j: nat, p: nat)
    requires Run(ws, acts, canon) && i < j < |acts|
    requires acts[i].ReadLedger? && acts[i].p == p
    requires p in ws[j].calls && ws[j].calls[p].phase.Ready? && Holds(ws[j].fs, ws[j].calls[p].phase.nonce)
    ensures forall k :: i < k <= j ==> Holds(ws[k].fs, ws[j].calls[p].phase.nonce)
    ensures forall k :: i <= k <= j ==> ws[k].fs.disk == ws[j].fs.disk
    decreases j - i
  {
    var nonce := ws[j].calls[p].phase.nonce;
    Waits(ws, acts, canon, i + 1, j, p);
    forall k | i < k <= j ensures Holds(ws[k].fs, nonce) {
      StillHeld(ws, acts, canon, k, j, p);
    }
    forall k | i <= k <= j ensures ws[k].fs.disk == ws[j].fs.disk {
      if k == i {
        assert ws[i + 1].fs == ws[i].fs;
        SameDisk(ws, acts, canon, i + 1, j, p);
      } else {
        SameDisk(ws, acts, canon, k, j, p);
      }
    }
  }

  lemma {:induction false} StillHeld(ws: seq<World>, acts: seq<Act>, canon: Canon, k: nat, j: nat, p: nat)
    requires Run(ws, acts, canon) && k <= j < |ws|
    requires p in ws[j].calls
    requires forall i :: k <= i <= j ==> p in ws[i].calls && ws[i].calls[p].phase == ws[j].calls[p].phase
    requires ws[j].calls[p].phase.Ready? && Holds(ws[j].fs, ws[j].calls[p].phase.nonce)
    ensures Holds(ws[k].fs, ws[j].calls[p].phase.nonce)
    decreases j - k
  {
    if k < j {
      StillHeld(ws, acts, canon, k + 1, j, p);
      if !Holds(ws[k].fs, ws[j].calls[p].phase.nonce) {
        RunInv(ws, acts, canon, k);
        LostForGood(ws[k], acts[k], canon, p);
      }
    }
  }

  lemma {:induction false} SameDisk(ws: seq<World>, acts: seq<Act>, canon: Canon, k: nat, j: nat, p: nat)
    requires Run(ws, acts, canon) && k <= j < |ws|
    requires p in ws[j].calls
    requires forall i :: k <= i <= j ==> p in ws[i].calls && ws[i].calls[p].phase == ws[j].calls[p].phase
    requires ws[j].calls[p].phase.Ready? && Holds(ws[j].fs, ws[j].calls[p].phase.nonce)
    ensures ws[k].fs.disk == ws[j].fs.disk
    decreases j - k
  {
    if k < j {
      SameDisk(ws, acts, canon, k + 1, j, p);
      StillHeld(ws, acts, canon, k, j, p);
      RunInv(ws, acts, canon, k);
      assert ws[k + 1].calls[p].phase.Ready?;
      HeldIsExclusive(ws[k], acts[k], canon, p);
    }
  }

  // ---------------------------------------------------------------- trust

  /** The call has settled on `Ok` for its slug and key. */
  predicate Trusts(c: Call)
  {
    !c.op.Forget? && (c.phase.Dropping? || c.phase.Removing? || c.phase.Done?) && c.phase.out.Ok?
  }

  predicate PinnedTo(disk: Disk, canon: Canon, slug: Slug, key: string)
  {
    Read(disk, canon).Some? && slug in Read(disk, canon).value && Read(disk, canon).value[slug].endpointId == key
  }

  /** Nobody calls `forget`. */
  ghost predicate NoForget(acts: seq<Act>)
  {
    forall i :: 0 <= i < |acts| ==> !(acts[i].Begin? && acts[i].op.Forget?)
  }

  ghost predicate AllKeep(w: World)
  {
    forall p | p in w.calls :: !w.calls[p].op.Forget?
  }

  /** Every trusted call's key is the one on the ledger now. */
  ghost predicate Agreed(w: World, canon: Canon)
  {
    forall p | p in w.calls && Trusts(w.calls[p]) :: PinnedTo(w.fs.disk, canon, w.calls[p].slug, w.calls[p].key)
  }

  /** A call that settles on `Ok` in this step leaves its key on the ledger. */
  lemma SettlesPinned(w: World, a: Act, canon: Canon)
    requires Inv(w, canon) && Enabled(w, a)
    requires !(a.p in w.calls && Trusts(w.calls[a.p])) && Trusts(Next(w, a, canon).calls[a.p])
    ensures var c := Next(w, a, canon).calls[a.p]; PinnedTo(Next(w, a, canon).fs.disk, canon, c.slug, c.key)
  {
    if a.Publish? {
      assert Planned(w.calls[a.p], canon);
      ReadBack(w.calls[a.p].phase.next, canon);
    }
  }

  lemma StepAgreed(w: World, a: Act, canon: Canon)
    requires Inv(w, canon) && Enabled(w, a) && AllKeep(w) && Agreed(w, canon)
    requires !(a.Begin? && a.op.Forget?)
    ensures AllKeep(Next(w, a, canon)) && Agreed(Next(w, a, canon), canon)
  {
    var w' := Next(w, a, canon);
    Moves(w, a, canon);
    assert a.p in w.calls ==> w'.calls[a.p].(phase := Crashed) == w.calls[a.p].(phase := Crashed);
    forall p | p in w'.calls && Trusts(w'.calls[p])
      ensures PinnedTo(w'.fs.disk, canon, w'.calls[p].slug, w'.calls[p].key)
    {
      if p in w.calls && Trusts(w.calls[p]) {
        StepKeepsPin(w, a, canon, w.calls[p].slug);
      } else {
        SettlesPinned(w, a, canon);
      }
    }
  }

  lemma {:induction false} RunAgreed(ws: seq<World>, acts: seq<Act>, canon: Canon, i: nat)
    requires Run(ws, acts, canon) && NoForget(acts) && i < |ws|
    ensures AllKeep(ws[i]) && Agreed(ws[i], canon)
  {
    if i > 0 {
      RunAgreed(ws, acts, canon, i - 1);
      RunInv(ws, acts, canon, i - 1);
      StepAgreed(ws[i - 1], acts[i - 1], canon);
    }
  }

  /**
   All trusted callers agree: in a run without `forget`, any two calls that returned `Ok` for one
   slug, at any two moments, did so for the same key, even with different keys being confirmed at once.
   */
  lemma TrustedCallersAgree(ws: seq<World>, acts: seq<Act>, canon: Canon, i: nat, j: nat, p: nat, q: nat)
    requires Run(ws, acts, canon) && NoForget(acts) && i <= j < |ws|
    requires p in ws[i].calls && q in ws[j].calls && Trusts(ws[i].calls[p]) && Trusts(ws[j].calls[q])
    requires ws[i].calls[p].slug == ws[j].calls[q].slug
    ensures ws[i].calls[p].key == ws[j].calls[q].key
  {
    RunAgreed(ws, acts, canon, i);
    RunAgreed(ws, acts, canon, j);
    forall k | i <= k < j ensures !Forgets(ws[k], acts[k], ws[i].calls[p].slug) {
      RunAgreed(ws, acts, canon, k);
    }
    NoLostPin(ws, acts, canon, i, j, ws[i].calls[p].slug);
  }

  /** A key offered for a slug that is already pinned never reaches the confirmer. */
  lemma OnlyUnknownSlugsAreAsked(ws: seq<World>, acts: seq<Act>, canon: Canon, i: nat, j: nat)
    requires Run(ws, acts, canon) && NoForget(acts) && i <= j < |acts|
    requires acts[j].Lookup? && ws[j + 1].calls[acts[j].p].phase.Asking?
    ensures var seen := Read(ws[i].fs.disk, canon); seen.Some? ==> ws[j].calls[acts[j].p].slug !in seen.value
  {
    var slug := ws[j].calls[acts[j].p].slug;
    var seen := Read(ws[i].fs.disk, canon);
    if seen.Some? && slug in seen.value {
      forall k | i <= k < j ensures !Forgets(ws[k], acts[k], slug) {
        RunAgreed(ws, acts, canon, k);
      }
      NoLostPin(ws, acts, canon, i, j, slug);
    }
  }

  /** Every call past the confirmer was accepted. */
  ghost predicate AskedFirst(w: World)
  {
    forall p | p in w.calls ::
      var c := w.calls[p];
      c.op.Authorize?
      && (!c.phase.Looking? && !c.phase.Asking? && !c.phase.Done? && !c.phase.Crashed? ==>
            (c.slug, c.key) in w.accepted)
  }

  /** Every pin was accepted or was there from the start. */
  ghost predicate Vouched(w: World, start: Disk, canon: Canon)
  {
    forall slug, key | PinnedTo(w.fs.disk, canon, slug, key) ::
      (slug, key) in w.accepted || PinnedTo(start, canon, slug, key)
  }

  lemma StepAskedFirst(w: World, a: Act, canon: Canon)
    requires Enabled(w, a) && AskedFirst(w) && (a.Begin? ==> a.op.Authorize?)
    ensures AskedFirst(Next(w, a, canon))
  {
  }

  lemma StepVouched(w: World, a: Act, start: Disk, canon: Canon)
    requires Inv(w, canon) && Enabled(w, a) && AskedFirst(w) && Vouched(w, start, canon)
    ensures Vouched(Next(w, a, canon), start, canon)
  {
    var w' := Next(w, a, canon);
    if a.Publish? && Holds(w.fs, w.calls[a.p].phase.nonce) {
      assert Planned(w.calls[a.p], canon);
      ReadBack(w.calls[a.p].phase.next, canon);
      forall slug, key | PinnedTo(w'.fs.disk, canon, slug, key)
        ensures (slug, key) in w'.accepted || PinnedTo(start, canon, slug, key)
      {
        if slug != w.calls[a.p].slug { assert PinnedTo(w.fs.disk, canon, slug, key); }
      }
    } else {
      assert w'.fs.disk == w.fs.disk && w.accepted <= w'.accepted;
    }
  }

  /** With `authorize` the only writer, nothing is pinned unless a confirmer accepted that very key. */
  lemma {:induction false} PinnedOnlyIfConfirmed(ws: seq<World>, acts: seq<Act>, canon: Canon, i: nat)
    requires Run(ws, acts, canon) && i < |ws|
    requires forall k :: 0 <= k < |acts| && acts[k].Begin? ==> acts[k].op.Authorize?
    ensures AskedFirst(ws[i]) && Vouched(ws[i], ws[0].fs.disk, canon)
  {
    if i > 0 {
      PinnedOnlyIfConfirmed(ws, acts, canon, i - 1);
      RunInv(ws, acts, canon, i - 1);
      StepAskedFirst(ws[i - 1], acts[i - 1], canon);
      StepVouched(ws[i - 1], acts[i - 1], ws[0].fs.disk, canon);
    }
  }

  // ---------------------------------------------------------------- one call with nobody in its way

  const STALE_MS: nat := 60_000
  const RETRY_MS: nat := 20

  /** The lock is got at once, or by breaking one that has become stale before the last try. */
  predicate Gets(fs: Fs, age: nat, retries: nat)
  {
    fs.lock.None? || (retries > 0 && age + 20 * (retries - 1) >= 60_000)
  }

  /** The lock file as its new owner leaves it. */
  function Locked(fs: Fs, nonce: Nonce): Fs
  {
    fs.(lock := Some(LockFile(fs.nextIno, Some(nonce))), nextIno := fs.nextIno + 1)
  }

  /** What pinning or forgetting leaves of the files, and says. */
  function Transacted(fs: Fs, op: Op, slug: Slug, key: string, nonce: Nonce, now: nat, got: bool, canon: Canon): (r: (Fs, Outcome))
  {
    if !got then (fs, Failed(Io)) else
    var plan := Decide(Call(op, slug, key, Held(fs.nextIno, nonce)), Read(fs.disk, canon), now);
    if plan.Ready? then (Fs(Peers(plan.next), None, fs.nextIno + 1), if op.Forget? then Removed(true) else Ok)
    else (Fs(fs.disk, None, fs.nextIno + 1), plan.out)
  }

  /** The run goes on by steps of call `p` alone. */
  ghost predicate GoesOn(ws: seq<World>, acts: seq<Act>, ws': seq<World>, acts': seq<Act>, p: nat)
  {
    ws <= ws' && acts <= acts' && forall k :: |acts| <= k < |acts'| ==> acts'[k].p == p
  }

  /** Call `p` stands at `phase`, and the files are `fs`. */
  ghost predicate Stands(w: World, p: nat, op: Op, slug: Slug, key: string, phase: Phase, fs: Fs)
  {
    w.fs == fs && p in w.calls && w.calls[p] == Call(op, slug, key, phase)
  }

  lemma RunMore(ws: seq<World>, acts: seq<Act>, a: Act, canon: Canon)
    requires Run(ws, acts, canon) && Enabled(ws[|acts|], a)
    ensures Run(ws + [Next(ws[|acts|], a, canon)], acts + [a], canon)
  {
    var ws', acts' := ws + [Next(ws[|acts|], a, canon)], acts + [a];
    forall i | 0 <= i < |acts'| ensures Enabled(ws'[i], acts'[i]) && ws'[i + 1] == Next(ws'[i], acts'[i], canon) {
      if i < |acts| { assert acts'[i] == acts[i] && ws'[i] == ws[i] && ws'[i + 1] == ws[i + 1]; }
    }
  }

  /** One step of call `p` takes it from where it stands to `phase`. */
  lemma StepOn(was: seq<World>, done: seq<Act>, ws: seq<World>, acts: seq<Act>, a: Act, canon: Canon, call: Call, fs: Fs)
    returns (ws': seq<World>, acts': seq<Act>)
    requires Run(ws, acts, canon) && GoesOn(was, done, ws, acts, a.p) && Enabled(ws[|acts|], a)
    requires Moved(ws[|acts|], a, canon) == call && Touched(ws[|acts|], a) == fs
    ensures Run(ws', acts', canon) && GoesOn(was, done, ws', acts', a.p)
    ensures Stands(ws'[|acts'|], a.p, call.op, call.slug, call.key, call.phase, fs)
    ensures ws'[|acts'|].used == if a.Create? then ws[|acts|].used + {a.nonce} else ws[|acts|].used
  {
    RunMore(ws, acts, a, canon);
    ws', acts' := ws + [Next(ws[|acts|], a, canon)], acts + [a];
    assert ws'[|acts'|] == Next(ws[|acts|], a, canon);
  }

  /** The way to the lock is clear, if need be by breaking what is there. */
  lemma ClearsTheWay(was: seq<World>, done: seq<Act>, ws: seq<World>, acts: seq<Act>, canon: Canon, p: nat, call: Call, fs: Fs)
    returns (ws': seq<World>, acts': seq<Act>)
    requires Run(ws, acts, canon) && GoesOn(was, done, ws, acts, p) && call.phase.Trying?
    requires Stands(ws[|acts|], p, call.op, call.slug, call.key, Trying, fs)
    ensures Run(ws', acts', canon) && GoesOn(was, done, ws', acts', p) && ws'[|acts'|].used == ws[|acts|].used
    ensures Stands(ws'[|acts'|], p, call.op, call.slug, call.key, Trying, Unlink(fs))
  {
    ws', acts' := ws, acts;
    if fs.lock.Some? {
      ws', acts' := StepOn(was, done, ws', acts', Stale(p), canon, call.(phase := Breaking), fs);
      ws', acts' := StepOn(was, done, ws', acts', BreakLock(p), canon, call.(phase := Trying), Unlink(fs));
    }
  }

  /** From an offer to the lock file with its nonce in it. */
  lemma LocksUp(ws: seq<World>, acts: seq<Act>, canon: Canon, p: nat, op: Op, slug: Slug, offered: string, key: string, nonce: Nonce)
    returns (ws': seq<World>, acts': seq<Act>)
    requires Run(ws, acts, canon) && p !in ws[|acts|].calls && nonce !in ws[|acts|].used
    requires !op.Authorize? && (op.Pin? ==> canon(offered).Some?) && key == if canon(offered).Some? then canon(offered).value else ""
    ensures Run(ws', acts', canon) && GoesOn(ws, acts, ws', acts', p)
    ensures var fs := ws[|acts|].fs; Stands(ws'[|acts'|], p, op, slug, key, Held(fs.nextIno, nonce), Locked(fs, nonce))
  {
    var fs, call := ws[|acts|].fs, Call(op, slug, key, Trying);
    ws', acts' := StepOn(ws, acts, ws, acts, Begin(p, op, slug, offered), canon, call, fs);
    ws', acts' := ClearsTheWay(ws, acts, ws', acts', canon, p, call, fs);
    var empty := CreateNew(Unlink(fs)).0;
    ws', acts' := StepOn(ws, acts, ws', acts', Create(p, nonce), canon, call.(phase := Created(fs.nextIno, nonce)), empty);
    ws', acts' := StepOn(ws, acts, ws', acts', Write(p), canon, call.(phase := Held(fs.nextIno, nonce)), Locked(fs, nonce));
  }

  /** From the lock to the end of the call. */
  lemma Settles(was: seq<World>, done: seq<Act>, ws: seq<World>, acts: seq<Act>, canon: Canon, p: nat, call: Call, fs: Fs, now: nat)
    returns (ws': seq<World>, acts': seq<Act>)
    requires Run(ws, acts, canon) && GoesOn(was, done, ws, acts, p) && call.phase.Held? && call.phase.ino == fs.nextIno
    requires Stands(ws[|acts|], p, call.op, call.slug, call.key, call.phase, Locked(fs, call.phase.nonce))
    ensures Run(ws', acts', canon) && GoesOn(was, done, ws', acts', p)
    ensures var (fs', out) := Transacted(fs, call.op, call.slug, call.key, call.phase.nonce, now, true, canon);
      Stands(ws'[|acts'|], p, call.op, call.slug, call.key, Done(out), fs')
  {
    var Held(ino, nonce) := call.phase;
    var locked, plan := Locked(fs, nonce), Decide(call, Read(fs.disk, canon), now);
    var out := if plan.Dropping? then plan.out else if call.op.Forget? then Removed(true) else Ok;
    ws', acts' := StepOn(was, done, ws, acts, ReadLedger(p, now), canon, call.(phase := plan), locked);
    if plan.Ready? {
      locked := locked.(disk := Peers(plan.next));
      ws', acts' := StepOn(was, done, ws', acts', Publish(p), canon, call.(phase := Dropping(ino, nonce, out)), locked);
    }
    ws', acts' := StepOn(was, done, ws', acts', DropRead(p), canon, call.(phase := Removing(ino, nonce, out)), locked);
    ws', acts' := StepOn(was, done, ws', acts', DropRemove(p), canon, call.(phase := Done(out)), Unlink(locked));
  }

  /**
   Pinning or forgetting, as one process does it from start to end, is a run of the steps above: from any
   state a run has reached, it can go on by the call's own steps to exactly the files and the answer.
   */
  lemma ACallIsARun(ws: seq<World>, acts: seq<Act>, canon: Canon, p: nat, op: Op, slug: Slug, offered: string,
                    nonce: Nonce, now: nat, got: bool) returns (ws': seq<World>, acts': seq<Act>)
    requires Run(ws, acts, canon) && p !in ws[|acts|].calls && nonce !in ws[|acts|].used
    requires !op.Authorize? && (op.Pin? ==> canon(offered).Some?)
    ensures Run(ws', acts', canon) && GoesOn(ws, acts, ws', acts', p)
    ensures var key := if canon(offered).Some? then canon(offered).value else "";
      var (fs', out) := Transacted(ws[|acts|].fs, op, slug, key, nonce, now, got, canon);
      Stands(ws'[|acts'|], p, op, slug, key, Done(out), fs')
  {
    var key := if canon(offered).Some? then canon(offered).value else "";
    if got {
      var ws1, acts1 := LocksUp(ws, acts, canon, p, op, slug, offered, key, nonce);
      ws', acts' := Settles(ws, acts, ws1, acts1, canon, p, Call(op, slug, key, Held(ws[|acts|].fs.nextIno, nonce)), ws[|acts|].fs, now);
    } else {
      var call, fs := Call(op, slug, key, Trying), ws[|acts|].fs;
      ws', acts' := StepOn(ws, acts, ws, acts, Begin(p, op, slug, offered), canon, call, fs);
      ws', acts' := StepOn(ws, acts, ws', acts', Fail(p), canon, call.(phase := Done(Failed(Io))), fs);
    }
  }

  /** The store as one process drives it while no other does. */
  class TofuStore {
    var fs: Fs
    const canon: Canon

    constructor (fs: Fs, canon: Canon)
      ensures this.fs == fs && this.canon == canon
    {
      this.fs := fs;
      this.canon := canon;
    }

    /**
     `acquire_lock_file`: `age` is how old a lock already there is, `retries` how many times the
     loop may still go round before its deadline.
     */
    method AcquireLockFile(nonce: Nonce, age: nat, retries: nat) returns (ino: Option<nat>)
      modifies this`fs
      ensures ino.Some? <==> Gets(old(fs), age, retries)
      ensures ino.Some? ==> ino.value == old(fs.nextIno) && fs == Locked(old(fs), nonce)
      ensures ino.None? ==> fs == old(fs)
    {
      var left: nat, now: nat := retries, age;
      var broken := false;
      while true
        invariant left <= retries && (broken ==> fs == Unlink(old(fs)) && left < retries)
        invariant !broken ==> fs == old(fs) && now == age + RETRY_MS * (retries - left)
        invariant !broken && left < retries ==> old(fs.lock).Some? && now - RETRY_MS < STALE_MS
        invariant broken ==> age + RETRY_MS * (retries - left - 1) >= STALE_MS
        decreases left, !broken
      {
        var made := CreateNew(fs);
        if made.1.Some? {
          fs := WriteNonce(made.0, made.1.value, nonce);
          return made.1;
        }
        if left == 0 { return None; }
        left := left - 1;
        if now >= STALE_MS {
          fs := Unlink(fs);
          broken := true;
        } else {
          now := now + RETRY_MS;
        }
      }
    }

    /** `LockFile::drop`. */
    method DropLock(nonce: Nonce)
      modifies this`fs
      ensures fs == if Holds(old(fs), nonce) then Unlink(old(fs)) else old(fs)
    {
      if Holds(fs, nonce) { fs := Unlink(fs); }
    }

    /** Read, decide, and publish under the lock; the body `pin_preapproved` and `forget` share. */
    method Transact(op: Op, slug: Slug, key: string, nonce: Nonce, now: nat, age: nat, retries: nat)
        returns (out: Outcome)
      modifies this`fs
      ensures (fs, out) == Transacted(old(fs), op, slug, key, nonce, now, Gets(old(fs), age, retries), canon)
    {
      var ino := AcquireLockFile(nonce, age, retries);
      if ino.None? { return Failed(Io); }
      var plan := Decide(Call(op, slug, key, Held(ino.value, nonce)), Read(fs.disk, canon), now);
      if plan.Ready? {
        if Holds(fs, nonce) {
          fs := fs.(disk := Peers(plan.next));
          out := if op.Forget? then Removed(true) else Ok;
        } else {
          out := Failed(Io);
        }
      } else {
        out := plan.out;
      }
      DropLock(nonce);
    }

    /** Pins the first key seen; never overwrites, and reports a different key as a change. */
    method PinPreapproved(slug: Slug, offered: string, nonce: Nonce, now: nat, age: nat, retries: nat)
        returns (out: Outcome)
      requires OneForm(canon)
      modifies this`fs
      ensures canon(offered).None? ==> out == Failed(InvalidEndpointId) && fs == old(fs)
      ensures canon(offered).Some? ==>
        var disk := old(fs.disk);
        out == if !Gets(old(fs), age, retries) then Failed(Io)
               else if Unreadable(disk, canon) then Failed(Malformed)
               else if disk.Peers? && slug in disk.pins && canon(disk.pins[slug].endpointId) != canon(offered) then Failed(Changed)
               else Ok
      ensures out.Ok? ==>
        var disk := old(fs.disk);
        if disk.Peers? && slug in disk.pins then fs.disk == disk
        else fs.disk.Peers? && slug in fs.disk.pins && fs.disk.pins[slug] == Entry(canon(offered).value, now)
             && SameBut(if disk.Peers? then disk.pins else map[], fs.disk.pins, slug, canon)
      ensures out.Ok? ==> canon(offered).Some? && PinnedTo(fs.disk, canon, slug, canon(offered).value)
      ensures out == Failed(Changed) ==>
        && canon(offered).Some? && Read(fs.disk, canon).Some? && slug in Read(fs.disk, canon).value
        && Read(fs.disk, canon).value[slug].endpointId != canon(offered).value
      ensures out.Failed? ==> fs.disk == old(fs.disk)
      ensures out != Failed(Io) && canon(offered).Some? ==> fs.lock.None?
      ensures out.Ok? && Read(old(fs.disk), canon).Some? ==>
        && Read(fs.disk, canon).Some?
        && Read(fs.disk, canon).value - {slug} == Read(old(fs.disk), canon).value - {slug}
        && (slug in Read(old(fs.disk), canon).value ==> fs.disk == old(fs.disk))
    {
      var key := canon(offered);
      if key.None? { return Failed(InvalidEndpointId); }
      ReadsExactlyWhen(fs.disk, canon);
      out := Transact(Pin, slug, key.value, nonce, now, age, retries);
      ghost var before := Read(old(fs.disk), canon);
      assert canon(key.value) == key;
      if before.Some? {
        ReadIsCanonical(old(fs.disk), canon);
        if slug !in before.value && out.Ok? {
          var next := before.value[slug := Entry(key.value, now)];
          ReadBack(next, canon);
          assert next - {slug} == before.value - {slug};
        }
      }
    }

    /** Takes a pin off, and says whether there was one. */
    method ForgetPin(slug: Slug, nonce: Nonce, age: nat, retries: nat) returns (out: Outcome)
      requires OneForm(canon)
      modifies this`fs
      ensures var disk := old(fs.disk);
        out == if !Gets(old(fs), age, retries) then Failed(Io)
               else if Unreadable(disk, canon) then Failed(Malformed)
               else Removed(disk.Peers? && slug in disk.pins)
      ensures out == Removed(false) ==> fs.disk == old(fs.disk)
      ensures out == Removed(true) ==>
        fs.disk.Peers? && slug !in fs.disk.pins && old(fs.disk).Peers? && SameBut(old(fs.disk).pins, fs.disk.pins, slug, canon)
      ensures out.Failed? ==> fs.disk == old(fs.disk)
      ensures out == Failed(Io) ==> fs == old(fs)
      ensures out != Failed(Io) ==> fs.lock.None?
      ensures out.Removed? ==> Read(fs.disk, canon) == Some(Read(old(fs.disk), canon).value - {slug})
    {
      ReadsExactlyWhen(fs.disk, canon);
      out := Transact(Forget, slug, "", nonce, 0, age, retries);
      ghost var before := Read(old(fs.disk), canon);
      if before.Some? {
        ReadIsCanonical(old(fs.disk), canon);
        ReadBack(before.value - {slug}, canon);
        if slug !in before.value { assert before.value - {slug} == before.value; }
      }
    }
  }
}
