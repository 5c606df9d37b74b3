/**
 Receiving offered files: any number of calls at once, each of which may be interrupted at any point,
 resume from what an earlier one left, and publish by rename.

 Files are byte sequences and each write is atomic.  Destinations and part files are names in one
 directory; a part file is named from its destination and the transfer id.
 */
module Receive {
  import opened Base

  type Path = string

  /** Names a part file from a destination and a transfer id, and never like the destination itself. */
  type Naming = f: (string, string) -> Path | forall name, id :: f(name, id) != name
    witness (name: string, id: string) => name + "."

  datatype Offer = Offer(id: string, name: string, size: nat, sha: string, overwrite: bool)

  /** The digest of a file, and how part files are named. */
  datatype Env = Env(sha: seq<byte> -> string, part: Naming)

  type Files = map<Path, seq<byte>>

  function PartOf(o: Offer, env: Env): Path
  {
    env.part(o.name, o.id)
  }

  function Dest(name: string): Path
  {
    name
  }

  function LengthOf(files: Files, p: Path): nat
  {
    if p in files then |files[p]| else 0
  }

  /** Where to resume: after the leftover, unless it is longer than what is offered. */
  function ResumeAt(files: Files, o: Offer, env: Env): (n: nat)
    ensures n <= o.size
  {
    var n := LengthOf(files, PartOf(o, env));
    if n > o.size then 0 else n
  }

  // ---------------------------------------------------------------- the steps of a call

  datatype Phase = Started | Looked | Measured | Reread | Writing | Sealed | Weighed | Cleared | Done | Failed

  /** `hashed` is what went into the hasher and `written` the count of bytes, leftover included. */
  datatype Call = Call(offer: Offer, phase: Phase, offset: nat, hashed: seq<byte>, written: nat)

  datatype World = World(files: Files, claims: set<string>, calls: map<nat, Call>)

  datatype Act =
    | Begin(c: nat, offer: Offer)
    | Look(c: nat)
    | Measure(c: nat)
    | Rehash(c: nat)
    | Open(c: nat)
    | Write(c: nat, bytes: seq<byte>)
    | Break(c: nat)                       // the stream or the disk failed; the part file stays
    | Seal(c: nat)                        // the stream ended
    | Weigh(c: nat)
    | LookAgain(c: nat)
    | Publish(c: nat)
    | End(c: nat)
    | Crash

  predicate At(w: World, c: nat, phase: Phase)
  {
    c in w.calls && w.calls[c].phase == phase
  }

  predicate Enabled(w: World, a: Act)
  {
    match a
    case Begin(c, o) => c !in w.calls && o.id !in w.claims
    case Look(c) => At(w, c, Started)
    case Measure(c) => At(w, c, Looked)
    case Rehash(c) => At(w, c, Measured)
    case Open(c) => At(w, c, Reread)
    case Write(c, _) => At(w, c, Writing)
    case Break(c) => c in w.calls && w.calls[c].phase != Done
    case Seal(c) => At(w, c, Writing)
    case Weigh(c) => At(w, c, Sealed)
    case LookAgain(c) => At(w, c, Weighed)
    case Publish(c) => At(w, c, Cleared)
    case End(c) => At(w, c, Done) || At(w, c, Failed)
    case Crash => true
  }

  /** What a step does to its own call, and to its own part file and destination. */
  function Moved(call: Call, files: Files, a: Act, env: Env): (r: (Call, Files))
  {
    var part, dest := PartOf(call.offer, env), Dest(call.offer.name);
    var bytes := if part in files then files[part] else [];
    var taken := dest in files && !call.offer.overwrite;
    match a
    case Look(_) => (call.(phase := if taken then Failed else Looked), files)
    case Measure(_) => (call.(phase := Measured, offset := ResumeAt(files, call.offer, env)), files)
    case Rehash(_) => (call.(phase := Reread, hashed := if call.offset > 0 then bytes else []), files)
    case Open(_) =>
      (call.(phase := Writing, written := call.offset), if call.offset > 0 then files else files[part := []])
    case Write(_, x) =>
      if call.written + |x| > call.offer.size then (call.(phase := Failed), files - {part})
      else (call.(hashed := call.hashed + x, written := call.written + |x|), files[part := bytes + x])
    case Seal(_) =>
      if env.sha(call.hashed) == call.offer.sha then (call.(phase := Sealed), files)
      else (call.(phase := Failed), files - {part})
    case Weigh(_) =>
      if LengthOf(files, part) == call.offer.size then (call.(phase := Weighed), files)
      else (call.(phase := Failed), files - {part})
    case LookAgain(_) => if taken then (call.(phase := Failed), files - {part}) else (call.(phase := Cleared), files)
    case Publish(_) => (call.(phase := Done), (files - {part})[dest := bytes])
    case _ => (call.(phase := Failed), files)
  }

  function Next(w: World, a: Act, env: Env): (r: World)
    requires Enabled(w, a)
  {
    match a
    case Begin(c, o) => w.(claims := w.claims + {o.id}, calls := w.calls[c := Call(o, Started, 0, [], 0)])
    case End(c) => w.(claims := w.claims - {w.calls[c].offer.id}, calls := w.calls - {c})
    case Crash => World(w.files, {}, map[])
    case _ =>
      var (call, files) := Moved(w.calls[a.c], w.files, a, env);
      w.(files := files, calls := w.calls[a.c := call])
  }

  // ---------------------------------------------------------------- the invariant

  /** What the hasher saw is what is on disk. */
  ghost predicate CallInv(call: Call, files: Files, env: Env)
  {
    var part := PartOf(call.offer, env);
    && (call.phase.Measured? || call.phase.Reread? ==> call.offset == ResumeAt(files, call.offer, env))
    && (call.phase.Reread? ==> call.hashed == if call.offset > 0 then files[part] else [])
    && (call.phase.Writing? || call.phase.Sealed? || call.phase.Weighed? || call.phase.Cleared? ==>
          part in files && files[part] == call.hashed && call.written == |call.hashed|)
    && (call.phase.Sealed? || call.phase.Weighed? || call.phase.Cleared? ==> env.sha(call.hashed) == call.offer.sha)
    && (call.phase.Weighed? || call.phase.Cleared? ==> |call.hashed| == call.offer.size)
  }

  /** Every live call holds the claim on its id, and no two hold one. */
  ghost predicate Claimed(w: World)
  {
    && (forall c | c in w.calls :: w.calls[c].offer.id in w.claims)
    && (forall c, d | c in w.calls && d in w.calls && c != d :: w.calls[c].offer.id != w.calls[d].offer.id)
  }

  ghost predicate Inv(w: World, env: Env)
  {
    Claimed(w) && forall c | c in w.calls :: CallInv(w.calls[c], w.files, env)
  }

  /** The two do not share a part file, and `a` is not published onto the part file of `b`. */
  predicate Distinct(a: Offer, b: Offer, env: Env)
  {
    PartOf(a, env) != PartOf(b, env) && Dest(a.name) != PartOf(b, env)
  }

  /** No two live calls write one part file, and none publishes onto one. */
  ghost predicate PartsApart(w: World, env: Env)
  {
    forall c, d | c in w.calls && d in w.calls && c != d :: Distinct(w.calls[c].offer, w.calls[d].offer, env)
  }

  predicate OwnAct(a: Act)
  {
    !a.Begin? && !a.End? && !a.Crash?
  }

  /** A call's own step keeps what its hasher saw and its part file the same. */
  lemma OwnStep(call: Call, files: Files, a: Act, env: Env)
    requires CallInv(call, files, env) && OwnAct(a)
    requires match a
             case Look(_) => call.phase.Started?
             case Measure(_) => call.phase.Looked?
             case Rehash(_) => call.phase.Measured?
             case Open(_) => call.phase.Reread?
             case Write(_, _) => call.phase.Writing?
             case Seal(_) => call.phase.Writing?
             case Weigh(_) => call.phase.Sealed?
             case LookAgain(_) => call.phase.Weighed?
             case Publish(_) => call.phase.Cleared?
             case _ => true
    ensures var (call', files') := Moved(call, files, a, env);
      && call'.offer == call.offer && CallInv(call', files', env)
      && Touched(files, files', call.offer, env)
  {
  }

  /** Only the call's own part file and destination change. */
  ghost predicate Touched(files: Files, files': Files, o: Offer, env: Env)
  {
    forall p: Path | p != PartOf(o, env) && p != Dest(o.name) ::
      (p in files <==> p in files') && (p in files ==> files[p] == files'[p])
  }

  lemma OthersKeep(call: Call, files: Files, files': Files, o: Offer, env: Env)
    requires CallInv(call, files, env) && Touched(files, files', o, env) && Distinct(o, call.offer, env)
    ensures CallInv(call, files', env)
  {
  }

  lemma StepInv(w: World, a: Act, env: Env)
    requires Inv(w, env) && PartsApart(w, env) && Enabled(w, a)
    ensures Inv(Next(w, a, env), env)
  {
    StepClaimed(w, a, env);
    if OwnAct(a) { OwnCalls(w, a, env); }
  }

  lemma StepClaimed(w: World, a: Act, env: Env)
    requires Claimed(w) && Enabled(w, a)
    ensures Claimed(Next(w, a, env))
  {
    if OwnAct(a) { OwnKeepsOffers(w, a, env); }
  }

  lemma OwnKeepsOffers(w: World, a: Act, env: Env)
    requires OwnAct(a) && Enabled(w, a)
    ensures var w' := Next(w, a, env);
      w'.claims == w.claims && w'.calls.Keys == w.calls.Keys && forall c | c in w.calls :: w'.calls[c].offer == w.calls[c].offer
  {
  }

  lemma OwnCalls(w: World, a: Act, env: Env)
    requires Inv(w, env) && PartsApart(w, env) && OwnAct(a) && Enabled(w, a)
    ensures forall d | d in Next(w, a, env).calls :: CallInv(Next(w, a, env).calls[d], Next(w, a, env).files, env)
  {
    var w', mine := Next(w, a, env), w.calls[a.c];
    OwnStep(mine, w.files, a, env);
    forall d | d in w'.calls ensures CallInv(w'.calls[d], w'.files, env) {
      if d != a.c { OthersKeep(w.calls[d], w.files, w'.files, mine.offer, env); }
    }
  }

  // ---------------------------------------------------------------- runs

  ghost predicate Run(ws: seq<World>, acts: seq<Act>, env: Env)
  {
    |ws| == |acts| + 1 && ws[0].claims == {} && ws[0].calls == map[]
    && forall i {:trigger acts[i]} :: 0 <= i < |acts| ==> Enabled(ws[i], acts[i]) && ws[i + 1] == Next(ws[i], acts[i], env)
  }

  /** In this run, offers of different transfers have nothing to do with each other's part files. */
  ghost predicate Separate(acts: seq<Act>, env: Env)
  {
    forall k, l | 0 <= k < |acts| && 0 <= l < |acts| && acts[k].Begin? && acts[l].Begin? ::
      acts[k].offer.id != acts[l].offer.id ==> Distinct(acts[k].offer, acts[l].offer, env)
  }

  /** The act that brought this offer in. */
  ghost predicate Offered(acts: seq<Act>, o: Offer)
  {
    exists k :: 0 <= k < |acts| && acts[k].Begin? && acts[k].offer == o
  }

  lemma {:induction false} RunOffers(ws: seq<World>, acts: seq<Act>, env: Env, i: nat, c: nat)
    requires Run(ws, acts, env) && i < |ws| && c in ws[i].calls
    ensures Offered(acts, ws[i].calls[c].offer)
  {
    if i > 0 {
      var w, a := ws[i - 1], acts[i - 1];
      if !(a.Begin? && a.c == c) {
        if OwnAct(a) { OwnKeepsOffers(w, a, env); }
        RunOffers(ws, acts, env, i - 1, c);
      }
    }
  }

  lemma {:induction false} RunClaimed(ws: seq<World>, acts: seq<Act>, env: Env, i: nat)
    requires Run(ws, acts, env) && i < |ws|
    ensures Claimed(ws[i])
  {
    if i > 0 {
      RunClaimed(ws, acts, env, i - 1);
      StepClaimed(ws[i - 1], acts[i - 1], env);
    }
  }

  /** The claims keep two calls of one transfer apart; different transfers have different part paths. */
  lemma RunApart(ws: seq<World>, acts: seq<Act>, env: Env, i: nat)
    requires Run(ws, acts, env) && Separate(acts, env) && i < |ws|
    ensures PartsApart(ws[i], env)
  {
    RunClaimed(ws, acts, env, i);
    forall c, d | c in ws[i].calls && d in ws[i].calls && c != d
      ensures Distinct(ws[i].calls[c].offer, ws[i].calls[d].offer, env)
    {
      RunOffers(ws, acts, env, i, c);
      RunOffers(ws, acts, env, i, d);
      var k :| 0 <= k < |acts| && acts[k].Begin? && acts[k].offer == ws[i].calls[c].offer;
      var l :| 0 <= l < |acts| && acts[l].Begin? && acts[l].offer == ws[i].calls[d].offer;
    }
  }

  /** Up to state `i` no two live calls have been in each other's way. */
  ghost predicate ApartUpTo(ws: seq<World>, env: Env, i: nat)
    requires i < |ws|
  {
    forall k :: 0 <= k < i ==> PartsApart(ws[k], env)
  }

  lemma SeparateIsApart(ws: seq<World>, acts: seq<Act>, env: Env, i: nat)
    requires Run(ws, acts, env) && Separate(acts, env) && i < |ws|
    ensures ApartUpTo(ws, env, i)
  {
    forall k | 0 <= k < i ensures PartsApart(ws[k], env) { RunApart(ws, acts, env, k); }
  }

  lemma {:induction false} RunInv(ws: seq<World>, acts: seq<Act>, env: Env, i: nat)
    requires Run(ws, acts, env) && i < |ws| && ApartUpTo(ws, env, i)
    ensures Inv(ws[i], env)
  {
    if i > 0 {
      RunInv(ws, acts, env, i - 1);
      StepInv(ws[i - 1], acts[i - 1], env);
    }
  }

  /** Every claim is held by a call. */
  ghost predicate Running(w: World, c: nat, id: string)
  {
    c in w.calls && w.calls[c].offer.id == id
  }

  ghost predicate HeldByCalls(w: World)
  {
    forall id | id in w.claims :: exists c :: Running(w, c, id)
  }

  lemma StepHeld(w: World, a: Act, env: Env)
    requires Claimed(w) && HeldByCalls(w) && Enabled(w, a)
    ensures HeldByCalls(Next(w, a, env))
  {
    var w' := Next(w, a, env);
    if OwnAct(a) { OwnKeepsOffers(w, a, env); }
    forall id | id in w'.claims ensures exists c :: Running(w', c, id) {
      if a.Begin? && id == a.offer.id {
        assert Running(w', a.c, id);
      } else {
        var c :| Running(w, c, id);
        assert Running(w', c, id);
      }
    }
  }

  /** An id is claimed exactly while a call for it is running: none is refused because of one that has ended or crashed. */
  lemma {:induction false} ClaimedExactlyWhile(ws: seq<World>, acts: seq<Act>, env: Env, i: nat)
    requires Run(ws, acts, env) && i < |ws|
    ensures Claimed(ws[i]) && HeldByCalls(ws[i])
    ensures forall id :: id in ws[i].claims <==> exists c :: Running(ws[i], c, id)
  {
    if i > 0 {
      ClaimedExactlyWhile(ws, acts, env, i - 1);
      assert Enabled(ws[i - 1], acts[i - 1]) && ws[i] == Next(ws[i - 1], acts[i - 1], env);
      StepClaimed(ws[i - 1], acts[i - 1], env);
      StepHeld(ws[i - 1], acts[i - 1], env);
    }
  }

  // ---------------------------------------------------------------- one writer

  ghost predicate OffersFrom(acts: seq<Act>, offers: set<Offer>)
  {
    forall k :: 0 <= k < |acts| && acts[k].Begin? ==> acts[k].offer in offers
  }

  /** Whatever a run makes of these offers, no two live calls write one part file. */
  ghost predicate AlwaysApart(offers: set<Offer>, env: Env)
  {
    forall ws, acts, i | Run(ws, acts, env) && OffersFrom(acts, offers) && 0 <= i < |ws| :: PartsApart(ws[i], env)
  }

  /** Two transfers with one part file are received at once, into it; or one can be published onto the other's. */
  lemma SharedPart(a: Offer, b: Offer, env: Env)
    requires a.id != b.id && !Distinct(a, b, env)
    ensures !AlwaysApart({a, b}, env)
  {
    var w0 := World(map[], {}, map[]);
    var w1 := Next(w0, Begin(0, a), env);
    var w2 := Next(w1, Begin(1, b), env);
    var ws, acts := [w0, w1, w2], [Begin(0, a), Begin(1, b)];
    assert Run(ws, acts, env) && OffersFrom(acts, {a, b});
    assert 0 in ws[2].calls && 1 in ws[2].calls && !PartsApart(ws[2], env);
  }

  lemma MoreOffers(few: set<Offer>, many: set<Offer>, env: Env)
    requires few <= many && AlwaysApart(many, env)
    ensures AlwaysApart(few, env)
  {
    forall ws, acts, i | Run(ws, acts, env) && OffersFrom(acts, few) && 0 <= i < |ws| ensures PartsApart(ws[i], env) {
      assert OffersFrom(acts, many);
    }
  }

  /**
   In every run over these offers, with any retries, interruptions and crashes, no two live calls write
   one part file or publish onto one: exactly when no two of the transfers share a part file and none
   has another's as its destination.
   */
  lemma OneWriterPerPart(offers: set<Offer>, env: Env)
    ensures AlwaysApart(offers, env) <==> forall a, b | a in offers && b in offers && a.id != b.id :: Distinct(a, b, env)
  {
    if AlwaysApart(offers, env) {
      forall a, b | a in offers && b in offers && a.id != b.id ensures Distinct(a, b, env) {
        MoreOffers({a, b}, offers, env);
        if !Distinct(a, b, env) { SharedPart(a, b, env); }
      }
    }
    if forall a, b | a in offers && b in offers && a.id != b.id :: Distinct(a, b, env) {
      forall ws, acts, i | Run(ws, acts, env) && OffersFrom(acts, offers) && 0 <= i < |ws| ensures PartsApart(ws[i], env) {
        assert Separate(acts, env);
        RunApart(ws, acts, env, i);
      }
    }
  }

  // ---------------------------------------------------------------- a collision

  /** The acts lead from `w` to `w'`. */
  ghost predicate Leads(w: World, acts: seq<Act>, w': World, env: Env)
    decreases |acts|
  {
    if acts == [] then w == w' else Enabled(w, acts[0]) && Leads(Next(w, acts[0], env), acts[1..], w', env)
  }

  lemma {:induction false} LeadsOn(w: World, a: seq<Act>, mid: World, b: seq<Act>, w': World, env: Env)
    requires Leads(w, a, mid, env) && Leads(mid, b, w', env)
    ensures Leads(w, a + b, w', env)
    decreases |a|
  {
    if a == [] {
      assert a + b == b;
    } else {
      assert (a + b)[1..] == a[1..] + b;
      LeadsOn(Next(w, a[0], env), a[1..], mid, b, w', env);
    }
  }

  /** The worlds on the way. */
  ghost function Worlds(w: World, acts: seq<Act>, w': World, env: Env): (ws: seq<World>)
    requires Leads(w, acts, w', env)
    ensures |ws| == |acts| + 1 && ws[0] == w && ws[|acts|] == w'
    decreases |acts|
  {
    if acts == [] then [w] else [w] + Worlds(Next(w, acts[0], env), acts[1..], w', env)
  }

  lemma {:induction false} WorldsAreSteps(w: World, acts: seq<Act>, w': World, env: Env, i: nat)
    requires Leads(w, acts, w', env) && i < |acts|
    ensures var ws := Worlds(w, acts, w', env); Enabled(ws[i], acts[i]) && ws[i + 1] == Next(ws[i], acts[i], env)
    decreases i
  {
    var rest := Worlds(Next(w, acts[0], env), acts[1..], w', env);
    assert Worlds(w, acts, w', env) == [w] + rest;
    if i > 0 { WorldsAreSteps(Next(w, acts[0], env), acts[1..], w', env, i - 1); }
  }

  /** From an offer to the first byte. */
  function Opening(c: nat, o: Offer): seq<Act>
  {
    [Begin(c, o), Look(c), Measure(c), Rehash(c), Open(c)]
  }

  lemma Opens(w: World, c: nat, o: Offer, env: Env)
    requires c !in w.calls && o.id !in w.claims && Dest(o.name) !in w.files
    ensures var n, part := ResumeAt(w.files, o, env), PartOf(o, env);
      var files := if n > 0 then w.files else w.files[part := []];
      var call := Call(o, Writing, n, if n > 0 then w.files[part] else [], n);
      Leads(w, Opening(c, o), World(files, w.claims + {o.id}, w.calls[c := call]), env)
  {
    var n, part := ResumeAt(w.files, o, env), PartOf(o, env);
    var hashed := if n > 0 then w.files[part] else [];
    var files := if n > 0 then w.files else w.files[part := []];
    var v := World(w.files, w.claims + {o.id}, w.calls);
    var w5 := With(v, c, files, Call(o, Writing, n, hashed, n));
    OwnMove(v, c, Open(c), w.files, Call(o, Reread, n, hashed, 0), files, Call(o, Writing, n, hashed, n), [], w5, env);
    OwnMove(v, c, Rehash(c), w.files, Call(o, Measured, n, [], 0), w.files, Call(o, Reread, n, hashed, 0), [Open(c)], w5, env);
    OwnMove(v, c, Measure(c), w.files, Call(o, Looked, 0, [], 0), w.files, Call(o, Measured, n, [], 0), [Rehash(c), Open(c)], w5, env);
    OwnMove(v, c, Look(c), w.files, Call(o, Started, 0, [], 0), w.files, Call(o, Looked, 0, [], 0), [Measure(c), Rehash(c), Open(c)], w5, env);
    OneAct(w, Begin(c, o), [Look(c), Measure(c), Rehash(c), Open(c)], w5, env);
  }

  /** The world as it is, except for the files and one call. */
  function With(w: World, c: nat, files: Files, call: Call): World
  {
    World(files, w.claims, w.calls[c := call])
  }

  lemma OwnMove(w: World, c: nat, a: Act, files: Files, call: Call, files': Files, call': Call,
                rest: seq<Act>, w': World, env: Env)
    requires OwnAct(a) && a.c == c && Enabled(With(w, c, files, call), a) && Moved(call, files, a, env) == (call', files')
    requires Leads(With(w, c, files', call'), rest, w', env)
    ensures Leads(With(w, c, files, call), [a] + rest, w', env)
  {
    var v := With(w, c, files, call);
    assert v.calls[c := call'] == w.calls[c := call'];
    assert Next(v, a, env) == With(w, c, files', call');
    OneAct(v, a, rest, w', env);
  }

  lemma OneAct(w: World, a: Act, rest: seq<Act>, w': World, env: Env)
    requires Enabled(w, a) && Leads(Next(w, a, env), rest, w', env)
    ensures Leads(w, [a] + rest, w', env)
  {
    assert ([a] + rest)[1..] == rest;
  }

  /** One call takes `x` whole and checks it; another appends `y` to it; then the first publishes. */
  function Collision(a: Offer, b: Offer, x: seq<byte>, y: seq<byte>): seq<Act>
  {
    First(a, x) + Second(b, y)
  }

  function First(a: Offer, x: seq<byte>): seq<Act>
  {
    Opening(0, a) + [Write(0, x), Seal(0), Weigh(0)]
  }

  function Second(b: Offer, y: seq<byte>): seq<Act>
  {
    Opening(1, b) + [Write(1, y), LookAgain(0), Publish(0)]
  }

  /**
   Two transfers on one part file at once: every check of the first passes, and yet what it publishes is
   neither of the offered length nor, unless the digest is fooled, of the offered digest.
   */
  lemma CollisionPublishesOtherBytes(a: Offer, b: Offer, env: Env, x: seq<byte>, y: seq<byte>) returns (ws: seq<World>)
    requires a.id != b.id && PartOf(a, env) == PartOf(b, env)
    requires 0 < |x| == a.size && env.sha(x) == a.sha && y != [] && |x| + |y| <= b.size
    ensures var acts := Collision(a, b, x, y);
      && Run(ws, acts, env) && acts[|acts| - 1] == Publish(0) && ws[|acts| - 1].calls[0].offer == a
      && Dest(a.name) in ws[|acts|].files && ws[|acts|].files[Dest(a.name)] == x + y && |x + y| != a.size
  {
    var w0 := World(map[], {}, map[]);
    var w2 := TakenWhole(a, env, x, w0);
    var w4 := MixedIn(a, b, env, x, y, w2);
    LeadsOn(w0, First(a, x), w2, Second(b, y), w4, env);
    ws := RunOf(w0, Collision(a, b, x, y), w4, env);
    StillOffered(ws, Collision(a, b, x, y), env, a);
  }

  lemma TakenWhole(a: Offer, env: Env, x: seq<byte>, w0: World) returns (w2: World)
    requires 0 < |x| == a.size && env.sha(x) == a.sha && w0 == World(map[], {}, map[])
    ensures Leads(w0, First(a, x), w2, env)
    ensures w2 == World(map[PartOf(a, env) := x], {a.id}, map[0 := Call(a, Weighed, 0, x, |x|)])
  {
    var v := World(map[], {a.id}, map[]);
    var w1 := With(v, 0, map[PartOf(a, env) := []], Call(a, Writing, 0, [], 0));
    Opens(w0, 0, a, env);
    assert {} + {a.id} == {a.id};
    w2 := With(v, 0, map[PartOf(a, env) := x], Call(a, Weighed, 0, x, |x|));
    TakesWhole(a, env, x, v);
    LeadsOn(w0, Opening(0, a), w1, [Write(0, x), Seal(0), Weigh(0)], w2, env);
  }

  lemma MixedIn(a: Offer, b: Offer, env: Env, x: seq<byte>, y: seq<byte>, w2: World) returns (w4: World)
    requires a.id != b.id && PartOf(a, env) == PartOf(b, env) && 0 < |x| && |x| + |y| <= b.size
    requires w2 == World(map[PartOf(a, env) := x], {a.id}, map[0 := Call(a, Weighed, 0, x, |x|)])
    ensures Leads(w2, Second(b, y), w4, env)
    ensures w4.files == map[Dest(a.name) := x + y] && 0 in w4.calls && w4.calls[0].offer == a
  {
    var w3 := World(w2.files, w2.claims + {b.id}, w2.calls[1 := Call(b, Writing, |x|, x, |x|)]);
    Opens(w2, 1, b, env);
    w4 := GetsMixed(a, b, env, x, y, w3);
    LeadsOn(w2, Opening(1, b), w3, [Write(1, y), LookAgain(0), Publish(0)], w4, env);
  }

  lemma StillOffered(ws: seq<World>, acts: seq<Act>, env: Env, a: Offer)
    requires Run(ws, acts, env) && acts != [] && acts[|acts| - 1] == Publish(0)
    requires 0 in ws[|acts|].calls && ws[|acts|].calls[0].offer == a
    ensures 0 in ws[|acts| - 1].calls && ws[|acts| - 1].calls[0].offer == a
  {
    assert Enabled(ws[|acts| - 1], acts[|acts| - 1]);
    OwnKeepsOffers(ws[|acts| - 1], Publish(0), env);
  }

  lemma RunOf(w: World, acts: seq<Act>, w': World, env: Env) returns (ws: seq<World>)
    requires Leads(w, acts, w', env) && w.claims == {} && w.calls == map[]
    ensures Run(ws, acts, env) && ws[0] == w && ws[|acts|] == w'
  {
    ws := Worlds(w, acts, w', env);
    forall i | 0 <= i < |acts| ensures Enabled(ws[i], acts[i]) && ws[i + 1] == Next(ws[i], acts[i], env) {
      WorldsAreSteps(w, acts, w', env, i);
    }
  }

  lemma TakesWhole(a: Offer, env: Env, x: seq<byte>, w: World)
    requires 0 < |x| == a.size && env.sha(x) == a.sha
    ensures Leads(With(w, 0, map[PartOf(a, env) := []], Call(a, Writing, 0, [], 0)), [Write(0, x), Seal(0), Weigh(0)],
                  With(w, 0, map[PartOf(a, env) := x], Call(a, Weighed, 0, x, |x|)), env)
  {
    var none, files := map[PartOf(a, env) := []], map[PartOf(a, env) := x];
    var w' := With(w, 0, files, Call(a, Weighed, 0, x, |x|));
    assert [] + x == x && none[PartOf(a, env) := x] == files;
    OwnMove(w, 0, Weigh(0), files, Call(a, Sealed, 0, x, |x|), files, Call(a, Weighed, 0, x, |x|), [], w', env);
    OwnMove(w, 0, Seal(0), files, Call(a, Writing, 0, x, |x|), files, Call(a, Sealed, 0, x, |x|), [Weigh(0)], w', env);
    OwnMove(w, 0, Write(0, x), none, Call(a, Writing, 0, [], 0), files, Call(a, Writing, 0, x, |x|), [Seal(0), Weigh(0)], w', env);
  }

  /** `b` adds to the part file, and `a`, which has checked it already, publishes it. */
  lemma GetsMixed(a: Offer, b: Offer, env: Env, x: seq<byte>, y: seq<byte>, w: World) returns (w': World)
    requires PartOf(a, env) == PartOf(b, env) && |x| + |y| <= b.size && w.files == map[PartOf(a, env) := x]
    requires 0 in w.calls && w.calls[0] == Call(a, Weighed, 0, x, |x|)
    requires 1 in w.calls && w.calls[1] == Call(b, Writing, |x|, x, |x|)
    ensures Leads(w, [Write(1, y), LookAgain(0), Publish(0)], w', env)
    ensures w'.files == map[Dest(a.name) := x + y] && 0 in w'.calls && w'.calls[0].offer == a
  {
    var mixed, wrote := map[PartOf(a, env) := x + y], Call(b, Writing, |x|, x + y, |x + y|);
    var v := With(w, 1, mixed, wrote);
    w' := With(v, 0, map[Dest(a.name) := x + y], Call(a, Done, 0, x, |x|));
    Published(v, a, env, x, x + y, w');
    assert With(v, 0, mixed, Call(a, Weighed, 0, x, |x|)) == v;
    assert w.files[PartOf(a, env) := x + y] == mixed;
    assert With(w, 1, w.files, w.calls[1]) == w;
    OwnMove(w, 1, Write(1, y), w.files, w.calls[1], mixed, wrote, [LookAgain(0), Publish(0)], w', env);
  }

  lemma Published(v: World, a: Offer, env: Env, x: seq<byte>, bytes: seq<byte>, w': World)
    requires w' == With(v, 0, map[Dest(a.name) := bytes], Call(a, Done, 0, x, |x|))
    ensures Leads(With(v, 0, map[PartOf(a, env) := bytes], Call(a, Weighed, 0, x, |x|)), [LookAgain(0), Publish(0)], w', env)
  {
    var mixed := map[PartOf(a, env) := bytes];
    assert mixed - {PartOf(a, env)} == map[];
    OwnMove(v, 0, Publish(0), mixed, Call(a, Cleared, 0, x, |x|), map[Dest(a.name) := bytes], Call(a, Done, 0, x, |x|), [], w', env);
    OwnMove(v, 0, LookAgain(0), mixed, Call(a, Weighed, 0, x, |x|), mixed, Call(a, Cleared, 0, x, |x|), [Publish(0)], w', env);
  }

  // ---------------------------------------------------------------- what is published

  /** What call `c` wrote in the acts from `from` up to `to`. */
  function WrittenBy(acts: seq<Act>, c: nat, from: nat, to: nat): (r: seq<byte>)
    requires from <= to <= |acts|
  {
    if from == to then [] else
    WrittenBy(acts, c, from, to - 1) + (if acts[to - 1].Write? && acts[to - 1].c == c then acts[to - 1].bytes else [])
  }

  /** What an earlier call left that this one keeps. */
  function Leftover(files: Files, o: Offer, env: Env): (r: seq<byte>)
  {
    if ResumeAt(files, o, env) > 0 then files[PartOf(o, env)] else []
  }

  /** Past the rereading of the leftover, and not yet over. */
  predicate Underway(w: World, c: nat)
  {
    c in w.calls
    && var phase := w.calls[c].phase;
    phase.Reread? || phase.Writing? || phase.Sealed? || phase.Weighed? || phase.Cleared?
  }

  /** A call gets underway only by rereading, and then hashes exactly what it writes. */
  lemma StepHashes(w: World, a: Act, env: Env, c: nat)
    requires Enabled(w, a) && a != Rehash(c) && Underway(Next(w, a, env), c)
    ensures Underway(w, c) && Next(w, a, env).calls[c].offer == w.calls[c].offer
    ensures Next(w, a, env).calls[c].hashed == w.calls[c].hashed + (if a.Write? && a.c == c then a.bytes else [])
  {
    assert c in w.calls ==> w.calls[c].hashed + [] == w.calls[c].hashed;
  }

  /** In one act of a run a call hashes what it writes and nothing else. */
  lemma ActHashes(ws: seq<World>, acts: seq<Act>, env: Env, k: nat, c: nat)
    requires Run(ws, acts, env) && k < |acts| && acts[k] != Rehash(c) && Underway(ws[k + 1], c)
    ensures Underway(ws[k], c) && ws[k + 1].calls[c].offer == ws[k].calls[c].offer
    ensures ws[k + 1].calls[c].hashed == ws[k].calls[c].hashed + WrittenBy(acts, c, k, k + 1)
  {
    StepHashes(ws[k], acts[k], env, c);
    var x := if acts[k].Write? && acts[k].c == c then acts[k].bytes else [];
    assert WrittenBy(acts, c, k, k) == [] && [] + x == x;
  }

  lemma WrittenMore(acts: seq<Act>, c: nat, from: nat, k: nat)
    requires from <= k < |acts|
    ensures WrittenBy(acts, c, from, k + 1) == WrittenBy(acts, c, from, k) + WrittenBy(acts, c, k, k + 1)
  {
    var x := if acts[k].Write? && acts[k].c == c then acts[k].bytes else [];
    assert WrittenBy(acts, c, k, k) == [] && [] + x == x;
  }

  /** What `ws[i]` hashed for call `c`, when it is underway. */
  ghost function HashedAt(ws: seq<World>, i: nat, c: nat): seq<byte>
    requires i < |ws| && Underway(ws[i], c)
  {
    ws[i].calls[c].hashed
  }

  lemma HashedMore(acts: seq<Act>, c: nat, from: nat, k: nat, first: seq<byte>, before: seq<byte>, after: seq<byte>)
    requires from <= k < |acts|
    requires before == first + WrittenBy(acts, c, from, k) && after == before + WrittenBy(acts, c, k, k + 1)
    ensures after == first + WrittenBy(acts, c, from, k + 1)
  {
    WrittenMore(acts, c, from, k);
    AddBytes(first, WrittenBy(acts, c, from, k), WrittenBy(acts, c, k, k + 1));
  }

  lemma {:induction false} HashedSince(ws: seq<World>, acts: seq<Act>, env: Env, m: nat, i: nat, c: nat)
    requires Run(ws, acts, env) && m < i < |ws| && acts[m] == Rehash(c) && Underway(ws[i], c)
    requires forall k :: m < k < i ==> acts[k] != Rehash(c)
    ensures Underway(ws[m + 1], c) && ws[i].calls[c].offer == ws[m + 1].calls[c].offer
    ensures HashedAt(ws, i, c) == HashedAt(ws, m + 1, c) + WrittenBy(acts, c, m + 1, i)
    decreases i
  {
    if i > m + 1 {
      ActHashes(ws, acts, env, i - 1, c);
      HashedSince(ws, acts, env, m, i - 1, c);
      HashedMore(acts, c, m + 1, i - 1, HashedAt(ws, m + 1, c), HashedAt(ws, i - 1, c), HashedAt(ws, i, c));
    } else {
      assert HashedAt(ws, i, c) + [] == HashedAt(ws, i, c);
    }
  }

  /**
   Whatever ran beside it and however often it was interrupted before, as long as no two calls live at
   once have been in each other's way, the bytes a call renames into place have the offered length and
   digest; and they are what it found in the part file when it reread it, as far as that was to be kept,
   followed by everything it wrote since.
   */
  lemma PublishedIsOffered(ws: seq<World>, acts: seq<Act>, env: Env, m: nat, i: nat, c: nat)
    requires Run(ws, acts, env) && m < i < |acts| && ApartUpTo(ws, env, i) && acts[i] == Publish(c)
    requires acts[m] == Rehash(c) && forall k :: m < k < i ==> acts[k] != Rehash(c)
    ensures c in ws[i].calls && c in ws[m].calls
    ensures var o := ws[i].calls[c].offer;
      var dest, bytes := Dest(o.name), Leftover(ws[m].files, o, env) + WrittenBy(acts, c, m + 1, i);
      && dest in ws[i + 1].files && ws[i + 1].files[dest] == bytes
      && |bytes| == o.size && env.sha(bytes) == o.sha && PartOf(o, env) !in ws[i + 1].files
  {
    RunInv(ws, acts, env, i);
    RunInv(ws, acts, env, m);
    assert Enabled(ws[i], acts[i]) && Enabled(ws[m], acts[m]);
    HashedSince(ws, acts, env, m, i, c);
    assert CallInv(ws[m].calls[c], ws[m].files, env) && CallInv(ws[i].calls[c], ws[i].files, env);
    assert ws[m + 1].calls[c].hashed == Leftover(ws[m].files, ws[m].calls[c].offer, env);
  }

  /** There is such a rereading: a call that publishes went through every step. */
  lemma {:induction false} RereadFirst(ws: seq<World>, acts: seq<Act>, env: Env, i: nat, c: nat) returns (m: nat)
    requires Run(ws, acts, env) && i < |ws| && Underway(ws[i], c)
    ensures m < i && acts[m] == Rehash(c) && forall k :: m < k < i ==> acts[k] != Rehash(c)
    decreases i
  {
    if acts[i - 1] == Rehash(c) {
      m := i - 1;
    } else {
      StepHashes(ws[i - 1], acts[i - 1], env, c);
      m := RereadFirst(ws, acts, env, i - 1, c);
    }
  }

  /** A call that looks for the destination is turned away exactly when it is there and may not be replaced. */
  lemma TurnedAwayExactlyWhen(ws: seq<World>, acts: seq<Act>, env: Env, i: nat, c: nat)
    requires Run(ws, acts, env) && i < |acts| && (acts[i] == Look(c) || acts[i] == LookAgain(c))
    ensures c in ws[i].calls && c in ws[i + 1].calls
    ensures var o := ws[i].calls[c].offer;
      && (ws[i + 1].calls[c].phase.Failed? <==> Dest(o.name) in ws[i].files && !o.overwrite)
      && ws[i + 1].files == if ws[i + 1].calls[c].phase.Failed? && acts[i].LookAgain? then ws[i].files - {PartOf(o, env)} else ws[i].files
  {
    assert Enabled(ws[i], acts[i]) && ws[i + 1] == Next(ws[i], acts[i], env);
  }

  /**
   When a call gives up, and what becomes of its part file: bytes past the offered size, a wrong digest
   or a wrong length take it away, and nothing else; a broken stream leaves everything as it is.
   */
  lemma GivesUpExactlyWhen(ws: seq<World>, acts: seq<Act>, env: Env, i: nat, c: nat)
    requires Run(ws, acts, env) && i < |acts| && OwnAct(acts[i]) && acts[i].c == c
    ensures c in ws[i].calls && c in ws[i + 1].calls
    ensures var call, failed, o := ws[i].calls[c], ws[i + 1].calls[c].phase.Failed?, ws[i].calls[c].offer;
      && (acts[i].Write? ==> (failed <==> call.written + |acts[i].bytes| > o.size))
      && (acts[i].Seal? ==> (failed <==> env.sha(call.hashed) != o.sha))
      && (acts[i].Weigh? ==> (failed <==> LengthOf(ws[i].files, PartOf(o, env)) != o.size))
      && (acts[i].Break? ==> failed && ws[i + 1].files == ws[i].files)
      && (failed && (acts[i].Write? || acts[i].Seal? || acts[i].Weigh?) ==> ws[i + 1].files == ws[i].files - {PartOf(o, env)})
  {
    assert Enabled(ws[i], acts[i]) && ws[i + 1] == Next(ws[i], acts[i], env);
  }

  /** So a call that may not replace a file publishes only where there was none when it last looked. */
  lemma PublishesOnlyWhereFree(ws: seq<World>, acts: seq<Act>, env: Env, i: nat, c: nat) returns (m: nat)
    requires Run(ws, acts, env) && i < |acts| && acts[i] == Publish(c)
    ensures m < i && acts[m] == LookAgain(c) && c in ws[m].calls && c in ws[i].calls && ws[m].calls[c].offer == ws[i].calls[c].offer
    ensures Dest(ws[i].calls[c].offer.name) in ws[m].files ==> ws[i].calls[c].offer.overwrite
  {
    assert Enabled(ws[i], acts[i]);
    m := LookedFirst(ws, acts, env, i, c);
    TurnedAwayExactlyWhen(ws, acts, env, m, c);
  }

  lemma {:induction false} LookedFirst(ws: seq<World>, acts: seq<Act>, env: Env, i: nat, c: nat) returns (m: nat)
    requires Run(ws, acts, env) && i < |ws| && At(ws[i], c, Cleared)
    ensures m < i && acts[m] == LookAgain(c) && c in ws[m].calls && At(ws[m + 1], c, Cleared)
    ensures ws[m].calls[c].offer == ws[i].calls[c].offer
    decreases i
  {
    assert Enabled(ws[i - 1], acts[i - 1]) && ws[i] == Next(ws[i - 1], acts[i - 1], env);
    if acts[i - 1] == LookAgain(c) {
      m := i - 1;
    } else {
      m := LookedFirst(ws, acts, env, i - 1, c);
    }
  }

  /** When no other file has the source's digest, the received file is the source. */
  lemma ReceivedIsTheSource(ws: seq<World>, acts: seq<Act>, env: Env, i: nat, c: nat, source: seq<byte>)
    requires Run(ws, acts, env) && i < |acts| && ApartUpTo(ws, env, i) && acts[i] == Publish(c) && c in ws[i].calls
    requires (forall x :: env.sha(x) == env.sha(source) ==> x == source) && ws[i].calls[c].offer.sha == env.sha(source)
    ensures var dest := Dest(ws[i].calls[c].offer.name);
      dest in ws[i + 1].files && ws[i + 1].files[dest] == source
  {
    assert Enabled(ws[i], acts[i]);
    var m := RereadFirst(ws, acts, env, i, c);
    PublishedIsOffered(ws, acts, env, m, i, c);
  }

  // ---------------------------------------------------------------- an honest sender

  /** One transfer to one destination, and the file it is about. */
  datatype Transfer = Transfer(id: string, name: string, source: seq<byte>)

  function PartFor(t: Transfer, env: Env): Path
  {
    env.part(t.name, t.id)
  }

  /** An offer of the transfer, into its part file. */
  predicate For(o: Offer, t: Transfer, env: Env)
  {
    o.id == t.id && PartOf(o, env) == PartFor(t, env)
  }

  /**
   Every call of the transfer offers its source, every chunk it writes is the next part of it, and it
   does not offer the file as its own part file.
   */
  ghost predicate Honest(w: World, a: Act, env: Env, t: Transfer)
  {
    match a
    case Begin(_, o) =>
      && (For(o, t, env) ==> o.size == |t.source| && o.sha == env.sha(t.source))
      && (o.id == t.id ==> Dest(o.name) != PartFor(t, env))
    case Write(c, x) =>
      c in w.calls && For(w.calls[c].offer, t, env) ==>
        var k := w.calls[c].written; k + |x| <= |t.source| && x == t.source[k..k + |x|]
    case Seal(c) => c in w.calls && For(w.calls[c].offer, t, env) ==> w.calls[c].written == |t.source|
    case _ => true
  }

  /** A live call that uses the transfer's part file offers its source, and none publishes onto it. */
  ghost predicate Minds(call: Call, env: Env, t: Transfer)
  {
    && Dest(call.offer.name) != PartFor(t, env)
    && (PartOf(call.offer, env) == PartFor(t, env) ==>
          call.offer.id == t.id && call.offer.size == |t.source| && call.offer.sha == env.sha(t.source))
  }

  /** The transfer's part file is a prefix of its source, and every live call minds it. */
  ghost predicate Prefixed(w: World, env: Env, t: Transfer)
  {
    && (PartFor(t, env) in w.files ==> w.files[PartFor(t, env)] <= t.source)
    && (forall c | c in w.calls :: Minds(w.calls[c], env, t))
  }

  /** Another transfer's offer, which has nothing to do with this one's part file. */
  predicate Elsewhere(o: Offer, t: Transfer, env: Env)
  {
    o.id != t.id ==> PartOf(o, env) != PartFor(t, env) && Dest(o.name) != PartFor(t, env)
  }

  lemma WritePrefixed(call: Call, files: Files, x: seq<byte>, env: Env, source: seq<byte>)
    requires CallInv(call, files, env) && call.phase.Writing? && files[PartOf(call.offer, env)] <= source
    requires call.written + |x| <= |source| && x == source[call.written..call.written + |x|]
    ensures files[PartOf(call.offer, env)] + x <= source
  {
    assert source[..call.written] + x == source[..call.written + |x|];
  }

  lemma StepPrefixed(w: World, a: Act, env: Env, t: Transfer)
    requires Inv(w, env) && Enabled(w, a) && Honest(w, a, env, t) && Prefixed(w, env, t)
    requires a.Begin? ==> Elsewhere(a.offer, t, env)
    ensures Prefixed(Next(w, a, env), env, t)
  {
    if OwnAct(a) {
      var call := w.calls[a.c];
      assert Minds(call, env, t) && CallInv(call, w.files, env);
      OwnKeepsOffers(w, a, env);
      MovedPrefixed(call, w.files, a, env, t);
    }
  }

  /** A call's own step leaves a prefix of the source in the transfer's part file. */
  lemma MovedPrefixed(call: Call, files: Files, a: Act, env: Env, t: Transfer)
    requires CallInv(call, files, env) && Minds(call, env, t) && OwnAct(a)
    requires PartFor(t, env) in files ==> files[PartFor(t, env)] <= t.source
    requires a.Write? ==> call.phase.Writing? && (For(call.offer, t, env) ==>
               call.written + |a.bytes| <= |t.source| && a.bytes == t.source[call.written..call.written + |a.bytes|])
    ensures var files' := Moved(call, files, a, env).1; PartFor(t, env) in files' ==> files'[PartFor(t, env)] <= t.source
  {
    if a.Write? && For(call.offer, t, env) { WritePrefixed(call, files, a.bytes, env, t.source); }
  }

  lemma {:induction false} RunPrefixed(ws: seq<World>, acts: seq<Act>, env: Env, t: Transfer, i: nat)
    requires Run(ws, acts, env) && Separate(acts, env) && i < |ws| && Prefixed(ws[0], env, t)
    requires forall k :: 0 <= k < i ==> Honest(ws[k], acts[k], env, t)
    requires forall k :: 0 <= k < i && acts[k].Begin? ==> Elsewhere(acts[k].offer, t, env)
    ensures Prefixed(ws[i], env, t)
  {
    if i > 0 {
      RunPrefixed(ws, acts, env, t, i - 1);
      SeparateIsApart(ws, acts, env, i - 1);
      RunInv(ws, acts, env, i - 1);
      StepPrefixed(ws[i - 1], acts[i - 1], env, t);
    }
  }

  /** No other transfer has anything to do with its part file. */
  lemma OnlyItsOwn(ws: seq<World>, acts: seq<Act>, env: Env, t: Transfer, i: nat, c: nat)
    requires Run(ws, acts, env) && Separate(acts, env) && i < |ws| && c in ws[i].calls && For(ws[i].calls[c].offer, t, env)
    ensures forall k :: 0 <= k < |acts| && acts[k].Begin? ==> Elsewhere(acts[k].offer, t, env)
  {
    RunOffers(ws, acts, env, i, c);
    var l :| 0 <= l < |acts| && acts[l].Begin? && acts[l].offer == ws[i].calls[c].offer;
    forall k | 0 <= k < |acts| && acts[k].Begin? ensures Elsewhere(acts[k].offer, t, env) {
      assert acts[k].offer.id != acts[l].offer.id ==> Distinct(acts[k].offer, acts[l].offer, env);
    }
  }

  /**
   Resuming works: when the sender keeps to its source, no interruption, crash or retry leaves a part
   file the next call cannot use, so a stream that ends is never rejected, for its digest or its length.
   */
  lemma HonestTransferIsNeverRejected(ws: seq<World>, acts: seq<Act>, env: Env, t: Transfer, i: nat)
    requires Run(ws, acts, env) && Separate(acts, env) && i < |acts| && Prefixed(ws[0], env, t)
    requires forall k :: 0 <= k <= i ==> Honest(ws[k], acts[k], env, t)
    requires acts[i].Seal? && acts[i].c in ws[i].calls && For(ws[i].calls[acts[i].c].offer, t, env)
    ensures acts[i].c in ws[i + 1].calls
    ensures var call := ws[i + 1].calls[acts[i].c];
      call.phase.Sealed? && call.hashed == t.source && LengthOf(ws[i + 1].files, PartOf(call.offer, env)) == call.offer.size
  {
    OnlyItsOwn(ws, acts, env, t, i, acts[i].c);
    RunPrefixed(ws, acts, env, t, i);
    SeparateIsApart(ws, acts, env, i);
    RunInv(ws, acts, env, i);
    var call := ws[i].calls[acts[i].c];
    assert Enabled(ws[i], acts[i]);
    assert Honest(ws[i], acts[i], env, t) && CallInv(call, ws[i].files, env);
    assert ws[i].files[PartOf(call.offer, env)] <= t.source && call.hashed == t.source;
    assert ws[i + 1].files == ws[i].files;
  }

  // ---------------------------------------------------------------- one call, start to end

  const CHUNK_SIZE: nat := 64 * 1024

  /** What the stream of one pull brings: chunks, and perhaps a failure. */
  datatype Item = Chunk(bytes: seq<byte>) | Lost

  /** What `pull` answers: nothing, because there is no sender or it refuses, or a head and a stream. */
  datatype Pulled = NoStream | Stream(size: nat, sha: string, items: seq<Item>)

  datatype Outcome = Received | TooBig | InFlight | Exists | NotPulled | Different | Interrupted | Oversent | Mismatch

  /** The bytes that arrive before the stream ends or fails. */
  function Arrived(items: seq<Item>): (r: seq<byte>)
  {
    if items == [] || items[0].Lost? then [] else items[0].bytes + Arrived(items[1..])
  }

  predicate Unbroken(items: seq<Item>)
  {
    forall i :: 0 <= i < |items| ==> items[i].Chunk?
  }

  lemma {:induction false} ArrivedMore(items: seq<Item>, i: nat)
    requires i < |items| && Unbroken(items[..i + 1])
    ensures Arrived(items[..i + 1]) == Arrived(items[..i]) + items[i].bytes
    decreases i
  {
    if i > 0 {
      assert items[..i + 1][1..] == items[1..][..i] && items[..i][1..] == items[1..][..i - 1];
      assert Unbroken(items[1..][..i]) by {
        forall k | 0 <= k < i ensures items[1..][k].Chunk? { assert items[1..][k] == items[..i + 1][k + 1]; }
      }
      ArrivedMore(items[1..], i - 1);
      assert items[..i + 1][0] == items[0] && items[..i][0] == items[0];
    } else {
      assert items[..1][1..] == [];
    }
  }

  lemma {:induction false} ArrivedGrows(items: seq<Item>, i: nat)
    requires i <= |items| && Unbroken(items[..i])
    ensures Arrived(items[..i]) <= Arrived(items)
    decreases i
  {
    if i > 0 {
      assert items[..i][1..] == items[1..][..i - 1] && items[..i][0] == items[0];
      assert Unbroken(items[1..][..i - 1]) by {
        forall k | 0 <= k < i - 1 ensures items[1..][k].Chunk? { assert items[1..][k] == items[..i][k + 1]; }
      }
      ArrivedGrows(items[1..], i - 1);
    }
  }

  /** `pull`: the source from `offset` on, in chunks; past the end it is an empty stream. */
  method Pull(source: seq<byte>, offset: nat) returns (items: seq<Item>)
    ensures Unbroken(items) && Arrived(items) == source[if offset < |source| then offset else |source|..]
    ensures forall i :: 0 <= i < |items| ==> 0 < |items[i].bytes| <= CHUNK_SIZE
  {
    var start := if offset < |source| then offset else |source|;
    var at := start;
    items := [];
    while at < |source|
      invariant start <= at <= |source| && Unbroken(items) && Arrived(items) == source[start..at]
      invariant forall i :: 0 <= i < |items| ==> 0 < |items[i].bytes| <= CHUNK_SIZE
      decreases |source| - at
    {
      var end := if at + CHUNK_SIZE < |source| then at + CHUNK_SIZE else |source|;
      var more := items + [Chunk(source[at..end])];
      assert more[..|items|] == items && more[..|items| + 1] == more;
      ArrivedMore(more, |items|);
      assert source[start..at] + source[at..end] == source[start..end];
      items, at := more, end;
    }
  }

  /** One more chunk of the stream: what there is then, which is no more than there will be. */
  lemma TakesOne(left: seq<byte>, items: seq<Item>, i: nat)
    requires i < |items| && Unbroken(items[..i]) && items[i].Chunk?
    ensures Unbroken(items[..i + 1])
    ensures left + Arrived(items[..i + 1]) == (left + Arrived(items[..i])) + items[i].bytes
    ensures |left + Arrived(items[..i + 1])| <= |left + Arrived(items)|
  {
    assert items[..i + 1] == items[..i] + [items[i]];
    ArrivedMore(items, i);
    ArrivedGrows(items, i + 1);
    AddBytes(left, Arrived(items[..i]), items[i].bytes);
  }

  /** Nothing arrives after the stream is lost. */
  lemma {:induction false} LostAt(items: seq<Item>, i: nat)
    requires i < |items| && Unbroken(items[..i]) && items[i].Lost?
    ensures Arrived(items) == Arrived(items[..i]) && !Unbroken(items)
    decreases i
  {
    if i > 0 {
      assert items[..i][0] == items[0] && items[..i][1..] == items[1..][..i - 1];
      assert Unbroken(items[1..][..i - 1]) by {
        forall k | 0 <= k < i - 1 ensures items[1..][k].Chunk? { assert items[1..][k] == items[..i][k + 1]; }
      }
      LostAt(items[1..], i - 1);
    }
  }

  /** The offer is taken up: within the limit, not being received already, and its destination may be written. */
  predicate Admitted(o: Offer, maxFileBytes: nat, held: set<string>, files: Files)
  {
    o.size <= maxFileBytes && o.id !in held && (Dest(o.name) !in files || o.overwrite)
  }

  /** The sender has the transfer, and its head is the offer's. */
  predicate Confirmed(o: Offer, pulled: Pulled)
  {
    pulled.Stream? && pulled.size == o.size && pulled.sha == o.sha
  }

  /** Nothing but what is at `path` has changed. */
  ghost predicate OnlyAt(files: Files, files': Files, path: Path)
  {
    forall p: Path | p != path :: (p in files <==> p in files') && (p in files ==> files[p] == files'[p])
  }

  /** One node's inbox and the transfers it is receiving. */
  class Inbox {
    const env: Env
    const maxFileBytes: nat
    var files: Files
    var held: set<string>

    constructor (env: Env, maxFileBytes: nat, files: Files)
      ensures this.env == env && this.maxFileBytes == maxFileBytes && this.files == files && held == {}
    {
      this.env, this.maxFileBytes, this.files, held := env, maxFileBytes, files, {};
    }

    /** `InFlight::claim`. */
    method Claim(id: string) returns (ok: bool)
      modifies `held
      ensures ok == (id !in old(held)) && held == old(held) + {id}
    {
      ok := id !in held;
      held := held + {id};
    }

    /** The loop that takes the stream in: what is hashed is what is on disk. */
    method TakeIn(o: Offer, items: seq<Item>) returns (r: Outcome, hashed: seq<byte>)
      modifies `files
      ensures Touched(old(files), files, o, env)
      ensures (Dest(o.name) in files <==> Dest(o.name) in old(files))
           && (Dest(o.name) in files ==> files[Dest(o.name)] == old(files)[Dest(o.name)])
      ensures var whole := Leftover(old(files), o, env) + Arrived(items);
        && r == (if |whole| > o.size then Oversent else if Unbroken(items) then Received else Interrupted)
        && (r == Oversent ==> PartOf(o, env) !in files)
        && (r != Oversent ==> hashed == whole && PartOf(o, env) in files && files[PartOf(o, env)] == whole)
    {
      var part, offset := PartOf(o, env), ResumeAt(files, o, env);
      ghost var left := Leftover(files, o, env);
      hashed := if offset > 0 then files[part] else [];
      if offset == 0 { files := files[part := []]; }
      var written, i := offset, 0;
      assert Arrived(items[..0]) == [] && left + [] == left;
      while i < |items|
        invariant 0 <= i <= |items| && Unbroken(items[..i]) && OnlyAt(old(files), files, part)
        invariant part in files && files[part] == hashed == left + Arrived(items[..i]) && written == |hashed| <= o.size
      {
        if items[i].Lost? {
          LostAt(items, i);
          return Interrupted, hashed;
        }
        TakesOne(left, items, i);
        var bytes := items[i].bytes;
        written := written + |bytes|;
        if written > o.size {
          files := files - {part};
          return Oversent, hashed;
        }
        hashed := hashed + bytes;
        files := files[part := files[part] + bytes];
        i := i + 1;
      }
      assert items[..|items|] == items;
      r := Received;
    }

    /**
     `push_offer`.  A call succeeds exactly when the offer is within this node's limit, nobody else is
     receiving the transfer, the destination may be written, the sender's head is the offer's, its stream
     ends cleanly, and what was left plus what arrived has the offered length and digest; then exactly
     those bytes are in place.  Otherwise the destination is untouched.
     */
    method PushOffer(o: Offer, pulled: Pulled) returns (r: Outcome)
      modifies this
      ensures held == old(held) && Touched(old(files), files, o, env)
      ensures !Admitted(o, maxFileBytes, old(held), old(files)) ==>
        files == old(files) && r == if o.size > maxFileBytes then TooBig else if o.id in old(held) then InFlight else Exists
      ensures Admitted(o, maxFileBytes, old(held), old(files)) && !Confirmed(o, pulled) ==>
        files == old(files) && r == if pulled.NoStream? then NotPulled else Different
      ensures Admitted(o, maxFileBytes, old(held), old(files)) && Confirmed(o, pulled) ==>
        var whole := Leftover(old(files), o, env) + Arrived(pulled.items);
        && r == (if |whole| > o.size then Oversent
                 else if !Unbroken(pulled.items) then Interrupted
                 else if |whole| != o.size || env.sha(whole) != o.sha then Mismatch
                 else Received)
        && (r == Interrupted ==> PartOf(o, env) in files && files[PartOf(o, env)] == whole)
        && (r != Interrupted ==> PartOf(o, env) !in files)
        && (r == Received ==> Dest(o.name) in files && files[Dest(o.name)] == whole)
      ensures r != Received ==>
                (Dest(o.name) in files <==> Dest(o.name) in old(files))
                && (Dest(o.name) in files ==> files[Dest(o.name)] == old(files)[Dest(o.name)])
    {
      if o.size > maxFileBytes { return TooBig; }
      var claimed := Claim(o.id);
      if !claimed { return InFlight; }
      var dest, part := Dest(o.name), PartOf(o, env);
      if dest in files && !o.overwrite {
        r := Exists;
      } else if pulled.NoStream? {
        r := NotPulled;
      } else if pulled.sha != o.sha || pulled.size != o.size {
        r := Different;
      } else {
        var hashed;
        r, hashed := TakeIn(o, pulled.items);
        if r == Received {
          if env.sha(hashed) != o.sha || LengthOf(files, part) != o.size {
            files := files - {part};
            r := Mismatch;
          } else {
            files := (files - {part})[dest := files[part]];
          }
        }
      }
      held := held - {o.id};
    }
  }

  lemma AddBytes(a: seq<byte>, b: seq<byte>, c: seq<byte>)
    ensures (a + b) + c == a + (b + c)
  {
  }

  /** A retry after any interruption: what is left of the source is exactly what is asked for. */
  lemma RetryCompletes(files: Files, o: Offer, env: Env, source: seq<byte>, items: seq<Item>)
    requires o.size == |source| && (PartOf(o, env) in files ==> files[PartOf(o, env)] <= source)
    requires Arrived(items) == source[ResumeAt(files, o, env)..]
    ensures Leftover(files, o, env) + Arrived(items) == source
  {
  }
}
