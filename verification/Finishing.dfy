/**
 No call on the ledger is ever stuck: from any state, whatever lock lies about, it can run to its end.
 */
module Finishing {
  import opened Base
  import opened Ledger

  /** `ws` is what the acts lead through. */
  ghost predicate Steps(ws: seq<World>, acts: seq<Act>, canon: Canon)
  {
    |ws| == |acts| + 1
    && forall i {:trigger acts[i]} :: 0 <= i < |acts| ==> Enabled(ws[i], acts[i]) && ws[i + 1] == Next(ws[i], acts[i], canon)
  }

  lemma OneBefore(w: World, a: Act, ws: seq<World>, acts: seq<Act>, canon: Canon)
    requires Enabled(w, a) && Steps(ws, acts, canon) && ws[0] == Next(w, a, canon)
    ensures Steps([w] + ws, [a] + acts, canon)
  {
    var more, all := [w] + ws, [a] + acts;
    forall i | 0 <= i < |all| ensures Enabled(more[i], all[i]) && more[i + 1] == Next(more[i], all[i], canon) {
      if i > 0 { assert more[i] == ws[i - 1] && all[i] == acts[i - 1] && more[i + 1] == ws[i]; }
    }
  }

  lemma {:induction false} Longer(used: set<Nonce>) returns (n: nat)
    ensures forall s | s in used :: |s| < n
    decreases |used|
  {
    if used == {} {
      n := 0;
    } else {
      var s :| s in used;
      n := Longer(used - {s});
      if n <= |s| { n := |s| + 1; }
      assert forall x | x in used :: x == s || x in used - {s};
    }
  }

  /** There is always a nonce nobody has used. */
  lemma FreshNonce(used: set<Nonce>) returns (nonce: Nonce)
    ensures nonce !in used
  {
    var n := Longer(used);
    nonce := seq(n, _ => 'a');
  }

  /** What a call still has before it. */
  function Ahead(phase: Phase, lock: bool): nat
  {
    match phase
    case Looking => 12
    case Asking => 11
    case Trying => if lock then 10 else 8
    case Breaking => 9
    case Created(_, _) => 7
    case Held(_, _) => 6
    case Ready(_, _, _, _) => 5
    case Dropping(_, _, _) => 4
    case Removing(_, _, _) => 3
    case Done(_) => 0
    case Crashed => 0
  }

  function AheadOf(w: World, p: nat): nat
    requires p in w.calls
  {
    Ahead(w.calls[p].phase, w.fs.lock.Some?)
  }

  /** What it does next: a lock in its way is waited out until it is stale, and broken. */
  lemma Onwards(w: World, p: nat, canon: Canon) returns (a: Act)
    requires p in w.calls && !w.calls[p].phase.Done? && !w.calls[p].phase.Crashed?
    ensures a.p == p && !a.Fail? && !a.Crash? && Enabled(w, a)
    ensures var w' := Next(w, a, canon); p in w'.calls && !w'.calls[p].phase.Crashed? && AheadOf(w', p) < AheadOf(w, p)
  {
    var nonce := FreshNonce(w.used);
    match w.calls[p].phase
    case Looking => a := Lookup(p);
    case Asking => a := Answer(p, false);
    case Trying => a := if w.fs.lock.Some? then Stale(p) else Create(p, nonce);
    case Breaking => a := BreakLock(p);
    case Created(_, _) => a := Write(p);
    case Held(_, _) => a := ReadLedger(p, 0);
    case Ready(_, _, _, _) => a := Publish(p);
    case Dropping(_, _, _) => a := DropRead(p);
    case Removing(_, _, _) => a := DropRemove(p);
  }

  /** Every call can be brought to its end by its own acts, without failing at any of them. */
  lemma {:induction false} EveryCallCanEnd(w: World, p: nat, canon: Canon) returns (ws: seq<World>, acts: seq<Act>)
    requires p in w.calls && !w.calls[p].phase.Crashed?
    ensures Steps(ws, acts, canon) && ws[0] == w && p in ws[|acts|].calls && ws[|acts|].calls[p].phase.Done?
    ensures forall i :: 0 <= i < |acts| ==> acts[i].p == p && !acts[i].Fail?
    decreases AheadOf(w, p)
  {
    if w.calls[p].phase.Done? {
      ws, acts := [w], [];
    } else {
      var a := Onwards(w, p, canon);
      ws, acts := EveryCallCanEnd(Next(w, a, canon), p, canon);
      OneBefore(w, a, ws, acts, canon);
      ws, acts := [w] + ws, [a] + acts;
    }
  }
}
