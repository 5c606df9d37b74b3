/**
 Concurrent changes of what a node serves.  A change reads the list, works out the one it wants, and
 swaps it in; reading and swapping are two steps, and other changes may come between them.
 */
module Changes {
  import opened Base
  import opened Capabilities

  datatype Op = Add(c: Capability) | Remove(name: Name) | Replace(caps: seq<Capability>)

  /** The list a change wants, from the list it read. */
  function Wanted(op: Op, caps: seq<Capability>): (r: seq<Capability>)
  {
    match op
    case Add(c) => caps + [c]
    case Remove(name) => Without(caps, name)
    case Replace(new') => new'
  }

  /** `revoked` is what the last swap told the connections to drop. */
  datatype World = World(served: seq<Capability>, edits: map<nat, seq<Capability>>, revoked: set<Name>)

  const Start := World([], map[], {})

  datatype Act = Read(t: nat, op: Op) | Swap(t: nat)

  predicate Enabled(w: World, a: Act)
  {
    match a
    case Read(t, op) => t !in w.edits && (op.Remove? ==> op.name in NamesOf(w.served))
    case Swap(t) => t in w.edits
  }

  function NamesOf(caps: seq<Capability>): set<Name>
  {
    set i | 0 <= i < |caps| :: caps[i].name
  }

  /** A list with a repeat is refused. */
  ghost function Next(w: World, a: Act): (r: World)
    requires Enabled(w, a)
  {
    match a
    case Read(t, op) => w.(edits := w.edits[t := Wanted(op, w.served)])
    case Swap(t) =>
      var edits := w.edits - {t};
      if NoRepeats(w.edits[t]) then World(w.edits[t], edits, NamesOf(w.served) - NamesOf(w.edits[t])) else w.(edits := edits)
  }

  ghost predicate Run(ws: seq<World>, acts: seq<Act>)
  {
    |ws| == |acts| + 1 && ws[0] == Start
    && forall i {:trigger acts[i]} :: 0 <= i < |acts| ==> Enabled(ws[i], acts[i]) && ws[i + 1] == Next(ws[i], acts[i])
  }

  /** The change swapped in at `i` read the list at `m`. */
  ghost predicate From(acts: seq<Act>, m: nat, i: nat, op: Op)
  {
    m < i < |acts| && acts[i].Swap? && acts[m] == Read(acts[i].t, op) && forall k :: m < k < i ==> acts[k] != Swap(acts[i].t)
  }

  lemma {:induction false} EditStays(ws: seq<World>, acts: seq<Act>, m: nat, i: nat, op: Op, k: nat)
    requires Run(ws, acts) && From(acts, m, i, op) && m < k <= i
    ensures acts[i].t in ws[k].edits && ws[k].edits[acts[i].t] == Wanted(op, ws[m].served)
    decreases k
  {
    if k == m + 1 {
      assert Enabled(ws[m], acts[m]) && ws[k] == Next(ws[m], acts[m]);
    } else {
      EditStays(ws, acts, m, i, op, k - 1);
      assert Enabled(ws[k - 1], acts[k - 1]) && ws[k] == Next(ws[k - 1], acts[k - 1]) && acts[k - 1] != Swap(acts[i].t);
    }
  }

  /**
   An accepted change does to the list what it was asked to do exactly when what it wants of the list it
   read is what it wants of the list it replaces; for an addition, when the two are the same list.
   */
  lemma NothingIsOverwrittenExactlyWhen(ws: seq<World>, acts: seq<Act>, m: nat, i: nat, op: Op)
    requires Run(ws, acts) && From(acts, m, i, op) && NoRepeats(Wanted(op, ws[m].served))
    ensures ws[i + 1].served == Wanted(op, ws[i].served) <==> Wanted(op, ws[m].served) == Wanted(op, ws[i].served)
    ensures op.Add? ==> (ws[i + 1].served == Wanted(op, ws[i].served) <==> ws[m].served == ws[i].served)
  {
    EditStays(ws, acts, m, i, op, i);
    assert Enabled(ws[i], acts[i]) && ws[i + 1] == Next(ws[i], acts[i]);
    if op.Add? && ws[m].served + [op.c] == ws[i].served + [op.c] { SameFront(ws[m].served, ws[i].served, op.c); }
  }

  lemma SameFront(a: seq<Capability>, b: seq<Capability>, c: Capability)
    requires a + [c] == b + [c]
    ensures a == b
  {
    assert a == (a + [c])[..|a|] && b == (b + [c])[..|b|];
  }

  /** Every change in the run swaps in what it was asked for of the list it replaces. */
  ghost predicate Serial(ws: seq<World>, acts: seq<Act>)
    requires |ws| == |acts| + 1
  {
    forall m: nat, i: nat, op {:trigger From(acts, m, i, op)} ::
      From(acts, m, i, op) ==> Wanted(op, ws[m].served) == Wanted(op, ws[i].served)
  }

  /** The change takes `c` off the list on purpose. */
  predicate TakesOff(op: Op, c: Capability)
  {
    match op
    case Add(_) => false
    case Remove(name) => name == c.name
    case Replace(caps) => c !in caps
  }

  lemma {:induction false} WithoutKeeps(caps: seq<Capability>, name: Name, c: Capability)
    requires c in caps && c.name != name
    ensures c in Without(caps, name)
  {
    if caps[0] != c { WithoutKeeps(caps[1..], name, c); }
  }

  /** Every swap has a read it goes back to. */
  lemma {:induction false} ReadBefore(ws: seq<World>, acts: seq<Act>, i: nat, t: nat) returns (m: nat, op: Op)
    requires Run(ws, acts) && i < |ws| && t in ws[i].edits
    ensures m < i && acts[m] == Read(t, op) && forall k :: m < k < i ==> acts[k] != Swap(t)
    decreases i
  {
    var a := acts[i - 1];
    assert Enabled(ws[i - 1], a) && ws[i] == Next(ws[i - 1], a);
    if a.Read? && a.t == t {
      m, op := i - 1, a.op;
    } else {
      m, op := ReadBefore(ws, acts, i - 1, t);
    }
  }

  /** One step of a serial run keeps what nobody takes off. */
  lemma StepKeeps(ws: seq<World>, acts: seq<Act>, i: nat, c: Capability)
    requires Run(ws, acts) && Serial(ws, acts) && i < |acts| && c in ws[i].served
    requires forall m: nat, op :: From(acts, m, i, op) ==> !TakesOff(op, c)
    ensures c in ws[i + 1].served
  {
    var a := acts[i];
    assert Enabled(ws[i], a) && ws[i + 1] == Next(ws[i], a);
    if a.Swap? {
      var m, op := ReadBefore(ws, acts, i, a.t);
      assert From(acts, m, i, op);
      EditStays(ws, acts, m, i, op, i);
      assert ws[i].edits[a.t] == Wanted(op, ws[i].served);
      if op.Remove? { WithoutKeeps(ws[i].served, op.name, c); }
    }
  }

  /** In a serial run what is served stays until a change takes it off. */
  lemma {:induction false} ServedStays(ws: seq<World>, acts: seq<Act>, i: nat, j: nat, c: Capability)
    requires Run(ws, acts) && Serial(ws, acts) && i <= j <= |acts| && c in ws[i].served
    requires forall m: nat, k: nat, op :: i <= k < j && From(acts, m, k, op) ==> !TakesOff(op, c)
    ensures c in ws[j].served
    decreases j - i
  {
    if i < j {
      StepKeeps(ws, acts, i, c);
      ServedStays(ws, acts, i + 1, j, c);
    }
  }

  /**
   Two additions at once: both are accepted and nobody removes anything, yet the first is gone and its
   calls are revoked.
   */
  lemma AnAdditionIsLost(a: Capability, b: Capability) returns (ws: seq<World>, acts: seq<Act>)
    requires a.name != b.name
    ensures acts == [Read(0, Add(a)), Read(1, Add(b)), Swap(0), Swap(1)] && Run(ws, acts)
    ensures ws[3].served == [a] && ws[4].served == [b] && a.name in ws[4].revoked
  {
    acts := [Read(0, Add(a)), Read(1, Add(b)), Swap(0), Swap(1)];
    assert [] + [a] == [a] && [] + [b] == [b];
    var w1 := World([], map[0 := [a]], {});
    var w2 := World([], map[0 := [a], 1 := [b]], {});
    var w3 := World([a], map[1 := [b]], {});
    var w4 := World([b], map[], {a.name});
    assert Next(Start, acts[0]) == w1 && Next(w1, acts[1]) == w2;
    assert Next(w2, acts[2]) == w3 by { assert w2.edits - {0} == w3.edits; }
    assert Next(w3, acts[3]) == w4 by {
      assert w3.edits - {1} == map[];
      assert [a][0].name in NamesOf([a]) && NamesOf([a]) == {a.name} && [b][0].name in NamesOf([b]) && NamesOf([b]) == {b.name};
    }
    ws := [Start, w1, w2, w3, w4];
  }
}
