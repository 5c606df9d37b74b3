/**
 What a node serves, changeable while it is connected, and what a change does to live connections.
 */
module Capabilities {
  import opened Base

  type Name = string

  datatype Capability = Capability(name: Name, version: nat, handler: nat)

  datatype Descriptor = Descriptor(name: Name, version: nat, handler: nat)

  /** A capability's own description of itself. */
  function Describe(c: Capability): Descriptor
  {
    Descriptor(c.name, c.version, c.handler)
  }

  datatype Served = Served(capabilities: seq<Capability>, descriptors: seq<Descriptor>, byName: map<Name, Capability>)

  /** No (name, version) is listed twice. */
  ghost predicate NoRepeats(caps: seq<Capability>)
  {
    forall i, j :: 0 <= i < j < |caps| ==> !(caps[i].name == caps[j].name && caps[i].version == caps[j].version)
  }

  ghost predicate LastOf(caps: seq<Capability>, i: int, name: Name)
  {
    0 <= i < |caps| && caps[i].name == name && forall j :: i < j < |caps| ==> caps[j].name != name
  }

  /** The index has exactly the listed names, and each finds the last listed capability of that name. */
  ghost predicate Indexes(byName: map<Name, Capability>, caps: seq<Capability>)
  {
    && (forall i :: 0 <= i < |caps| ==> caps[i].name in byName)
    && (forall n | n in byName :: exists i :: LastOf(caps, i, n) && byName[n] == caps[i])
  }

  ghost predicate Describes(d: Descriptor, c: Capability)
  {
    d.name == c.name && d.version == c.version && d.handler == c.handler
  }

  ghost predicate Sound(s: Served)
  {
    && NoRepeats(s.capabilities) && Indexes(s.byName, s.capabilities)
    && |s.descriptors| == |s.capabilities|
    && forall i :: 0 <= i < |s.capabilities| ==> Describes(s.descriptors[i], s.capabilities[i])
  }

  lemma IndexesAppend(byName: map<Name, Capability>, caps: seq<Capability>, c: Capability)
    requires Indexes(byName, caps)
    ensures Indexes(byName[c.name := c], caps + [c])
  {
    var now, more := byName[c.name := c], caps + [c];
    forall n | n in now ensures exists i :: LastOf(more, i, n) && now[n] == more[i] {
      if n == c.name {
        assert LastOf(more, |caps|, n);
      } else {
        var i :| LastOf(caps, i, n) && byName[n] == caps[i];
        assert LastOf(more, i, n);
      }
    }
  }

  /** So a list has one index only. */
  lemma OneIndex(a: map<Name, Capability>, b: map<Name, Capability>, caps: seq<Capability>)
    requires Indexes(a, caps) && Indexes(b, caps)
    ensures a == b
  {
    forall n | n in a ensures n in b && a[n] == b[n] { SameEntry(a, b, caps, n); }
    forall n | n in b ensures n in a { SameEntry(b, a, caps, n); }
  }

  lemma SameEntry(a: map<Name, Capability>, b: map<Name, Capability>, caps: seq<Capability>, n: Name)
    requires Indexes(a, caps) && Indexes(b, caps) && n in a
    ensures n in b && a[n] == b[n]
  {
    var i :| LastOf(caps, i, n) && a[n] == caps[i];
    assert caps[i].name in b;
    var j :| LastOf(caps, j, n) && b[n] == caps[j];
    assert i == j;
  }

  predicate Seen(descriptors: seq<Descriptor>, d: Descriptor)
  {
    exists k :: 0 <= k < |descriptors| && descriptors[k].name == d.name && descriptors[k].version == d.version
  }

  lemma Repeats(s: Served, c: Capability, rest: seq<Capability>)
    requires Sound(s) && Seen(s.descriptors, Describe(c))
    ensures !NoRepeats(s.capabilities + [c] + rest)
  {
    var k :| 0 <= k < |s.descriptors| && s.descriptors[k].name == c.name && s.descriptors[k].version == c.version;
    var all := s.capabilities + [c] + rest;
    assert all[k] == s.capabilities[k] && all[|s.capabilities|] == c;
  }

  lemma OneMore(s: Served, c: Capability)
    requires Sound(s) && !Seen(s.descriptors, Describe(c))
    ensures Sound(Served(s.capabilities + [c], s.descriptors + [Describe(c)], s.byName[c.name := c]))
  {
    IndexesAppend(s.byName, s.capabilities, c);
    forall i | 0 <= i < |s.capabilities| ensures !(s.capabilities[i].name == c.name && s.capabilities[i].version == c.version) {
      assert Describes(s.descriptors[i], s.capabilities[i]);
    }
  }

  lemma CutAt(caps: seq<Capability>, i: nat)
    requires i < |caps|
    ensures caps[..i + 1] == caps[..i] + [caps[i]] && caps == caps[..i] + [caps[i]] + caps[i + 1..]
  {
  }

  /** `Served::build`. */
  method Build(caps: seq<Capability>) returns (r: Option<Served>)
    ensures r.Some? <==> NoRepeats(caps)
    ensures r.Some? ==> Sound(r.value) && r.value.capabilities == caps
  {
    var descriptors: seq<Descriptor>, byName: map<Name, Capability> := [], map[];
    for i := 0 to |caps|
      invariant Sound(Served(caps[..i], descriptors, byName))
    {
      var d := Describe(caps[i]);
      CutAt(caps, i);
      if Seen(descriptors, d) {
        Repeats(Served(caps[..i], descriptors, byName), caps[i], caps[i + 1..]);
        return None;
      }
      OneMore(Served(caps[..i], descriptors, byName), caps[i]);
      byName := byName[d.name := caps[i]];
      descriptors := descriptors + [d];
    }
    assert caps[..|caps|] == caps;
    r := Some(Served(caps, descriptors, byName));
  }

  /** What stays when `name` is no longer offered, in order. */
  function Without(caps: seq<Capability>, name: Name): (r: seq<Capability>)
  {
    if caps == [] then []
    else (if caps[0].name != name then [caps[0]] else []) + Without(caps[1..], name)
  }

  lemma {:induction false} WithoutFrom(caps: seq<Capability>, name: Name)
    ensures forall c | c in Without(caps, name) :: c in caps && c.name != name
    ensures forall c | c in caps && c.name != name :: c in Without(caps, name)
  {
    if caps != [] {
      WithoutFrom(caps[1..], name);
      assert caps == [caps[0]] + caps[1..];
    }
  }

  lemma {:induction false} WithoutNoRepeats(caps: seq<Capability>, name: Name)
    requires NoRepeats(caps)
    ensures NoRepeats(Without(caps, name))
  {
    if caps != [] {
      var rest := Without(caps[1..], name);
      WithoutNoRepeats(caps[1..], name);
      WithoutFrom(caps[1..], name);
      forall k | 0 <= k < |rest| ensures !(rest[k].name == caps[0].name && rest[k].version == caps[0].version) {
        assert rest[k] in rest && rest[k] in caps[1..];
        var j :| 0 <= j < |caps[1..]| && caps[1..][j] == rest[k];
        assert caps[j + 1] == rest[k];
      }
    }
  }

  // ---------------------------------------------------------------- a live connection

  datatype InflightCall = InflightCall(capability: Name, task: nat, replied: bool, stream: Option<nat>)

  /** What a peer is told about a revoked call: an error in place of its reply, or the end of its stream. */
  datatype Notice = Failed(id: nat) | StreamFailed(stream: nat)

  predicate Victim(call: InflightCall, name: Name, caller: Option<nat>)
  {
    call.capability == name && caller != Some(call.task)
  }

  /** The table once `name` has been revoked. */
  function Spared(table: map<nat, InflightCall>, name: Name, caller: Option<nat>): (r: map<nat, InflightCall>)
  {
    map id | id in table && !Victim(table[id], name, caller) :: table[id]
  }

  /** One notice to each victim that can still hear one. */
  function NoticeTo(id: nat, call: InflightCall): seq<Notice>
  {
    if !call.replied then [Failed(id)]
    else if call.stream.Some? then [StreamFailed(call.stream.value)]
    else []
  }

  datatype Taken = Taken(id: nat, call: InflightCall)

  function Notices(victims: seq<Taken>): (r: seq<Notice>)
  {
    if victims == [] then [] else
    Notices(victims[..|victims| - 1]) + NoticeTo(victims[|victims| - 1].id, victims[|victims| - 1].call)
  }

  ghost predicate Holds(victims: seq<Taken>, id: nat)
  {
    exists i :: 0 <= i < |victims| && victims[i].id == id
  }

  /** Each victim is listed, once, with its call; nothing else is. */
  ghost predicate Lists(victims: seq<Taken>, table: map<nat, InflightCall>, name: Name, caller: Option<nat>)
  {
    && (forall i, j :: 0 <= i < j < |victims| ==> victims[i].id != victims[j].id)
    && (forall i :: 0 <= i < |victims| ==> victims[i].id in table && victims[i].call == table[victims[i].id])
    && (forall i :: 0 <= i < |victims| ==> Victim(victims[i].call, name, caller))
    && (forall id | id in table && Victim(table[id], name, caller) :: Holds(victims, id))
  }

  function Tasks(victims: seq<Taken>): set<nat>
  {
    if victims == [] then {} else Tasks(victims[..|victims| - 1]) + {victims[|victims| - 1].call.task}
  }

  /** The streams among the victims that had already begun, and so end here. */
  function EndedStreams(victims: seq<Taken>): set<nat>
  {
    if victims == [] then {} else
    var call := victims[|victims| - 1].call;
    EndedStreams(victims[..|victims| - 1]) + if call.replied && call.stream.Some? then {call.stream.value} else {}
  }

  /** A call on `name` that is not the caller's own is told of its failure: as its reply if it has none yet, or on its stream. */
  ghost predicate Tells(table: map<nat, InflightCall>, id: nat, name: Name, caller: Option<nat>, n: Notice)
  {
    && id in table && table[id].capability == name && caller != Some(table[id].task)
    && (n == Failed(id) ==> !table[id].replied)
    && (n != Failed(id) ==> table[id].replied && table[id].stream.Some? && n == StreamFailed(table[id].stream.value))
  }

  ghost predicate Hears(v: Taken, n: Notice)
  {
    (!v.call.replied && n == Failed(v.id)) || (v.call.replied && v.call.stream.Some? && n == StreamFailed(v.call.stream.value))
  }

  ghost predicate SomeHears(victims: seq<Taken>, n: Notice)
  {
    exists i :: 0 <= i < |victims| && Hears(victims[i], n)
  }

  lemma {:induction false} NoticesAre(victims: seq<Taken>, n: Notice)
    ensures n in Notices(victims) <==> SomeHears(victims, n)
    decreases |victims|
  {
    if victims != [] {
      var k := |victims| - 1;
      NoticesAre(victims[..k], n);
      assert forall i :: 0 <= i < k ==> victims[..k][i] == victims[i];
      if SomeHears(victims, n) && !Hears(victims[k], n) {
        var i :| 0 <= i < |victims| && Hears(victims[i], n);
        assert Hears(victims[..k][i], n);
      }
    }
  }

  lemma {:induction false} TasksAre(victims: seq<Taken>)
    ensures Tasks(victims) == set i | 0 <= i < |victims| :: victims[i].call.task
    decreases |victims|
  {
    if victims != [] {
      var k := |victims| - 1;
      TasksAre(victims[..k]);
      assert forall i :: 0 <= i < k ==> victims[..k][i] == victims[i];
    }
  }

  lemma {:induction false} EndedAre(victims: seq<Taken>)
    ensures EndedStreams(victims) ==
      set i | 0 <= i < |victims| && victims[i].call.replied && victims[i].call.stream.Some? :: victims[i].call.stream.value
    decreases |victims|
  {
    if victims != [] {
      var k := |victims| - 1;
      EndedAre(victims[..k]);
      assert forall i :: 0 <= i < k ==> victims[..k][i] == victims[i];
    }
  }

  /** No call is told twice that it has no reply to wait for. */
  ghost predicate FailsOnce(notices: seq<Notice>)
  {
    forall i, j :: 0 <= i < j < |notices| ==> notices[i].StreamFailed? || notices[i] != notices[j]
  }

  lemma {:induction false} EachFailsOnce(victims: seq<Taken>)
    requires forall i, j :: 0 <= i < j < |victims| ==> victims[i].id != victims[j].id
    ensures FailsOnce(Notices(victims))
    decreases |victims|
  {
    if victims != [] {
      var k := |victims| - 1;
      var front, v := victims[..k], victims[k];
      EachFailsOnce(front);
      NoticesAre(front, Failed(v.id));
      assert forall i :: 0 <= i < k ==> front[i].id == victims[i].id;
      assert !SomeHears(front, Failed(v.id));
      OneMoreNotice(Notices(front), NoticeTo(v.id, v.call), v.id);
    }
  }

  lemma OneMoreNotice(told: seq<Notice>, last: seq<Notice>, id: nat)
    requires FailsOnce(told) && Failed(id) !in told
    requires |last| <= 1 && forall i :: 0 <= i < |last| ==> last[i].StreamFailed? || last[i] == Failed(id)
    ensures FailsOnce(told + last)
  {
  }

  /** Each call the revocation of `names` reaches has been told, where it can still hear, and its worker stopped. */
  ghost predicate Told(table: map<nat, InflightCall>, names: seq<Name>, caller: Option<nat>, out: seq<Notice>, aborted: set<nat>)
  {
    forall id | id in table && table[id].capability in names && caller != Some(table[id].task) ::
      && table[id].task in aborted
      && (!table[id].replied ==> Failed(id) in out)
      && (table[id].replied && table[id].stream.Some? ==> StreamFailed(table[id].stream.value) in out)
  }

  lemma ToldOneMore(was: map<nat, InflightCall>, names: seq<Name>, name: Name, caller: Option<nat>,
                    out: seq<Notice>, aborted: set<nat>, victims: seq<Taken>)
    requires Told(was, names, caller, out, aborted) && Lists(victims, SparedAll(was, names, caller), name, caller)
    ensures Told(was, names + [name], caller, out + Notices(victims), aborted + Tasks(victims))
  {
    var table := SparedAll(was, names, caller);
    RevokedAre(victims, table, name, caller);
    forall id | id in was && was[id].capability == name && caller != Some(was[id].task) && name !in names
      ensures was[id].task in Tasks(victims)
      ensures !was[id].replied ==> Failed(id) in Notices(victims)
      ensures was[id].replied && was[id].stream.Some? ==> StreamFailed(was[id].stream.value) in Notices(victims)
    {
      assert id in table && table[id] == was[id];
      assert !was[id].replied ==> Tells(table, id, name, caller, Failed(id));
      assert was[id].replied && was[id].stream.Some? ==> Tells(table, id, name, caller, StreamFailed(was[id].stream.value));
    }
  }

  /** So, said of the table alone: who is told what, whose worker is stopped, and which streams end. */
  lemma RevokedAre(victims: seq<Taken>, table: map<nat, InflightCall>, name: Name, caller: Option<nat>)
    requires Lists(victims, table, name, caller)
    ensures forall n :: n in Notices(victims) <==> exists id :: Tells(table, id, name, caller, n)
    ensures Tasks(victims) == set id | id in table && table[id].capability == name && caller != Some(table[id].task) :: table[id].task
    ensures EndedStreams(victims) ==
      set id | id in table && table[id].capability == name && caller != Some(table[id].task) && table[id].replied && table[id].stream.Some?
            :: table[id].stream.value
  {
    forall n ensures n in Notices(victims) <==> exists id :: Tells(table, id, name, caller, n) {
      NoticesAre(victims, n);
      if SomeHears(victims, n) {
        var i :| 0 <= i < |victims| && Hears(victims[i], n);
        assert Tells(table, victims[i].id, name, caller, n);
      }
      if id :| Tells(table, id, name, caller, n) {
        assert Holds(victims, id);
        var i :| 0 <= i < |victims| && victims[i].id == id;
        assert Hears(victims[i], n);
      }
    }
    TasksAre(victims);
    EndedAre(victims);
    assert forall id | id in table && Victim(table[id], name, caller) :: Holds(victims, id);
  }

  function VictimIds(table: map<nat, InflightCall>, name: Name, caller: Option<nat>): set<nat>
  {
    set id | id in table && Victim(table[id], name, caller)
  }

  /** Some victims of `was` have been taken, those in `ids` are still to be. */
  ghost predicate Taking(was: map<nat, InflightCall>, now: map<nat, InflightCall>, ids: set<nat>, victims: seq<Taken>,
                         name: Name, caller: Option<nat>)
  {
    && ids <= VictimIds(was, name, caller)
    && now == (map id | id in was && (id in ids || !Victim(was[id], name, caller)) :: was[id])
    && (forall i, j :: 0 <= i < j < |victims| ==> victims[i].id != victims[j].id)
    && (forall i :: 0 <= i < |victims| ==> victims[i].id in was && victims[i].id !in ids && victims[i].call == was[victims[i].id])
    && (forall i :: 0 <= i < |victims| ==> Victim(victims[i].call, name, caller))
    && (forall id | id in VictimIds(was, name, caller) :: id in ids || Holds(victims, id))
  }

  lemma TakeOne(was: map<nat, InflightCall>, now: map<nat, InflightCall>, ids: set<nat>, victims: seq<Taken>,
                name: Name, caller: Option<nat>, id: nat)
    requires Taking(was, now, ids, victims, name, caller) && id in ids
    ensures id in now && Taking(was, now - {id}, ids - {id}, victims + [Taken(id, now[id])], name, caller)
  {
    var more := victims + [Taken(id, now[id])];
    assert more[|victims|].id == id;
    forall k | Holds(victims, k) ensures Holds(more, k) {
      var i :| 0 <= i < |victims| && victims[i].id == k;
      assert more[i].id == k;
    }
  }

  class Live {
    var closed: bool
    var inflight: map<nat, InflightCall>
    var credits: set<nat>
    var out: seq<Notice>
    var aborted: set<nat>

    /** Takes the victims out of the table, under its lock. */
    method TakeVictims(name: Name, caller: Option<nat>) returns (victims: seq<Taken>)
      modifies `inflight
      ensures inflight == Spared(old(inflight), name, caller)
      ensures Lists(victims, old(inflight), name, caller)
    {
      var ids := VictimIds(inflight, name, caller);
      victims := [];
      while ids != {}
        invariant Taking(old(inflight), inflight, ids, victims, name, caller)
        decreases |ids|
      {
        var id :| id in ids;
        TakeOne(old(inflight), inflight, ids, victims, name, caller, id);
        victims := victims + [Taken(id, inflight[id])];
        ids, inflight := ids - {id}, inflight - {id};
      }
    }

    /** Answers each victim where it can still hear, takes the gate of a stream it ends, and aborts its task. */
    method Dismiss(victims: seq<Taken>)
      modifies `out, `aborted, `credits
      ensures out == old(out) + Notices(victims) && aborted == old(aborted) + Tasks(victims)
      ensures credits == old(credits) - EndedStreams(victims)
    {
      for i := 0 to |victims|
        invariant out == old(out) + Notices(victims[..i]) && aborted == old(aborted) + Tasks(victims[..i])
        invariant credits == old(credits) - EndedStreams(victims[..i])
      {
        var id, call := victims[i].id, victims[i].call;
        assert victims[..i + 1][..i] == victims[..i];
        if !call.replied {
          out := out + [Failed(id)];
        } else if call.stream.Some? {
          out := out + [StreamFailed(call.stream.value)];
          credits := credits - {call.stream.value};
        }
        aborted := aborted + {call.task};
      }
      assert victims[..|victims|] == victims;
    }

    /** `revoke_inflight`. */
    method RevokeInflight(name: Name, caller: Option<nat>) returns (victims: seq<Taken>)
      modifies this
      ensures closed == old(closed) && inflight == Spared(old(inflight), name, caller)
      ensures Lists(victims, old(inflight), name, caller)
      ensures out == old(out) + Notices(victims) && aborted == old(aborted) + Tasks(victims)
      ensures credits == old(credits) - EndedStreams(victims)
      ensures forall n :: n in Notices(victims) <==> exists id :: Tells(old(inflight), id, name, caller, n)
      ensures FailsOnce(Notices(victims))
    {
      victims := TakeVictims(name, caller);
      Dismiss(victims);
      RevokedAre(victims, old(inflight), name, caller);
      EachFailsOnce(victims);
    }

    /** Every withdrawn name, one after the other. */
    method RevokeAll(names: seq<Name>, caller: Option<nat>)
      modifies this
      ensures closed == old(closed) && inflight == SparedAll(old(inflight), names, caller)
      ensures Told(old(inflight), names, caller, out, aborted)
    {
      for i := 0 to |names|
        invariant closed == old(closed) && inflight == SparedAll(old(inflight), names[..i], caller)
        invariant Told(old(inflight), names[..i], caller, out, aborted)
      {
        ghost var told, stopped := out, aborted;
        var victims := RevokeInflight(names[i], caller);
        ToldOneMore(old(inflight), names[..i], names[i], caller, told, stopped, victims);
        SparedOneMore(old(inflight), names[..i], names[i], caller);
        assert names[..i + 1] == names[..i] + [names[i]];
      }
      assert names[..|names|] == names;
    }
  }

  /** The table once every one of `names` has been revoked: none of them is left but the caller's own. */
  function SparedAll(table: map<nat, InflightCall>, names: seq<Name>, caller: Option<nat>): (r: map<nat, InflightCall>)
  {
    map id | id in table && (table[id].capability in names ==> caller == Some(table[id].task)) :: table[id]
  }

  lemma SparedOneMore(table: map<nat, InflightCall>, names: seq<Name>, name: Name, caller: Option<nat>)
    ensures Spared(SparedAll(table, names, caller), name, caller) == SparedAll(table, names + [name], caller)
  {
  }

  // ---------------------------------------------------------------- the set

  /** The names in one index and not in the other. */
  ghost predicate Dropped(names: seq<Name>, before: map<Name, Capability>, after: map<Name, Capability>)
  {
    forall n :: n in names <==> n in before && n !in after
  }

  class CapabilitySet {
    var served: Served
    var live: seq<Live>

    /** One entry per connection. */
    ghost predicate Valid()
      reads this
    {
      Sound(served) && forall i, j :: 0 <= i < j < |live| ==> live[i] != live[j]
    }

    constructor ()
      ensures Valid() && served.capabilities == [] && live == []
    {
      served, live := Served([], [], map[]), [];
    }

    /** A new connection joins; those whose other handles are all gone are forgotten. */
    method Register(l: Live, alive: set<Live>)
      requires Valid() && l !in live
      modifies `live
      ensures Valid() && l in live && forall k :: k in live <==> k == l || (k in old(live) && k in alive)
    {
      var kept: seq<Live> := [];
      for i := 0 to |live|
        invariant live == old(live) && forall k :: k in kept <==> k in live[..i] && k in alive
        invariant forall a, b :: 0 <= a < b < |kept| ==> kept[a] != kept[b]
      {
        assert live[i] !in live[..i];
        assert forall k :: k in live[..i + 1] <==> k in live[..i] || k == live[i];
        if live[i] in alive { kept := kept + [live[i]]; }
      }
      assert live[..|live|] == live;
      live := kept + [l];
    }

    /** Before any connection: the list grows by one, or nothing changes. */
    method Push(c: Capability) returns (ok: bool)
      requires Valid()
      modifies `served
      ensures Valid() && (ok <==> NoRepeats(old(served).capabilities + [c]))
      ensures if ok then served.capabilities == old(served).capabilities + [c] else served == old(served)
    {
      var built := Build(served.capabilities + [c]);
      ok := built.Some?;
      if ok { served := built.value; }
    }

    method AddArc(c: Capability, caller: Option<nat>) returns (ok: bool)
      requires Valid()
      modifies `served, live
      ensures Valid() && (ok <==> NoRepeats(old(served).capabilities + [c]))
      ensures if ok then served.capabilities == old(served).capabilities + [c] else served == old(served)
      ensures forall l | l in live :: l.inflight == old(l.inflight) && l.closed == old(l.closed)
    {
      ghost var before := served;
      ok := Replace(served.capabilities + [c], caller);
      if ok { NothingDropped(before, served, c); }
    }

    /** Says whether the name was served; what is left keeps its order. */
    method Remove(name: Name, caller: Option<nat>) returns (removed: bool)
      requires Valid()
      modifies `served, live
      ensures Valid() && (removed <==> name in old(served).byName)
      ensures served.capabilities == Without(old(served).capabilities, name)
      ensures name !in served.byName
      ensures removed ==> forall l | l in live && !l.closed ::
                forall id | id in l.inflight && l.inflight[id].capability == name :: caller == Some(l.inflight[id].task)
      ensures removed ==> forall l | l in live && !l.closed :: Told(old(l.inflight), [name], caller, l.out, l.aborted)
    {
      if name !in served.byName {
        NothingToRemove(served, name);
        return false;
      }
      WithoutNoRepeats(served.capabilities, name);
      WithoutFrom(served.capabilities, name);
      removed := Replace(Without(served.capabilities, name), caller);
      IndexNames(served, name);
    }

    /** The full replacement: a refused list changes nothing, an accepted one takes effect before it is announced. */
    method Replace(caps: seq<Capability>, caller: Option<nat>) returns (ok: bool)
      requires Valid()
      modifies `served, live
      ensures Valid() && (ok <==> NoRepeats(caps)) && (ok ==> served.capabilities == caps) && (!ok ==> served == old(served))
      ensures forall l | l in live :: l.closed == old(l.closed)
      ensures !ok ==> forall l | l in live :: l.inflight == old(l.inflight)
      ensures ok ==> exists names :: (
                && Dropped(names, old(served).byName, served.byName)
                && (forall l | l in live && l.closed :: l.inflight == old(l.inflight))
                && (forall l | l in live && !l.closed :: l.inflight == SparedAll(old(l.inflight), names, caller))
                && (forall l | l in live && !l.closed :: Told(old(l.inflight), names, caller, l.out, l.aborted)))
    {
      var built := Build(caps);
      ok := built.Some?;
      if ok {
        var revoked := Names(served.byName, built.value.byName);
        served := built.value;
        Propagate(revoked, caller);
      }
    }

    /** Every open connection drops the calls of every withdrawn name; a closed one is passed over. */
    method Propagate(revoked: seq<Name>, caller: Option<nat>)
      requires Valid()
      modifies live
      ensures forall l | l in live :: l.closed == old(l.closed)
      ensures forall l | l in live && l.closed :: l.inflight == old(l.inflight)
      ensures forall l | l in live && !l.closed :: l.inflight == SparedAll(old(l.inflight), revoked, caller)
      ensures forall l | l in live && !l.closed :: Told(old(l.inflight), revoked, caller, l.out, l.aborted)
    {
      for i := 0 to |live|
        invariant forall k :: 0 <= k < |live| ==> live[k].closed == old(live[k].closed)
        invariant forall k :: i <= k < |live| ==> live[k].inflight == old(live[k].inflight)
        invariant forall k :: 0 <= k < i ==>
          live[k].inflight == if live[k].closed then old(live[k].inflight) else SparedAll(old(live[k].inflight), revoked, caller)
        invariant forall k :: 0 <= k < i && !live[k].closed ==> Told(old(live[k].inflight), revoked, caller, live[k].out, live[k].aborted)
      {
        if !live[i].closed { live[i].RevokeAll(revoked, caller); }
      }
    }
  }

  /** The names `before` has and `after` has not. */
  method Names(before: map<Name, Capability>, after: map<Name, Capability>) returns (names: seq<Name>)
    ensures Dropped(names, before, after)
  {
    var left := before.Keys - after.Keys;
    names := [];
    while left != {}
      invariant forall n :: n in names || n in left <==> n in before && n !in after
      decreases |left|
    {
      var n :| n in left;
      left, names := left - {n}, names + [n];
    }
  }

  lemma NothingDropped(before: Served, after: Served, c: Capability)
    requires Sound(before) && Sound(after) && after.capabilities == before.capabilities + [c]
    ensures before.byName.Keys <= after.byName.Keys
  {
    forall n | n in before.byName ensures n in after.byName {
      var i :| LastOf(before.capabilities, i, n) && before.byName[n] == before.capabilities[i];
      assert after.capabilities[i].name == n;
    }
  }

  lemma {:induction false} WithoutAbsent(caps: seq<Capability>, name: Name)
    requires forall i :: 0 <= i < |caps| ==> caps[i].name != name
    ensures Without(caps, name) == caps
  {
    if caps != [] { WithoutAbsent(caps[1..], name); }
  }

  lemma NothingToRemove(s: Served, name: Name)
    requires Sound(s) && name !in s.byName
    ensures Without(s.capabilities, name) == s.capabilities
  {
    WithoutAbsent(s.capabilities, name);
  }

  lemma IndexNames(s: Served, name: Name)
    requires Sound(s) && forall c | c in s.capabilities :: c.name != name
    ensures name !in s.byName
  {
  }
}
