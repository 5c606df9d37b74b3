/**
 Things that must not happen too often: polling for a device grant, and fetching the node directory.
 */
module Cadence {
  import opened Base

  /** Ticks of the clock in a second. */
  const SECOND: nat := 1000

  // ---------------------------------------------------------------- polling

  const MIN_INTERVAL := 1
  const MAX_INTERVAL := 60
  const SLOW_DOWN_STEP := 5

  /** What the token endpoint says; an interval, when it gives one, is a signed number of seconds. */
  datatype Answer =
    | Granted
    | Pending(interval: Option<int>)
    | SlowDown(interval: Option<int>)
    | Expired
    | Denied
    | Transient        // 429 or a 5xx: not an answer about the grant
    | Refused
    | Unreachable      // the request itself failed

  function Clamp(seconds: int): (r: nat)
    ensures MIN_INTERVAL <= r <= MAX_INTERVAL
  {
    if seconds < MIN_INTERVAL then MIN_INTERVAL else if seconds > MAX_INTERVAL then MAX_INTERVAL else seconds
  }

  function Widened(interval: nat, proposed: int): (r: nat)
  {
    if interval < Clamp(proposed) then Clamp(proposed) else interval
  }

  /** The interval after an answer: within bounds, and never shorter than before. */
  function IntervalAfter(interval: nat, a: Answer): (r: nat)
    requires MIN_INTERVAL <= interval <= MAX_INTERVAL
    ensures interval <= r <= 60
    ensures a.Transient? || (a.SlowDown? && a.interval.None?) ==> r == if interval < 55 then interval + 5 else 60
    ensures (a.Pending? || a.SlowDown?) && a.interval.Some? ==>
              r == if a.interval.value <= interval then interval else if a.interval.value <= 60 then a.interval.value else 60
    ensures !KeepsWaiting(a) || (a.Pending? && a.interval.None?) ==> r == interval
  {
    match a
    case Pending(hint) => if hint.Some? then Widened(interval, hint.value) else interval
    case SlowDown(hint) => if hint.Some? then Widened(interval, hint.value) else Clamp(interval + SLOW_DOWN_STEP)
    case Transient => Clamp(interval + SLOW_DOWN_STEP)
    case _ => interval
  }

  class PollState {
    var interval: nat

    predicate Valid()
      reads this
    {
      MIN_INTERVAL <= interval <= MAX_INTERVAL
    }

    constructor (seconds: int)
      ensures Valid() && interval == Clamp(seconds)
    {
      interval := Clamp(if seconds < 0 then 0 else seconds);
    }

    method Adopt(seconds: int)
      requires Valid()
      modifies this
      ensures Valid() && interval == Widened(old(interval), seconds)
    {
      var proposed := Clamp(if seconds < 0 then 0 else seconds);
      if interval < proposed { interval := proposed; }
    }

    /** Folds one answer in; says whether to keep waiting. */
    method OnError(a: Answer) returns (waiting: bool)
      requires Valid()
      modifies this
      ensures Valid() && interval == IntervalAfter(old(interval), a)
      ensures waiting <==> a.Pending? || a.SlowDown? || a.Transient?
    {
      match a
      case Pending(hint) =>
        if hint.Some? { Adopt(hint.value); }
        waiting := true;
      case SlowDown(hint) =>
        if hint.Some? { Adopt(hint.value); } else { interval := Clamp(interval + SLOW_DOWN_STEP); }
        waiting := true;
      case Transient =>
        interval := Clamp(interval + SLOW_DOWN_STEP);
        waiting := true;
      case _ => waiting := false;
    }
  }

  /** How one poll goes: how late it wakes, how long the request takes, and what comes back. */
  datatype Turn = Turn(late: nat, delay: nat, answer: Answer)

  /** One request: when it was made, and the interval in force after its answer. */
  datatype Asked = Asked(at: nat, interval: nat)

  /** Requests made no closer than the interval then in force, which never shrinks. */
  ghost predicate Paced(asked: seq<Asked>)
  {
    forall i, j :: 0 <= i < j < |asked| ==>
      asked[i].at + asked[i].interval * SECOND <= asked[j].at && MIN_INTERVAL <= asked[i].interval <= asked[j].interval <= MAX_INTERVAL
  }

  datatype Ending = Credential | Lapsed | WasDenied | Failed

  predicate KeepsWaiting(a: Answer)
  {
    a.Pending? || a.SlowDown? || a.Transient?
  }

  /** The requests so far lie between `now` and the deadline, paced, at most one a second. */
  ghost predicate Within(asked: seq<Asked>, now: nat, lifetime: nat)
  {
    |asked| <= lifetime && Paced(asked) && forall i :: 0 <= i < |asked| ==> now <= asked[i].at < now + lifetime * SECOND
  }

  /** And the next may be made from `next` on, with `interval` in force. */
  ghost predicate Ready(asked: seq<Asked>, now: nat, next: nat, interval: nat)
  {
    && now + |asked| * SECOND <= next && MIN_INTERVAL <= interval <= MAX_INTERVAL
    && forall i :: 0 <= i < |asked| ==> asked[i].at + asked[i].interval * SECOND <= next && MIN_INTERVAL <= asked[i].interval <= interval
  }

  /** When the next request is due: at once, and then an interval after the last one was answered. */
  function NextAfter(asked: seq<Asked>, server: nat -> Turn, now: nat): nat
  {
    if asked == [] then now else
    var last := asked[|asked| - 1];
    last.at + server(|asked| - 1).delay + last.interval * SECOND
  }

  lemma AskOnce(asked: seq<Asked>, now: nat, lifetime: nat, next: nat, interval: nat, at: nat, wider: nat, later: nat)
    requires Within(asked, now, lifetime) && Ready(asked, now, next, interval)
    requires next <= at < now + lifetime * SECOND && interval <= wider <= MAX_INTERVAL && at + wider * SECOND <= later
    ensures Within(asked + [Asked(at, wider)], now, lifetime) && Ready(asked + [Asked(at, wider)], now, later, wider)
  {
    var more := asked + [Asked(at, wider)];
    forall i, j | 0 <= i < j < |more|
      ensures more[i].at + more[i].interval * SECOND <= more[j].at
      ensures MIN_INTERVAL <= more[i].interval <= more[j].interval <= MAX_INTERVAL
    {
      if j < |asked| { assert more[i] == asked[i] && more[j] == asked[j]; }
    }
  }

  /**
   `wait`, for one code that lives `lifetime` seconds from `now`, against any server whatsoever.  It
   ends; it asks no more than once for each second of the code's life; every request keeps the interval
   the answer before it set; and it ends with what the last answer says, or lapses because the next
   request would have come at the deadline or after it.
   */
  method Wait(now: nat, lifetime: nat, interval: int, server: nat -> Turn) returns (end: Ending, asked: seq<Asked>)
    ensures Within(asked, now, lifetime)
    ensures end == Credential <==> asked != [] && server(|asked| - 1).answer.Granted?
    ensures end == WasDenied <==> asked != [] && server(|asked| - 1).answer.Denied?
    ensures end == Failed <==> asked != [] && (server(|asked| - 1).answer.Refused? || server(|asked| - 1).answer.Unreachable?)
    ensures end == Lapsed <==> asked == [] || server(|asked| - 1).answer.Expired? || KeepsWaiting(server(|asked| - 1).answer)
    ensures asked != [] && KeepsWaiting(server(|asked| - 1).answer) ==>
              now + lifetime * SECOND <= NextAfter(asked, server, now) + server(|asked|).late
    ensures forall i :: 0 <= i < |asked| - 1 ==> KeepsWaiting(server(i).answer)
  {
    var state := new PollState(interval);
    var deadline, nextPoll := now + lifetime * SECOND, now;
    asked := [];
    while true
      invariant fresh(state) && Within(asked, now, lifetime) && Ready(asked, now, nextPoll, state.interval)
      invariant forall i :: 0 <= i < |asked| ==> KeepsWaiting(server(i).answer)
      invariant nextPoll == NextAfter(asked, server, now)
      decreases deadline - nextPoll
    {
      var turn := server(|asked|);
      var woke := nextPoll + turn.late;
      if woke >= deadline { return Lapsed, asked; }
      ghost var before := state.interval;
      var waiting := state.OnError(turn.answer);
      var later := woke + turn.delay + state.interval * SECOND;
      AskOnce(asked, now, lifetime, nextPoll, before, woke, state.interval, later);
      asked, nextPoll := asked + [Asked(woke, state.interval)], later;
      if !waiting {
        end := if turn.answer.Granted? then Credential
               else if turn.answer.Expired? then Lapsed
               else if turn.answer.Denied? then WasDenied
               else Failed;
        return;
      }
    }
  }

  // ---------------------------------------------------------------- the directory

  datatype Entry = Entry(endpoint: string, node: nat)

  /** What a fetch collects: the last entry of each id. */
  function IndexOf(entries: seq<Entry>): (m: map<string, Entry>)
  {
    if entries == [] then map[] else
    var e := entries[|entries| - 1];
    IndexOf(entries[..|entries| - 1])[e.endpoint := e]
  }

  ghost predicate Listed(entries: seq<Entry>, id: string)
  {
    exists i :: 0 <= i < |entries| && entries[i].endpoint == id
  }

  /** Entry `i` is the last one listed with this id. */
  ghost predicate LastOf(entries: seq<Entry>, id: string, i: nat)
  {
    i < |entries| && entries[i].endpoint == id && forall j :: i < j < |entries| ==> entries[j].endpoint != id
  }

  /** The index answers for exactly the listed ids, each with the last entry of that id. */
  lemma {:induction false} IndexAnswers(entries: seq<Entry>, id: string)
    ensures id in IndexOf(entries) <==> Listed(entries, id)
    ensures id in IndexOf(entries) ==> exists i: nat :: LastOf(entries, id, i) && IndexOf(entries)[id] == entries[i]
    decreases |entries|
  {
    if entries != [] {
      var front, n := entries[..|entries| - 1], |entries| - 1;
      IndexAnswers(front, id);
      if entries[n].endpoint == id {
        assert LastOf(entries, id, n);
      } else if id in IndexOf(front) {
        var i: nat :| LastOf(front, id, i) && IndexOf(front)[id] == front[i];
        assert LastOf(entries, id, i);
      }
      if Listed(front, id) {
        var i :| 0 <= i < |front| && front[i].endpoint == id;
        assert entries[i].endpoint == id;
      }
      if Listed(entries, id) && entries[n].endpoint != id {
        var i :| 0 <= i < |entries| && entries[i].endpoint == id;
        assert front[i].endpoint == id;
      }
    }
  }

  /** One lookup: when, for whom, and what the directory would say if it were asked then, and how long that takes. */
  datatype Lookup = Lookup(at: nat, id: string, answer: Option<seq<Entry>>, took: nat)

  datatype Limits = Limits(ttl: nat, interval: nat)

  /** The cache, with the list it last got and the times it has asked. */
  datatype Cache = Cache(table: map<string, Entry>, fetched: Option<nat>, attempted: Option<nat>, latest: seq<Entry>, attempts: seq<nat>)

  const EmptyCache := Cache(map[], None, None, [], [])

  predicate Hit(c: Cache, l: Lookup, lim: Limits)
  {
    c.fetched.Some? && l.at < c.fetched.value + lim.ttl && l.id in c.table
  }

  predicate Attempts(c: Cache, l: Lookup, lim: Limits)
  {
    !Hit(c, l, lim) && (c.attempted.None? || c.attempted.value + lim.interval <= l.at)
  }

  function Looked(c: Cache, l: Lookup, lim: Limits): (r: Cache)
  {
    if !Attempts(c, l, lim) then c else
    var asked := c.(attempted := Some(l.at), attempts := c.attempts + [l.at]);
    match l.answer
    case None => asked
    case Some(entries) => asked.(table := IndexOf(entries), fetched := Some(l.at + l.took), latest := entries)
  }

  class PeerCache {
    const lim: Limits
    var byEndpoint: map<string, Entry>
    var fetched: Option<nat>
    var attempted: Option<nat>
    ghost var latest: seq<Entry>
    ghost var attempts: seq<nat>

    ghost function State(): Cache
      reads this
    {
      Cache(byEndpoint, fetched, attempted, latest, attempts)
    }

    constructor (lim: Limits)
      ensures this.lim == lim && State() == EmptyCache
    {
      this.lim, byEndpoint, fetched, attempted, latest, attempts := lim, map[], None, None, [], [];
    }

    method Find(l: Lookup) returns (r: Option<Entry>)
      modifies this
      ensures State() == Looked(old(State()), l, lim)
      ensures r == if l.id in byEndpoint then Some(byEndpoint[l.id]) else None
    {
      var isFresh := fetched.Some? && l.at < fetched.value + lim.ttl;
      if isFresh && l.id in byEndpoint { return Some(byEndpoint[l.id]); }
      if attempted.None? || attempted.value + lim.interval <= l.at { Refresh(l); }
      r := if l.id in byEndpoint then Some(byEndpoint[l.id]) else None;
    }

    /** A failed fetch leaves the list as it was. */
    method Refresh(l: Lookup)
      modifies this
      ensures attempted == Some(l.at) && attempts == old(attempts) + [l.at]
      ensures l.answer.None? ==> byEndpoint == old(byEndpoint) && fetched == old(fetched) && latest == old(latest)
      ensures l.answer.Some? ==> byEndpoint == IndexOf(l.answer.value) && fetched == Some(l.at + l.took) && latest == l.answer.value
    {
      attempted, attempts := Some(l.at), attempts + [l.at];
      if l.answer.Some? {
        var entries := l.answer.value;
        var m: map<string, Entry> := map[];
        for i := 0 to |entries|
          invariant m == IndexOf(entries[..i])
          invariant attempted == Some(l.at) && attempts == old(attempts) + [l.at]
        {
          assert entries[..i + 1][..i] == entries[..i];
          m := m[entries[i].endpoint := entries[i]];
        }
        assert entries[..|entries|] == entries;
        byEndpoint, fetched, latest := m, Some(l.at + l.took), entries;
      }
    }
  }

  // ---------------------------------------------------------------- rate and freshness

  function Play(c: Cache, ls: seq<Lookup>, lim: Limits): (r: Cache)
    decreases |ls|
  {
    if ls == [] then c else Looked(Play(c, ls[..|ls| - 1], lim), ls[|ls| - 1], lim)
  }

  /** The attempts so far are an interval apart, the table is the last list, and the clock is kept. */
  ghost predicate Kept(c: Cache, lim: Limits)
  {
    && c.table == IndexOf(c.latest)
    && (c.attempted.None? <==> c.attempts == [])
    && (c.attempts != [] ==> c.attempted == Some(c.attempts[|c.attempts| - 1]))
    && Spaced(c.attempts, lim.interval)
  }

  ghost predicate Spaced(ts: seq<nat>, interval: nat)
  {
    forall i :: 0 < i < |ts| ==> ts[i - 1] + interval <= ts[i]
  }

  lemma {:induction false} PlayKeeps(ls: seq<Lookup>, lim: Limits)
    ensures Kept(Play(EmptyCache, ls, lim), lim)
    decreases |ls|
  {
    if ls != [] { PlayKeeps(ls[..|ls| - 1], lim); }
  }

  lemma {:induction false} SpacedApart(ts: seq<nat>, interval: nat, i: nat, j: nat)
    requires Spaced(ts, interval) && i <= j < |ts|
    ensures ts[i] + (j - i) * interval <= ts[j]
    decreases j - i
  {
    if i < j {
      SpacedApart(ts, interval, i, j - 1);
      assert ts[j - 1] + interval <= ts[j];
      assert (j - i) * interval == (j - 1 - i) * interval + interval;
    }
  }

  /**
   Whatever is looked up and whether fetches succeed or fail, no window of length W holds more than
   W divided by the interval, and one, attempts: all but one of them times the interval fit in it.
   */
  lemma FetchRateIsBounded(ls: seq<Lookup>, lim: Limits, from: nat, window: nat, i: nat, j: nat)
    requires var ts := Play(EmptyCache, ls, lim).attempts; i < j <= |ts| && from <= ts[i] && ts[j - 1] <= from + window
    ensures (j - i - 1) * lim.interval <= window
  {
    PlayKeeps(ls, lim);
    SpacedApart(Play(EmptyCache, ls, lim).attempts, lim.interval, i, j - 1);
  }

  /**
   Every answer is the last entry, in the last list that came back, for the id asked; an id that list does not
   have is not answered, however often an older list had it.
   */
  lemma AnswersAreCurrent(ls: seq<Lookup>, lim: Limits, id: string)
    ensures var c := Play(EmptyCache, ls, lim);
      && (id in c.table <==> Listed(c.latest, id))
      && (id in c.table ==> exists i: nat :: LastOf(c.latest, id, i) && c.table[id] == c.latest[i])
  {
    PlayKeeps(ls, lim);
    IndexAnswers(Play(EmptyCache, ls, lim).latest, id);
  }

  // ---------------------------------------------------------------- when it asks again

  /** Lookup `i` asked the directory. */
  ghost predicate AskedAt(ls: seq<Lookup>, lim: Limits, i: nat)
  {
    i < |ls| && Play(EmptyCache, ls[..i + 1], lim).attempts == Play(EmptyCache, ls[..i], lim).attempts + [ls[i].at]
  }

  /** The lookups that did. */
  ghost function Asking(ls: seq<Lookup>, lim: Limits): set<nat>
  {
    set i: nat | i < |ls| && AskedAt(ls, lim, i)
  }

  lemma PlayOneMore(ls: seq<Lookup>, l: Lookup, lim: Limits)
    ensures Play(EmptyCache, ls + [l], lim) == Looked(Play(EmptyCache, ls, lim), l, lim)
    ensures Asking(ls + [l], lim) == Asking(ls, lim) + if Attempts(Play(EmptyCache, ls, lim), l, lim) then {|ls|} else {}
  {
    var more := ls + [l];
    assert more[..|ls|] == ls && more[..|ls| + 1] == more;
    assert AskedAt(more, lim, |ls|) <==> Attempts(Play(EmptyCache, ls, lim), l, lim);
    forall j: nat | j < |ls| ensures AskedAt(more, lim, j) <==> AskedAt(ls, lim, j) {
      assert more[..j] == ls[..j] && more[..j + 1] == ls[..j + 1];
    }
  }

  /** Of these lookups, `i` is the last to have got a list. */
  ghost predicate LastGot(ls: seq<Lookup>, asking: set<nat>, i: nat)
  {
    && i in asking && i < |ls| && ls[i].answer.Some?
    && forall j | j in asking && i < j < |ls| :: ls[j].answer.None?
  }

  /** The cache holds that list, which is as old as that; or nobody got one. */
  ghost predicate InHand(c: Cache, ls: seq<Lookup>, asking: set<nat>)
  {
    if c.fetched.None? then c.latest == [] && forall j | j in asking && j < |ls| :: ls[j].answer.None?
    else exists i: nat :: LastGot(ls, asking, i) && c.fetched.value == ls[i].at + ls[i].took && c.latest == ls[i].answer.value
  }

  /** The list in hand is the one the last successful fetch brought. */
  lemma {:induction false} ListInHand(ls: seq<Lookup>, lim: Limits)
    ensures InHand(Play(EmptyCache, ls, lim), ls, Asking(ls, lim))
    decreases |ls|
  {
    if ls != [] {
      var front, l := ls[..|ls| - 1], ls[|ls| - 1];
      assert ls == front + [l];
      ListInHand(front, lim);
      PlayOneMore(front, l, lim);
      HandOneMore(Play(EmptyCache, front, lim), front, Asking(front, lim), l, lim, ls, Asking(ls, lim));
    }
  }

  lemma HandOneMore(c: Cache, front: seq<Lookup>, asking: set<nat>, l: Lookup, lim: Limits, ls: seq<Lookup>, now: set<nat>)
    requires ls == front + [l] && now == asking + if Attempts(c, l, lim) then {|front|} else {}
    requires InHand(c, front, asking) && forall i | i in asking :: i < |front|
    ensures InHand(Looked(c, l, lim), ls, now)
  {
    if Attempts(c, l, lim) && l.answer.Some? {
      assert LastGot(ls, now, |front|);
    } else if c.fetched.Some? {
      var i: nat :| LastGot(front, asking, i) && c.fetched.value == front[i].at + front[i].took && c.latest == front[i].answer.value;
      assert LastGot(ls, now, i);
    }
  }

  /** The last list is still within its time, and has the id. */
  ghost predicate Serves(ls: seq<Lookup>, asking: set<nat>, lim: Limits, l: Lookup, i: nat)
  {
    LastGot(ls, asking, i) && l.at < ls[i].at + ls[i].took + lim.ttl && Listed(ls[i].answer.value, l.id)
  }

  ghost predicate Served(ls: seq<Lookup>, asking: set<nat>, lim: Limits, l: Lookup)
  {
    exists i: nat :: Serves(ls, asking, lim, l, i)
  }

  ghost predicate Due(attempts: seq<nat>, lim: Limits, at: nat)
  {
    attempts == [] || attempts[|attempts| - 1] + lim.interval <= at
  }

  /**
   After any lookups, the next one asks the directory exactly when an interval has gone by since it was
   last asked and the last list is past its time or has not got the id.
   */
  lemma AsksExactlyWhen(ls: seq<Lookup>, l: Lookup, lim: Limits)
    ensures |ls| in Asking(ls + [l], lim) <==>
      Due(Play(EmptyCache, ls, lim).attempts, lim, l.at) && !Served(ls, Asking(ls, lim), lim, l)
  {
    PlayOneMore(ls, l, lim);
    PlayKeeps(ls, lim);
    ListInHand(ls, lim);
    AttemptsExactlyWhen(Play(EmptyCache, ls, lim), ls, Asking(ls, lim), l, lim);
  }

  lemma AttemptsExactlyWhen(c: Cache, ls: seq<Lookup>, asking: set<nat>, l: Lookup, lim: Limits)
    requires Kept(c, lim) && InHand(c, ls, asking) && forall i | i in asking :: i < |ls|
    ensures Attempts(c, l, lim) <==> Due(c.attempts, lim, l.at) && !Served(ls, asking, lim, l)
  {
    HitExactlyWhen(c, ls, asking, l, lim);
  }

  lemma HitExactlyWhen(c: Cache, ls: seq<Lookup>, asking: set<nat>, l: Lookup, lim: Limits)
    requires c.table == IndexOf(c.latest) && InHand(c, ls, asking)
    ensures Hit(c, l, lim) <==> Served(ls, asking, lim, l)
  {
    IndexAnswers(c.latest, l.id);
    if c.fetched.Some? {
      var i: nat :| LastGot(ls, asking, i) && c.fetched.value == ls[i].at + ls[i].took && c.latest == ls[i].answer.value;
      assert forall j: nat :: LastGot(ls, asking, j) ==> j == i;
      assert Hit(c, l, lim) <==> Serves(ls, asking, lim, l, i);
    }
  }
}
