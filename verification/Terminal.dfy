/**
 A terminal session's output: a bounded ring with absolute cursors, and the `read` that cleans what
 it takes from it.
 */
module Terminal {
  import opened Base
  import opened Sanitize
  import Reading

  // ---------------------------------------------------------------- the unbounded log

  /** The offset of the oldest byte a ring of `cap` bytes still holds. */
  function Oldest(log: seq<byte>, cap: nat): nat
  {
    if |log| <= cap then 0 else |log| - cap
  }

  datatype Fetch = Fetch(bytes: seq<byte>, dropped: nat, next: nat)

  /** A read at `cursor`, as the whole log has it: what fell off is counted, the rest is a slice. */
  function FetchAt(log: seq<byte>, cap: nat, cursor: nat, max: nat): (f: Fetch)
    requires cursor <= |log|
    ensures f.next == cursor + f.dropped + |f.bytes| <= |log|
  {
    var from := if cursor < Oldest(log, cap) then Oldest(log, cap) else cursor;
    var n := if |log| - from < max then |log| - from else max;
    Fetch(log[from..from + n], from - cursor, from + n)
  }

  /** The last `cap` bytes. */
  function Last(s: seq<byte>, cap: nat): seq<byte>
  {
    s[Oldest(s, cap)..]
  }

  /** Keeping the last bytes of each part, and then of both, keeps the last bytes of the whole. */
  lemma LastOfBoth(a: seq<byte>, b: seq<byte>, cap: nat)
    ensures Last(Last(a, cap) + Last(b, cap), cap) == Last(a + b, cap)
  {
    var x := Last(a, cap) + Last(b, cap);
    if |b| >= cap {
      assert Last(x, cap) == Last(b, cap);
      assert Last(a + b, cap) == Last(b, cap);
    } else {
      assert Last(b, cap) == b;
      assert Last(x, cap) == Last(a + b, cap);
    }
  }

  // ---------------------------------------------------------------- the ring

  /** What `push` leaves in the ring. */
  function RingAfter(ring: seq<byte>, bytes: seq<byte>, cap: nat): seq<byte>
  {
    var tail := if |bytes| > cap then bytes[|bytes| - cap..] else bytes;
    var all := ring + tail;
    if |all| > cap then all[|all| - cap..] else all
  }

  /** What `read_at` finds in it. */
  function RingRead(ring: seq<byte>, totalWritten: nat, cursor: nat, max: nat): (f: Fetch)
    requires |ring| <= totalWritten && cursor <= totalWritten
  {
    var start := totalWritten - |ring|;
    var dropped := if cursor < start then start - cursor else 0;
    var from := cursor + dropped - start;
    var n := if |ring| - from < max then |ring| - from else max;
    Fetch(ring[from..from + n], dropped, cursor + dropped + n)
  }

  lemma PushKeepsLast(log: seq<byte>, bytes: seq<byte>, cap: nat)
    ensures RingAfter(Last(log, cap), bytes, cap) == Last(log + bytes, cap)
  {
    LastOfBoth(log, bytes, cap);
  }

  /** A read of the ring is a read of everything ever pushed. */
  lemma RingReadsTheLog(log: seq<byte>, cap: nat, cursor: nat, max: nat)
    requires cursor <= |log|
    ensures RingRead(Last(log, cap), |log|, cursor, max) == FetchAt(log, cap, cursor, max)
  {
    ReadsAlike(log, Last(log, cap), Oldest(log, cap), cursor, max);
  }

  lemma ReadsAlike(log: seq<byte>, ring: seq<byte>, oldest: nat, cursor: nat, max: nat)
    requires oldest <= |log| && ring == log[oldest..] && cursor <= |log|
    ensures var from := if cursor < oldest then oldest else cursor;
      var n := if |log| - from < max then |log| - from else max;
      RingRead(ring, |log|, cursor, max) == Fetch(log[from..from + n], from - cursor, from + n)
  {
    var from := if cursor < oldest then oldest else cursor;
    var n := if |log| - from < max then |log| - from else max;
    var g := RingRead(ring, |log|, cursor, max);
    assert g.bytes == ring[from - oldest..from - oldest + n];
    SliceOfTail(log, ring, oldest, from, n);
  }

  lemma SliceOfTail(log: seq<byte>, tail: seq<byte>, first: nat, from: nat, n: nat)
    requires first <= from && from + n <= |log| && tail == log[first..]
    ensures tail[from - first..from - first + n] == log[from..from + n]
  {
  }

  /** `log` is everything ever pushed; the ring keeps its last `cap` bytes. */
  class OutputBuffer {
    const cap: nat
    var ring: seq<byte>
    var totalWritten: nat
    ghost var log: seq<byte>

    ghost predicate Valid()
      reads this
    {
      totalWritten == |log| && ring == Last(log, cap)
    }

    constructor (cap: nat)
      ensures Valid() && this.cap == cap && log == []
    {
      this.cap, ring, totalWritten, log := cap, [], 0, [];
    }

    method Push(bytes: seq<byte>)
      requires Valid()
      modifies this
      ensures Valid() && log == old(log) + bytes
    {
      totalWritten := totalWritten + |bytes|;
      PushKeepsLast(log, bytes, cap);
      var tail := if |bytes| > cap then bytes[|bytes| - cap..] else bytes;
      ring := ring + tail;
      if |ring| > cap { ring := ring[|ring| - cap..]; }
      log := log + bytes;
    }

    method ReadAt(cursor: nat, max: nat) returns (bytes: seq<byte>, dropped: nat, next: nat)
      requires Valid() && cursor <= totalWritten
      ensures Fetch(bytes, dropped, next) == FetchAt(log, cap, cursor, max)
    {
      RingReadsTheLog(log, cap, cursor, max);
      var start := totalWritten - |ring|;
      dropped := if cursor < start then start - cursor else 0;
      var from := cursor + dropped - start;
      var n := if |ring| - from < max then |ring| - from else max;
      bytes := ring[from..from + n];
      next := cursor + dropped + n;
    }
  }

  // ---------------------------------------------------------------- any number of cursors

  /** Pushes and reads, in any order, by any number of readers. */
  datatype Event = Pushed(bytes: seq<byte>) | Read(who: nat, max: nat)

  /** A reader: its cursor, all it was given, and how much it was told it lost. */
  datatype Reader = Reader(cursor: nat, kept: seq<byte>, lost: nat)

  const Fresh := Reader(0, [], 0)

  /** One ring, and everyone who reads it. */
  datatype Shared = Shared(ring: seq<byte>, totalWritten: nat, readers: map<nat, Reader>)

  const Unused := Shared([], 0, map[])

  function ReaderOf(b: Shared, who: nat): Reader
  {
    if who in b.readers then b.readers[who] else Fresh
  }

  /** The ring and the cursors are in order: nothing underflows. */
  ghost predicate InOrder(b: Shared)
  {
    |b.ring| <= b.totalWritten && forall who :: ReaderOf(b, who).cursor <= b.totalWritten
  }

  function Given(r: Reader, f: Fetch): Reader
  {
    Reader(f.next, r.kept + f.bytes, r.lost + f.dropped)
  }

  /** One event on the shared ring: a reader's read changes its own cursor only. */
  function Served(b: Shared, e: Event, cap: nat): (r: Shared)
    requires InOrder(b)
  {
    match e
    case Pushed(bytes) => b.(ring := RingAfter(b.ring, bytes, cap), totalWritten := b.totalWritten + |bytes|)
    case Read(who, max) =>
      var r := ReaderOf(b, who);
      b.(readers := b.readers[who := Given(r, RingRead(b.ring, b.totalWritten, r.cursor, max))])
  }

  /** Everything pushed. */
  function LogOf(events: seq<Event>): (log: seq<byte>)
  {
    if events == [] then [] else
    LogOf(events[..|events| - 1]) + (match events[|events| - 1] case Pushed(bytes) => bytes case Read(_, _) => [])
  }

  /** What reader `who` should have: each of its own reads, answered from the whole log as it then was. */
  function Alone(events: seq<Event>, who: nat, cap: nat): (r: Reader)
    ensures r.cursor == |r.kept| + r.lost <= |LogOf(events)|
  {
    if events == [] then Fresh else
    var before, last := events[..|events| - 1], events[|events| - 1];
    var r := Alone(before, who, cap);
    if last.Read? && last.who == who then Given(r, FetchAt(LogOf(before), cap, r.cursor, last.max)) else r
  }

  /** The shared ring, and every reader of it, as the whole log has them. */
  ghost predicate Refines(b: Shared, events: seq<Event>, cap: nat)
  {
    && b.ring == Last(LogOf(events), cap) && b.totalWritten == |LogOf(events)|
    && forall who :: ReaderOf(b, who) == Alone(events, who, cap)
  }

  lemma RefinesInOrder(b: Shared, events: seq<Event>, cap: nat)
    requires Refines(b, events, cap)
    ensures InOrder(b)
  {
    forall who ensures ReaderOf(b, who).cursor <= b.totalWritten { assert Alone(events, who, cap).cursor <= |LogOf(events)|; }
  }

  lemma LogGrows(events: seq<Event>, e: Event)
    ensures LogOf(events + [e]) == LogOf(events) + (match e case Pushed(bytes) => bytes case Read(_, _) => [])
  {
    assert (events + [e])[..|events|] == events;
  }

  lemma AloneGrows(events: seq<Event>, e: Event, who: nat, cap: nat)
    ensures var r := Alone(events, who, cap);
      Alone(events + [e], who, cap)
        == if e.Read? && e.who == who then Given(r, FetchAt(LogOf(events), cap, r.cursor, e.max)) else r
  {
    assert (events + [e])[..|events|] == events;
  }

  lemma StepRefines(b: Shared, events: seq<Event>, e: Event, cap: nat)
    requires Refines(b, events, cap)
    ensures InOrder(b) && Refines(Served(b, e, cap), events + [e], cap)
  {
    RefinesInOrder(b, events, cap);
    LogGrows(events, e);
    var b', log := Served(b, e, cap), LogOf(events);
    if e.Pushed? { PushKeepsLast(log, e.bytes, cap); } else { assert log + [] == log; }
    forall who ensures ReaderOf(b', who) == Alone(events + [e], who, cap) {
      AloneGrows(events, e, who, cap);
      assert ReaderOf(b, who) == Alone(events, who, cap);
      if e.Read? && e.who == who { RingReadsTheLog(log, cap, ReaderOf(b, who).cursor, e.max); }
    }
  }

  ghost predicate Run(bs: seq<Shared>, events: seq<Event>, cap: nat)
  {
    |bs| == |events| + 1 && bs[0] == Unused
    && forall i {:trigger events[i]} :: 0 <= i < |events| ==> InOrder(bs[i]) && bs[i + 1] == Served(bs[i], events[i], cap)
  }

  /**
   The ring refines the unbounded log.  Over any interleaving of pushes and reads by any number of
   readers, each reader of the one shared ring has exactly what its own reads of the whole log would
   have given it: nobody steals from anybody, and nothing depends on who else reads.
   */
  lemma {:induction false} RingRefinesTheLog(bs: seq<Shared>, events: seq<Event>, cap: nat, i: nat)
    requires Run(bs, events, cap) && i < |bs|
    ensures Refines(bs[i], events[..i], cap)
  {
    if i > 0 {
      RingRefinesTheLog(bs, events, cap, i - 1);
      assert events[..i] == events[..i - 1] + [events[i - 1]];
      StepRefines(bs[i - 1], events[..i - 1], events[i - 1], cap);
    } else {
      assert events[..0] == [] && forall who :: ReaderOf(Unused, who) == Fresh;
    }
  }

  /** A reader that was told of no loss has the log exactly as far as its cursor. */
  lemma {:induction false} AloneIsWhole(events: seq<Event>, who: nat, cap: nat)
    ensures var r := Alone(events, who, cap); r.lost == 0 ==> r.kept == LogOf(events)[..r.cursor]
    decreases |events|
  {
    if events != [] {
      var before, last := events[..|events| - 1], events[|events| - 1];
      AloneIsWhole(before, who, cap);
      assert before + [last] == events;
      LogGrows(before, last);
      var r, log := Alone(before, who, cap), LogOf(before);
      if last.Read? && last.who == who {
        var f := FetchAt(log, cap, r.cursor, last.max);
        if r.lost + f.dropped == 0 { JoinSlices(log, r.cursor, f.next); }
        assert log + [] == log;
      } else {
        assert LogOf(events)[..r.cursor] == log[..r.cursor];
      }
    }
  }

  lemma JoinSlices(log: seq<byte>, a: nat, b: nat)
    requires a <= b <= |log|
    ensures log[..a] + log[a..b] == log[..b]
  {
  }

  /**
   In every run, for every reader: what it was given and what it was told it lost add up to its cursor,
   which never passes what was written; and with no loss reported it has the log exactly that far.
   */
  lemma NothingIsLostSilently(bs: seq<Shared>, events: seq<Event>, cap: nat, i: nat, who: nat)
    requires Run(bs, events, cap) && i < |bs|
    ensures var r := ReaderOf(bs[i], who);
      && r.cursor == |r.kept| + r.lost <= bs[i].totalWritten == |LogOf(events[..i])|
      && (r.lost == 0 ==> r.kept == LogOf(events[..i])[..r.cursor])
  {
    RingRefinesTheLog(bs, events, cap, i);
    assert ReaderOf(bs[i], who) == Alone(events[..i], who, cap);
    AloneIsWhole(events[..i], who, cap);
  }

  // ---------------------------------------------------------------- a session

  const PTY_READ_MAX: nat := 128 * 1024

  datatype PtyRead = PtyRead(content: Option<seq<byte>>, more: bool, dropped: nat)

  /** How much of a chunk `read` uses: all of it when nothing can follow. */
  function Used(chunk: seq<byte>, atEnd: bool): (n: nat)
    ensures n <= |chunk|
  {
    if atEnd then |chunk| else Keep(chunk)
  }

  /**
   A read that lost nothing is one cut of the log as it will finally be, however much of it had been
   written by then; so a session's reads are the cuts of chunked reading.
   */
  lemma ReadIsACut(log: seq<byte>, final: seq<byte>, cap: nat, cursor: nat, max: nat, last: bool)
    requires log <= final && Oldest(log, cap) <= cursor <= |log|
    ensures var f := FetchAt(log, cap, cursor, max);
      var cut := Reading.Cut(|f.bytes|, last);
      && f.dropped == 0 && f.bytes == Reading.Handed(final[cursor..], cut)
      && Used(f.bytes, last && f.next == |final|) == Reading.Taken(final[cursor..], cut)
  {
    var f := FetchAt(log, cap, cursor, max);
    assert f.bytes == final[cursor..][..|f.bytes|];
    assert final[cursor..][..|final[cursor..]|] == final[cursor..];
  }

  class Session {
    const buf: OutputBuffer
    const lossy: seq<byte> -> seq<byte>
    var readCursor: nat
    var exited: bool

    ghost predicate Valid()
      reads this, buf
    {
      buf.Valid() && readCursor <= |buf.log|
    }

    constructor (buf: OutputBuffer, lossy: seq<byte> -> seq<byte>)
      requires buf.Valid()
      ensures Valid() && this.buf == buf && this.lossy == lossy && readCursor == 0 && !exited
    {
      this.buf, this.lossy, readCursor, exited := buf, lossy, 0, false;
    }

    /** Takes the next stretch of the log, holds back a cut tail, and returns the rest cleaned. */
    method Read() returns (r: PtyRead)
      requires Valid()
      modifies `readCursor
      ensures Valid()
      ensures var f := FetchAt(buf.log, buf.cap, old(readCursor), PTY_READ_MAX);
        var used := Used(f.bytes, exited && f.next == |buf.log|);
        && readCursor == old(readCursor) + f.dropped + used && r.dropped == f.dropped
        && r.content == Strip(lossy(f.bytes[..used]))
        && (r.more <==> readCursor < |buf.log|)
        && (|buf.log| - old(readCursor) > LOOKBACK && buf.cap > LOOKBACK ==> readCursor > old(readCursor))
    {
      var bytes, dropped, cursor := buf.ReadAt(readCursor, PTY_READ_MAX);
      var keep := |bytes|;
      if !(exited && cursor == buf.totalWritten) {
        var tail := TrimIncompleteTail(bytes);
        var escape := TrimIncompleteEscape(bytes);
        keep := if tail < escape then tail else escape;
      }
      KeepsMost(bytes);
      readCursor := cursor - (|bytes| - keep);
      var content := StripControls(lossy(bytes[..keep]));
      r := PtyRead(content, readCursor < buf.totalWritten, dropped);
    }
  }

  // ---------------------------------------------------------------- a session from start to end

  /** Output arrives; or a read cleans `piece`, `exited` saying whether the shell is gone by then. */
  datatype Turn = Output(bytes: seq<byte>) | Ask(exited: bool, piece: seq<byte>)

  /** Everything written so far, and how far the reads have got. */
  datatype Moment = Moment(log: seq<byte>, cursor: nat)

  /** A read at `cursor` loses nothing and cleans `piece`. */
  ghost predicate Reads(log: seq<byte>, cap: nat, cursor: nat, exited: bool, piece: seq<byte>)
  {
    cursor <= |log| &&
    var f := FetchAt(log, cap, cursor, PTY_READ_MAX);
    f.dropped == 0 && piece == f.bytes[..Used(f.bytes, exited && f.next == |log|)]
  }

  /** Turn `i` is served from the ring without loss. */
  ghost predicate Whole(ms: seq<Moment>, turns: seq<Turn>, cap: nat, i: nat)
    requires i < |turns| < |ms|
  {
    turns[i].Ask? ==> Reads(ms[i].log, cap, ms[i].cursor, turns[i].exited, turns[i].piece)
  }

  function After(m: Moment, turn: Turn): Moment
  {
    match turn
    case Output(bytes) => Moment(m.log + bytes, m.cursor)
    case Ask(_, piece) => Moment(m.log, m.cursor + |piece|)
  }

  /** A session from its start, in which no read loses anything. */
  ghost predicate Lossless(ms: seq<Moment>, turns: seq<Turn>, cap: nat)
  {
    && |ms| == |turns| + 1 && ms[0] == Moment([], 0)
    && (forall i {:trigger turns[i]} :: 0 <= i < |turns| ==> ms[i + 1] == After(ms[i], turns[i]))
    && (forall i {:trigger Whole(ms, turns, cap, i)} :: 0 <= i < |turns| ==> Whole(ms, turns, cap, i))
  }

  /** A shell that is gone writes nothing more. */
  ghost predicate Sensible(ms: seq<Moment>, turns: seq<Turn>)
    requires |ms| == |turns| + 1
  {
    forall i {:trigger turns[i]} :: 0 <= i < |turns| && turns[i].Ask? && turns[i].exited ==> ms[|turns|].log == ms[i].log
  }

  /** What the reads from turn `i` on clean, one after the other. */
  function Cleaned(turns: seq<Turn>, i: nat): (r: seq<seq<byte>>)
    requires i <= |turns|
    decreases |turns| - i
  {
    if i == |turns| then [] else (if turns[i].Ask? then [turns[i].piece] else []) + Cleaned(turns, i + 1)
  }

  lemma {:induction false} LogOnlyGrows(ms: seq<Moment>, turns: seq<Turn>, cap: nat, i: nat)
    requires Lossless(ms, turns, cap) && i <= |turns|
    ensures ms[i].log <= ms[|turns|].log
    decreases |turns| - i
  {
    if i < |turns| {
      LogOnlyGrows(ms, turns, cap, i + 1);
      assert ms[i + 1] == After(ms[i], turns[i]);
    }
  }

  lemma {:induction false} CursorInside(ms: seq<Moment>, turns: seq<Turn>, cap: nat, i: nat)
    requires Lossless(ms, turns, cap) && i <= |turns|
    ensures ms[i].cursor <= |ms[i].log|
  {
    if i > 0 {
      CursorInside(ms, turns, cap, i - 1);
      assert ms[i] == After(ms[i - 1], turns[i - 1]);
      if turns[i - 1].Ask? {
        assert Whole(ms, turns, cap, i - 1);
        StaysInside(ms[i - 1].log, cap, ms[i - 1].cursor, turns[i - 1].exited, turns[i - 1].piece);
      }
    }
  }

  lemma StaysInside(log: seq<byte>, cap: nat, cursor: nat, exited: bool, piece: seq<byte>)
    requires Reads(log, cap, cursor, exited, piece)
    ensures cursor + |piece| <= |log|
  {
  }

  /** What is still to be read at turn `i`, of everything the session will have written. */
  function Unread(ms: seq<Moment>, turns: seq<Turn>, i: nat): seq<byte>
    requires |ms| == |turns| + 1 && i <= |turns| && ms[i].cursor <= |ms[|turns|].log|
  {
    ms[|turns|].log[ms[i].cursor..]
  }

  lemma InReach(ms: seq<Moment>, turns: seq<Turn>, cap: nat, i: nat)
    requires Lossless(ms, turns, cap) && i <= |turns|
    ensures ms[i].cursor <= |ms[|turns|].log|
  {
    CursorInside(ms, turns, cap, i);
    LogOnlyGrows(ms, turns, cap, i);
  }

  /** A read is one cut of what is still to be read. */
  lemma AskIsACut(ms: seq<Moment>, turns: seq<Turn>, cap: nat, i: nat) returns (n: nat)
    requires Lossless(ms, turns, cap) && Sensible(ms, turns) && i < |turns| && turns[i].Ask?
    ensures ms[i].cursor <= |ms[|turns|].log| && ms[i + 1].cursor <= |ms[|turns|].log|
    ensures Unread(ms, turns, i) == turns[i].piece + Unread(ms, turns, i + 1)
    ensures Reading.Taken(Unread(ms, turns, i), Reading.Cut(n, turns[i].exited)) == |turns[i].piece|
  {
    InReach(ms, turns, cap, i);
    InReach(ms, turns, cap, i + 1);
    LogOnlyGrows(ms, turns, cap, i);
    assert Whole(ms, turns, cap, i) && ms[i + 1] == After(ms[i], turns[i]);
    n := ReadIsOneCut(ms[i].log, ms[|turns|].log, cap, ms[i].cursor, turns[i].exited, turns[i].piece);
  }

  lemma ReadIsOneCut(log: seq<byte>, final: seq<byte>, cap: nat, cursor: nat, exited: bool, piece: seq<byte>) returns (n: nat)
    requires log <= final && (exited ==> final == log) && Reads(log, cap, cursor, exited, piece)
    ensures cursor + |piece| <= |final| && final[cursor..] == piece + final[cursor + |piece|..]
    ensures Reading.Taken(final[cursor..], Reading.Cut(n, exited)) == |piece|
  {
    n := |FetchAt(log, cap, cursor, PTY_READ_MAX).bytes|;
    ReadIsACut(log, final, cap, cursor, PTY_READ_MAX, exited);
    FrontOf(log, final, cursor, piece);
  }

  lemma FrontOf(log: seq<byte>, final: seq<byte>, cursor: nat, piece: seq<byte>)
    requires log <= final && cursor + |piece| <= |log| && piece == log[cursor..cursor + |piece|]
    ensures final[cursor..] == piece + final[cursor + |piece|..]
  {
    var k := cursor + |piece|;
    assert log[cursor..k] == final[cursor..k];
    assert final[cursor..] == final[cursor..k] + final[k..];
  }

  lemma CutOff(unread: seq<byte>, cut: Reading.Cut, rest: seq<Reading.Cut>, piece: seq<byte>, after: seq<byte>,
               left: seq<byte>, pieces: seq<seq<byte>>)
    requires unread == piece + after && Reading.Taken(unread, cut) == |piece| && Reading.Pieces(after, rest) == (left, pieces)
    ensures Reading.Pieces(unread, [cut] + rest) == (left, [piece] + pieces)
  {
    assert ([cut] + rest)[1..] == rest;
    Reading.PiecesFrom(unread, piece, after, [cut] + rest, left, pieces);
  }

  /** From turn `i` on, the session's reads are successive cuts of what is still to be read. */
  lemma {:induction false} SessionIsCuts(ms: seq<Moment>, turns: seq<Turn>, cap: nat, i: nat, unread: seq<byte>,
                                         left: seq<byte>, pieces: seq<seq<byte>>) returns (cuts: seq<Reading.Cut>)
    requires Lossless(ms, turns, cap) && Sensible(ms, turns) && i <= |turns| && pieces == Cleaned(turns, i)
    requires ms[i].cursor <= |ms[|turns|].log| && unread == Unread(ms, turns, i)
    requires ms[|turns|].cursor <= |ms[|turns|].log| && left == Unread(ms, turns, |turns|)
    ensures Reading.Pieces(unread, cuts) == (left, pieces)
    decreases |turns| - i
  {
    if i == |turns| {
      cuts := [];
    } else {
      InReach(ms, turns, cap, i + 1);
      var after, later := Unread(ms, turns, i + 1), Cleaned(turns, i + 1);
      var rest := SessionIsCuts(ms, turns, cap, i + 1, after, left, later);
      if turns[i].Ask? {
        var n := AskIsACut(ms, turns, cap, i);
        cuts := [Reading.Cut(n, turns[i].exited)] + rest;
        CutOff(unread, Reading.Cut(n, turns[i].exited), rest, turns[i].piece, after, left, later);
      } else {
        assert ms[i + 1].cursor == ms[i].cursor && [] + later == later;
        cuts := rest;
      }
    }
  }

  /**
   A whole session: whatever order output and reads come in, as long as the ring loses nothing, what
   the reads return together is `strip_controls` of the output as far as they have got, and of all of
   it once they have got to its end.  No read panics.
   */
  lemma SessionReadsTheCleanLog(ts: seq<Reading.Token>, ms: seq<Moment>, turns: seq<Turn>, cap: nat, lossy: Reading.Lossy)
    requires Reading.Orderly(ts) && Reading.Faithful(lossy)
    requires Lossless(ms, turns, cap) && Sensible(ms, turns) && ms[|turns|].log == Reading.Render(ts)
    ensures var Moment(log, end) := ms[|turns|];
      var contents := Reading.Contents(Cleaned(turns, 0), lossy);
      && end <= |log| && contents.Some? && contents == Strip(log[..end]) && AllKept(contents.value)
      && (end == |log| ==> contents == Strip(log))
  {
    InReach(ms, turns, cap, |turns|);
    var Moment(log, end) := ms[|turns|];
    var pieces := Cleaned(turns, 0);
    assert log[0..] == log;
    var cuts := SessionIsCuts(ms, turns, cap, 0, log, log[end..], pieces);
    CutsReadClean(ts, log, cuts, end, pieces, lossy);
  }

  lemma CutsReadClean(ts: seq<Reading.Token>, log: seq<byte>, cuts: seq<Reading.Cut>, end: nat, pieces: seq<seq<byte>>, lossy: Reading.Lossy)
    requires Reading.Orderly(ts) && Reading.Faithful(lossy) && log == Reading.Render(ts)
    requires end <= |log| && Reading.Pieces(log, cuts) == (log[end..], pieces)
    ensures var contents := Reading.Contents(pieces, lossy);
      && contents.Some? && contents == Strip(log[..end]) && AllKept(contents.value)
      && (end == |log| ==> contents == Strip(log))
  {
    assert |log| - |log[end..]| == end;
    Reading.ChunkedReadingIsWholeLogCleaning(ts, cuts, lossy);
    assert end == |log| ==> log[end..] == [];
  }
}
