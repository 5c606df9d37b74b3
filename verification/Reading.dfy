/**
 Reading a terminal's output in chunks.

 The output is a row of tokens: characters and whole escape sequences.  A string sequence that ends
 with ST is two tokens, its opening and the ST, because a chunk may be cut between them.
 */
module Reading {
  import opened Base
  import opened Sanitize

  datatype Kind = Text | Csi | Two | Bel | Open

  datatype Token = Token(kind: Kind, bytes: seq<byte>)

  /** ESC and a backslash. */
  const ST := Token(Two, [0x1B, 0x5C])

  /** The bytes between the introducer and position `n` hold no ESC and no BEL. */
  ghost predicate Quiet(b: seq<byte>, n: nat)
  {
    n <= |b| && forall i :: 2 <= i < n ==> b[i] != 0x1B && b[i] != 0x07
  }

  /** Or no ESC and no byte that ends a control sequence. */
  ghost predicate Plain(b: seq<byte>, n: nat)
  {
    n <= |b| && forall i :: 2 <= i < n ==> b[i] != 0x1B && !(0x40 <= b[i] <= 0x7E)
  }

  /** What introduces a string: OSC, DCS, SOS, PM and APC. */
  ghost predicate Introduces(b: byte)
  {
    b == 0x5D || b == 0x50 || b == 0x58 || b == 0x5E || b == 0x5F
  }

  /** The tokens, spelled byte by byte. */
  ghost predicate Shaped(t: Token)
  {
    var b, n := t.bytes, |t.bytes|;
    match t.kind
    case Text => IsChar(b) && b[0] != 0x1B
    case Csi => n >= 3 && b[0] == 0x1B && b[1] == 0x5B && Plain(b, n - 1) && 0x40 <= b[n - 1] <= 0x7E
    case Two => n == 2 && b[0] == 0x1B && b[1] < 0x80 && b[1] != 0x1B && b[1] != 0x5B && !Introduces(b[1])
    case Bel => n >= 3 && b[0] == 0x1B && Introduces(b[1]) && Quiet(b, n - 1) && b[n - 1] == 0x07
    case Open => n >= 2 && b[0] == 0x1B && Introduces(b[1]) && Quiet(b, n)
  }

  /** A character, or a sequence of at most 256 bytes. */
  ghost predicate Proper(t: Token)
  {
    t.bytes != [] && |t.bytes| <= 256 && Utf8(t.bytes) && Shaped(t)
  }

  /** Proper tokens, with each opening answered by its ST, or last. */
  ghost predicate Orderly(ts: seq<Token>)
  {
    ts == [] || (Proper(ts[0]) && (ts[0].kind.Open? && |ts| > 1 ==> ts[1] == ST) && Orderly(ts[1..]))
  }

  ghost predicate EndsOpen(ts: seq<Token>)
  {
    ts != [] && ts[|ts| - 1].kind.Open?
  }

  function Render(ts: seq<Token>): (b: seq<byte>)
  {
    if ts == [] then [] else ts[0].bytes + Render(ts[1..])
  }

  /** What a reader sees of a token: a printable character, a newline or a tab. */
  function Seen(t: Token): seq<byte>
  {
    if t.kind.Text? && t.bytes != [] && Shown(t.bytes[0]) then t.bytes else []
  }

  /** Starts a printable character, or is a newline or a tab. */
  predicate Shown(b: byte)
  {
    b == 0x0A || b == 0x09 || (b >= 0x20 && b != 0x7F)
  }

  function Clean(ts: seq<Token>): (b: seq<byte>)
  {
    if ts == [] then [] else Seen(ts[0]) + Clean(ts[1..])
  }

  lemma {:induction false} RenderPlus(a: seq<Token>, b: seq<Token>)
    ensures Render(a + b) == Render(a) + Render(b)
  {
    if a == [] {
      assert a + b == b;
    } else {
      assert (a + b)[1..] == a[1..] + b;
      RenderPlus(a[1..], b);
    }
  }

  lemma {:induction false} CleanPlus(a: seq<Token>, b: seq<Token>)
    ensures Clean(a + b) == Clean(a) + Clean(b)
  {
    if a == [] {
      assert a + b == b;
    } else {
      assert (a + b)[1..] == a[1..] + b;
      CleanPlus(a[1..], b);
    }
  }

  lemma Split(ts: seq<Token>, k: nat)
    requires k <= |ts|
    ensures Render(ts) == Render(ts[..k]) + Render(ts[k..])
  {
    assert ts == ts[..k] + ts[k..];
    RenderPlus(ts[..k], ts[k..]);
  }

  lemma SplitLast(ts: seq<Token>)
    requires ts != []
    ensures Render(ts) == Render(ts[..|ts| - 1]) + ts[|ts| - 1].bytes
  {
    var n := |ts| - 1;
    Split(ts, n);
    assert ts[n..] == [ts[n]];
    RenderOne(ts[n]);
  }

  lemma RenderOne(t: Token)
    ensures Render([t]) == t.bytes
  {
    assert [t][1..] == [];
  }

  /** Cut anywhere, both parts are orderly; and an opening before the cut has its ST right after it. */
  lemma {:induction false} OrderlySplit(ts: seq<Token>, k: nat)
    requires Orderly(ts) && k <= |ts|
    ensures Orderly(ts[..k]) && Orderly(ts[k..]) && (k < |ts| ==> Proper(ts[k]))
    ensures 0 < k < |ts| && ts[k - 1].kind.Open? ==> ts[k] == ST
    decreases |ts|
  {
    if k > 0 {
      OrderlySplit(ts[1..], k - 1);
      assert ts[..k][1..] == ts[1..][..k - 1] && ts[1..][k - 1..] == ts[k..];
    } else {
      assert ts[0..] == ts;
    }
  }

  lemma {:induction false} RenderUtf8(ts: seq<Token>)
    requires Orderly(ts)
    ensures Utf8(Render(ts))
  {
    if ts != [] {
      RenderUtf8(ts[1..]);
      Utf8Plus(ts[0].bytes, Render(ts[1..]));
    }
  }

  // ---------------------------------------------------------------- one token

  lemma {:induction false} CsiSkips(b: seq<byte>, j: nat, n: nat)
    requires j <= n <= |b| && forall i :: j <= i < n ==> !FinalByte(b[i])
    ensures CsiEnd(b, j) == CsiEnd(b, n)
    decreases n - j
  {
    if j < n { CsiSkips(b, j + 1, n); }
  }

  lemma {:induction false} StringSkips(b: seq<byte>, j: nat, n: nat)
    requires j <= n <= |b| && forall i :: j <= i < n ==> b[i] != ESC && b[i] != BEL
    ensures StringEnd(b, j) == StringEnd(b, n)
    decreases n - j
  {
    if j < n { StringSkips(b, j + 1, n); }
  }

  predicate Finished(t: Token)
  {
    !t.kind.Text? && !t.kind.Open?
  }

  /** A finished sequence is taken whole, whatever follows it. */
  lemma ScanWhole(t: Token, rest: seq<byte>)
    requires Shaped(t) && Finished(t)
    ensures Scan(t.bytes + rest) == Some(|t.bytes|)
  {
    var b, n := t.bytes + rest, |t.bytes|;
    if t.kind.Csi? { CsiSkips(b, 2, n - 1); } else if t.kind.Bel? { StringSkips(b, 2, n - 1); }
  }

  /** An opening is taken together with its ST, and is unfinished without it. */
  lemma ScanOpen(t: Token, rest: seq<byte>)
    requires Shaped(t) && t.kind.Open?
    ensures Scan(t.bytes) == None && Scan(t.bytes + (ST.bytes + rest)) == Some(|t.bytes| + 2)
  {
    StringSkips(t.bytes, 2, |t.bytes|);
    StringSkips(t.bytes + (ST.bytes + rest), 2, |t.bytes|);
  }

  /** A sequence cut short is unfinished. */
  lemma ScanCut(t: Token, n: nat)
    requires Shaped(t) && !t.kind.Text? && 0 < n < |t.bytes|
    ensures Scan(t.bytes[..n]) == None
  {
    if n >= 2 {
      if t.kind.Csi? { CsiSkips(t.bytes[..n], 2, n); } else { StringSkips(t.bytes[..n], 2, n); }
    }
  }

  /** A sequence has one ESC, its first byte; a character has none. */
  lemma EscFirst(t: Token, i: nat)
    requires Shaped(t) && i < |t.bytes|
    ensures t.bytes[i] == ESC <==> !t.kind.Text? && i == 0
  {
    if t.kind.Text? && |t.bytes| > 1 { CharShape(t.bytes); }
  }

  // ---------------------------------------------------------------- the whole log

  lemma StripText(c: seq<byte>, rest: seq<byte>)
    requires IsChar(c) && c[0] != ESC
    ensures Strip(c + rest) == Before(if Shown(c[0]) then c else [], Strip(rest))
  {
    var b := c + rest;
    assert b[..|c|] == c && b[|c|..] == rest;
    BeforePlus([], [], Strip(rest));
    if |c| > 1 {
      CharShape(c);
    } else {
      assert b[1..] == rest && b[..1] == c && [b[0]] == c;
      if c[0] == 0x0D { ReturnStep(b); }
    }
  }

  lemma StripSequence(t: Token, rest: seq<byte>)
    requires Shaped(t) && Finished(t)
    ensures Strip(t.bytes + rest) == Strip(rest)
  {
    ScanWhole(t, rest);
    assert (t.bytes + rest)[|t.bytes|..] == rest;
  }

  lemma StripOpening(t: Token, rest: seq<byte>)
    requires Shaped(t) && t.kind.Open?
    ensures Strip(t.bytes) == Some([]) && Strip(t.bytes + (ST.bytes + rest)) == Strip(rest)
  {
    ScanOpen(t, rest);
    assert (t.bytes + (ST.bytes + rest))[|t.bytes| + 2..] == rest;
  }

  lemma FirstCleans(t: Token, rest: seq<byte>, clean: seq<byte>)
    requires Shaped(t) && !t.kind.Open? && Strip(rest) == Some(clean)
    ensures Strip(t.bytes + rest) == Some(Seen(t) + clean)
  {
    assert [] + clean == clean;
    if t.kind.Text? { StripText(t.bytes, rest); } else { StripSequence(t, rest); }
  }

  /** An opening and its ST vanish together; an opening at the very end vanishes too. */
  lemma OpeningCleans(ts: seq<Token>)
    requires Orderly(ts) && ts != [] && ts[0].kind.Open?
    ensures |ts| == 1 ==> Render(ts) == ts[0].bytes && Clean(ts) == []
    ensures |ts| > 1 ==> Render(ts) == ts[0].bytes + (ST.bytes + Render(ts[2..])) && Clean(ts) == Clean(ts[2..])
  {
    TwoSteps(ts);
    assert Seen(ts[0]) == [];
    if |ts| > 1 {
      assert ts[1] == ST && Seen(ST) == [];
      assert [] + Clean(ts[2..]) == Clean(ts[2..]);
    }
  }

  /** The first two tokens, and the rest. */
  lemma TwoSteps(ts: seq<Token>)
    requires ts != []
    ensures |ts| == 1 ==> Render(ts) == ts[0].bytes && Clean(ts) == Seen(ts[0])
    ensures |ts| > 1 ==>
      && Render(ts) == ts[0].bytes + (ts[1].bytes + Render(ts[2..]))
      && Clean(ts) == Seen(ts[0]) + (Seen(ts[1]) + Clean(ts[2..]))
  {
    var rest := ts[1..];
    if |ts| > 1 { assert rest[0] == ts[1] && rest[1..] == ts[2..]; }
    assert Render(ts) == ts[0].bytes + Render(rest) && Clean(ts) == Seen(ts[0]) + Clean(rest);
  }

  /** Cleaning the rendered tokens leaves exactly what a reader should see. */
  lemma {:induction false} StripIsClean(ts: seq<Token>)
    requires Orderly(ts)
    ensures Strip(Render(ts)) == Some(Clean(ts))
    decreases |ts|
  {
    if ts != [] {
      if ts[0].kind.Open? {
        OpeningCleans(ts);
        StripOpening(ts[0], if |ts| > 1 then Render(ts[2..]) else []);
        if |ts| > 1 {
          assert ts[1..][1..] == ts[2..];
          StripIsClean(ts[2..]);
        }
      } else {
        StripIsClean(ts[1..]);
        FirstCleans(ts[0], Render(ts[1..]), Clean(ts[1..]));
      }
    }
  }

  // ---------------------------------------------------------------- one chunk

  ghost predicate NoEsc(p: seq<byte>)
  {
    forall i :: 0 <= i < |p| ==> p[i] != ESC
  }

  /** Position `q` holds the last ESC of `b`. */
  ghost predicate LastEscAt(b: seq<byte>, q: nat)
  {
    q < |b| && b[q] == ESC && forall i :: q < i < |b| ==> b[i] != ESC
  }

  lemma NoEscText(t: Token, p: seq<byte>)
    requires Shaped(t) && t.kind.Text? && NoEsc(p)
    ensures NoEsc(t.bytes + p)
  {
    forall i | 0 <= i < |t.bytes| ensures t.bytes[i] != ESC { EscFirst(t, i); }
  }

  lemma LastInToken(a: seq<byte>, t: Token, p: seq<byte>, q: nat)
    requires Shaped(t) && Finished(t) && NoEsc(p) && LastEscAt(a + (t.bytes + p), q)
    ensures Scan((a + (t.bytes + p))[q..]).Some?
  {
    var more := t.bytes + p;
    var b, at := a + more, |a|;
    EscFirst(t, 0);
    assert b[at] == more[0];
    forall i | at < i < |b| ensures b[i] != ESC {
      if i - at < |t.bytes| { EscFirst(t, i - at); } else { assert b[i] == p[i - at - |t.bytes|]; }
    }
    assert q == at && b[at..] == more;
    ScanWhole(t, p);
  }

  /** The last ESC of a run of tokens followed by text starts a finished sequence. */
  lemma {:induction false} LastIsFinished(ts: seq<Token>, p: seq<byte>, b: seq<byte>, q: nat)
    requires Orderly(ts) && !EndsOpen(ts) && b == Render(ts) + p && NoEsc(p) && LastEscAt(b, q)
    ensures Scan(b[q..]).Some?
    decreases |ts|
  {
    assert ts == [] ==> b == p;
    if ts != [] {
      var n := |ts| - 1;
      SplitLast(ts);
      OrderlySplit(ts, n);
      assert b == Render(ts[..n]) + (ts[n].bytes + p);
      if ts[n].kind.Text? {
        NoEscText(ts[n], p);
        LastIsFinished(ts[..n], ts[n].bytes + p, b, q);
      } else {
        LastInToken(Render(ts[..n]), ts[n], p, q);
      }
    }
  }

  /** Nothing is held back for an escape when the tokens are finished and only text follows. */
  lemma NoEscapeHeld(ts: seq<Token>, p: seq<byte>)
    requires Orderly(ts) && !EndsOpen(ts) && NoEsc(p)
    ensures EscapeCut(Render(ts) + p) == |Render(ts) + p|
  {
    var b := Render(ts) + p;
    var from := if |b| <= LOOKBACK then 0 else |b| - LOOKBACK;
    LastEscIsLast(b, from, |b|);
    var last := LastEsc(b, from, |b|);
    if last.Some? { LastIsFinished(ts, p, b, last.value); }
  }

  /** An unfinished sequence is held back from its ESC on. */
  lemma EscapeHeld(a: seq<byte>, p: seq<byte>)
    requires |p| <= LOOKBACK && LastEscAt(p, 0) && Scan(p).None?
    ensures Keep(a + p) == |a|
  {
    var b := a + p;
    var from := if |b| <= LOOKBACK then 0 else |b| - LOOKBACK;
    assert b[|a|] == ESC && forall i :: |a| < i < |b| ==> b[i] == p[i - |a|];
    LastEscIsLast(b, from, |b|);
    assert LastEsc(b, from, |b|) == Some(|a|);
    assert b[|a|..] == p;
    TailKeeps(b, |a|, 1);
  }

  lemma HoldsOpening(ts: seq<Token>)
    requires Orderly(ts) && EndsOpen(ts)
    ensures Keep(Render(ts)) == |Render(ts[..|ts| - 1])|
  {
    var n := |ts| - 1;
    var t := ts[n];
    SplitLast(ts);
    OrderlySplit(ts, n);
    ScanOpen(t, []);
    forall i | 1 <= i < |t.bytes| ensures t.bytes[i] != ESC { EscFirst(t, i); }
    EscapeHeld(Render(ts[..n]), t.bytes);
  }

  lemma HoldsNothing(ts: seq<Token>)
    requires Orderly(ts) && !EndsOpen(ts)
    ensures Keep(Render(ts)) == |Render(ts)|
  {
    assert Render(ts) + [] == Render(ts);
    NoEscapeHeld(ts, []);
    RenderUtf8(ts);
    TailOfText(Render(ts));
  }

  /** A token cut short is held back whole. */
  lemma HoldsCut(ts: seq<Token>, t: Token, n: nat)
    requires Orderly(ts) && Proper(t) && (EndsOpen(ts) ==> t == ST) && 0 < n < |t.bytes|
    ensures Keep(Render(ts) + t.bytes[..n]) == |Render(ts)|
  {
    var p := t.bytes[..n];
    forall i | 0 <= i < n ensures p[i] == ESC <==> !t.kind.Text? && i == 0 { EscFirst(t, i); }
    if t.kind.Text? {
      NoEscapeHeld(ts, p);
      TailOfCut(Render(ts), t.bytes, n);
    } else {
      ScanCut(t, n);
      EscapeHeld(Render(ts), p);
    }
  }

  // ---------------------------------------------------------------- any chunk

  lemma TakePast(x: seq<byte>, y: seq<byte>, n: nat)
    requires |x| <= n <= |x + y|
    ensures (x + y)[..n] == x + y[..n - |x|]
  {
  }

  lemma RenderFront(ts: seq<Token>, k: nat)
    requires k < |ts|
    ensures Render(ts[..k + 1]) == ts[0].bytes + Render(ts[1..][..k])
  {
    assert ts[..k + 1][1..] == ts[1..][..k];
  }

  /** Any cut falls after `k` tokens and some part, not all, of the next. */
  lemma {:induction false} CutFalls(ts: seq<Token>, n: nat) returns (k: nat, part: seq<byte>)
    requires n <= |Render(ts)|
    ensures k <= |ts| && Render(ts)[..n] == Render(ts[..k]) + part
    ensures part != [] ==> k < |ts| && |part| < |ts[k].bytes| && part == ts[k].bytes[..|part|]
    decreases |ts|
  {
    if ts == [] || n == 0 {
      k, part := 0, [];
    } else if n < |ts[0].bytes| {
      k, part := 0, ts[0].bytes[..n];
      assert Render(ts)[..n] == part;
    } else {
      var i;
      i, part := CutFalls(ts[1..], n - |ts[0].bytes|);
      TakePast(ts[0].bytes, Render(ts[1..]), n);
      RenderFront(ts, i);
      k := i + 1;
      assert ts[0].bytes + (Render(ts[1..][..i]) + part) == (ts[0].bytes + Render(ts[1..][..i])) + part;
    }
  }

  /** A chunk of whole tokens is kept, all but an opening at its end. */
  lemma WholeKeeps(ts: seq<Token>) returns (k: nat)
    requires Orderly(ts)
    ensures k <= |ts| && Render(ts[..k]) <= Render(ts) && Keep(Render(ts)) == |Render(ts[..k])|
  {
    if EndsOpen(ts) {
      HoldsOpening(ts);
      SplitLast(ts);
      k := |ts| - 1;
    } else {
      HoldsNothing(ts);
      k := |ts|;
      assert ts[..k] == ts;
    }
  }

  /** What `read` keeps of a chunk that starts at a token is always a whole number of tokens. */
  lemma ChunkKeeps(ts: seq<Token>, n: nat) returns (k: nat)
    requires Orderly(ts) && n <= |Render(ts)|
    ensures k <= |ts| && Render(ts[..k]) <= Render(ts)[..n] && Keep(Render(ts)[..n]) == |Render(ts[..k])|
  {
    var at, part := CutFalls(ts, n);
    OrderlySplit(ts, at);
    var front := ts[..at];
    if part != [] {
      HoldsCut(front, ts[at], |part|);
      k := at;
    } else {
      assert Render(front) + [] == Render(front);
      k := WholeKeeps(front);
      assert front[..k] == ts[..k];
    }
  }

  // ---------------------------------------------------------------- many reads

  /** One read: how many bytes the ring handed over, and whether the shell is gone and this is the last of it. */
  datatype Cut = Cut(n: nat, last: bool)

  /** `String::from_utf8_lossy`, of which only this matters: it leaves UTF-8 as it is. */
  type Lossy = seq<byte> -> seq<byte>

  ghost predicate Faithful(lossy: Lossy)
  {
    forall b {:trigger lossy(b)} :: Utf8(b) ==> lossy(b) == b
  }

  /** What one read is handed of the unread part of the log, and how much of that it uses. */
  function Handed(unread: seq<byte>, cut: Cut): (chunk: seq<byte>)
  {
    if cut.n <= |unread| then unread[..cut.n] else unread
  }

  function Taken(unread: seq<byte>, cut: Cut): (n: nat)
    ensures n <= |Handed(unread, cut)|
  {
    var chunk := Handed(unread, cut);
    if cut.last && |chunk| == |unread| then |chunk| else Keep(chunk)
  }

  /** Successive reads: what they leave unread, and the bytes each one used. */
  function Pieces(unread: seq<byte>, cuts: seq<Cut>): (r: (seq<byte>, seq<seq<byte>>))
    decreases |cuts|
  {
    if cuts == [] then (unread, []) else
    var n := Taken(unread, cuts[0]);
    var (left, rest) := Pieces(unread[n..], cuts[1..]);
    (left, [unread[..n]] + rest)
  }

  /** What the reads return, all together; `None` when one of them panics. */
  function Contents(pieces: seq<seq<byte>>, lossy: Lossy): (r: Option<seq<byte>>)
  {
    if pieces == [] then Some([]) else
    match Strip(lossy(pieces[0]))
    case None => None
    case Some(front) => Before(front, Contents(pieces[1..], lossy))
  }

  /** One read takes some tokens off the front. */
  lemma ReadTakes(ts: seq<Token>, cut: Cut) returns (k: nat)
    requires Orderly(ts)
    ensures k <= |ts| && Render(ts[..k]) <= Render(ts) && Taken(Render(ts), cut) == |Render(ts[..k])|
  {
    var chunk := Handed(Render(ts), cut);
    if cut.last && |chunk| == |Render(ts)| {
      k := |ts|;
      assert ts[..k] == ts;
    } else {
      assert Render(ts)[..|chunk|] == chunk;
      k := ChunkKeeps(ts, |chunk|);
    }
  }

  function Flat(groups: seq<seq<Token>>): (r: seq<Token>)
  {
    if groups == [] then [] else groups[0] + Flat(groups[1..])
  }

  /** Each piece is a whole number of tokens. */
  ghost predicate Grouped(pieces: seq<seq<byte>>, groups: seq<seq<Token>>)
  {
    if groups == [] then pieces == []
    else pieces != [] && Orderly(groups[0]) && pieces[0] == Render(groups[0]) && Grouped(pieces[1..], groups[1..])
  }

  lemma GroupedMore(piece: seq<byte>, pieces: seq<seq<byte>>, group: seq<Token>, groups: seq<seq<Token>>)
    requires Grouped(pieces, groups) && Orderly(group) && piece == Render(group)
    ensures Grouped([piece] + pieces, [group] + groups) && Flat([group] + groups) == group + Flat(groups)
  {
    assert ([group] + groups)[1..] == groups && ([piece] + pieces)[1..] == pieces;
  }

  lemma PiecesStep(piece: seq<byte>, unread: seq<byte>, cuts: seq<Cut>, left: seq<byte>, rest: seq<seq<byte>>)
    requires cuts != [] && Taken(piece + unread, cuts[0]) == |piece|
    requires Pieces(unread, cuts[1..]) == (left, rest)
    ensures Pieces(piece + unread, cuts) == (left, [piece] + rest)
  {
    assert (piece + unread)[..|piece|] == piece && (piece + unread)[|piece|..] == unread;
  }

  lemma PiecesFrom(unread: seq<byte>, piece: seq<byte>, after: seq<byte>, cuts: seq<Cut>, left: seq<byte>, rest: seq<seq<byte>>)
    requires unread == piece + after && cuts != [] && Taken(unread, cuts[0]) == |piece| && Pieces(after, cuts[1..]) == (left, rest)
    ensures Pieces(unread, cuts) == (left, [piece] + rest)
  {
    PiecesStep(piece, after, cuts, left, rest);
  }

  lemma Regroup(a: seq<Token>, b: seq<Token>, c: seq<Token>)
    ensures a + (b + c) == (a + b) + c
  {
  }

  /** These groups of tokens are what the reads took of them, and `back` what they left. */
  ghost predicate TookIn(ts: seq<Token>, cuts: seq<Cut>, pieces: seq<seq<byte>>, groups: seq<seq<Token>>, back: seq<Token>)
  {
    Pieces(Render(ts), cuts) == (Render(back), pieces) && ts == Flat(groups) + back && Grouped(pieces, groups)
  }

  lemma TookOneMore(ts: seq<Token>, one: seq<Token>, left: seq<Token>, cuts: seq<Cut>, rest: seq<seq<byte>>,
                    more: seq<seq<Token>>, back: seq<Token>)
    requires ts == one + left && Orderly(one) && Render(ts) == Render(one) + Render(left)
    requires cuts != [] && Taken(Render(ts), cuts[0]) == |Render(one)| && TookIn(left, cuts[1..], rest, more, back)
    ensures TookIn(ts, cuts, [Render(one)] + rest, [one] + more, back)
  {
    PiecesFrom(Render(ts), Render(one), Render(left), cuts, Render(back), rest);
    GroupedMore(Render(one), rest, one, more);
    Regroup(one, Flat(more), back);
  }

  lemma TookNone(ts: seq<Token>, cuts: seq<Cut>)
    requires cuts == []
    ensures TookIn(ts, cuts, [], [], ts)
  {
    assert [] + ts == ts;
  }

  lemma FirstRead(ts: seq<Token>, cut: Cut) returns (one: seq<Token>, left: seq<Token>)
    requires Orderly(ts)
    ensures ts == one + left && Orderly(one) && Orderly(left)
    ensures Render(ts) == Render(one) + Render(left) && Taken(Render(ts), cut) == |Render(one)|
  {
    var k := ReadTakes(ts, cut);
    one, left := ts[..k], ts[k..];
    OrderlySplit(ts, k);
    Split(ts, k);
  }

  lemma {:induction false} ReadsInTokens(ts: seq<Token>, cuts: seq<Cut>)
    returns (pieces: seq<seq<byte>>, groups: seq<seq<Token>>, back: seq<Token>)
    requires Orderly(ts)
    ensures TookIn(ts, cuts, pieces, groups, back)
    decreases |cuts|
  {
    if cuts == [] {
      pieces, groups, back := [], [], ts;
      TookNone(ts, cuts);
    } else {
      var one, left := FirstRead(ts, cuts[0]);
      var rest, more;
      rest, more, back := ReadsInTokens(left, cuts[1..]);
      TookOneMore(ts, one, left, cuts, rest, more, back);
      pieces, groups := [Render(one)] + rest, [one] + more;
    }
  }

  lemma LossyClean(group: seq<Token>, lossy: Lossy)
    requires Orderly(group) && Faithful(lossy)
    ensures Strip(lossy(Render(group))) == Some(Clean(group))
  {
    RenderUtf8(group);
    StripIsClean(group);
  }

  lemma {:induction false} ContentsAreClean(pieces: seq<seq<byte>>, groups: seq<seq<Token>>, lossy: Lossy)
    requires Grouped(pieces, groups) && Faithful(lossy)
    ensures Contents(pieces, lossy) == Some(Clean(Flat(groups)))
    decreases |groups|
  {
    if groups != [] {
      LossyClean(groups[0], lossy);
      ContentsAreClean(pieces[1..], groups[1..], lossy);
      CleanPlus(groups[0], Flat(groups[1..]));
    }
  }

  lemma PrefixStrips(ts: seq<Token>, front: seq<Token>, back: seq<Token>)
    requires Orderly(ts) && ts == front + back
    ensures var log := Render(ts); var n := |log| - |Render(back)|;
      && n >= 0 && Strip(log[..n]) == Some(Clean(front)) && AllKept(Clean(front))
      && (Render(back) == [] ==> Strip(log) == Some(Clean(front)))
  {
    RenderPlus(front, back);
    OrderlySplit(ts, |front|);
    assert ts[..|front|] == front && Render(ts)[..|Render(front)|] == Render(front);
    assert Render(front) + [] == Render(front);
    StripIsClean(front);
    RenderUtf8(front);
    OnlyTextIsLeft(Render(front));
  }

  /**
   Chunked reading is whole-log cleaning: for any log of characters and proper sequences, cut at any
   points, what the reads return is always what cleaning the part read so far gives; and once they
   have read it all, it is `strip_controls` of the whole log.  It never panics, and nothing but text,
   newlines and tabs comes out.
   */
  lemma ChunkedReadingIsWholeLogCleaning(ts: seq<Token>, cuts: seq<Cut>, lossy: Lossy)
    requires Orderly(ts) && Faithful(lossy)
    ensures var log := Render(ts);
      var (unread, pieces) := Pieces(log, cuts);
      var contents := Contents(pieces, lossy);
      && |unread| <= |log| && contents.Some? && contents == Strip(log[..|log| - |unread|]) && AllKept(contents.value)
      && (unread == [] ==> contents == Strip(log))
  {
    var pieces, groups, back := ReadsInTokens(ts, cuts);
    ContentsAreClean(pieces, groups, lossy);
    PrefixStrips(ts, Flat(groups), back);
  }
}
