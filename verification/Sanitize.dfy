/**
 Cleaning terminal output: where a chunk may be cut, what an escape sequence spans, and what is left
 of the text.

 Text is its UTF-8 bytes.  Cleaning can panic, when a sequence is taken to end inside a character;
 the functions say so by returning `None`.
 */
module Sanitize {
  import opened Base

  const ESC: byte := 0x1B
  const BEL: byte := 0x07
  const BACKSLASH: byte := 0x5C
  const LOOKBACK := 256

  // ---------------------------------------------------------------- UTF-8

  predicate Continues(b: byte)
  {
    0x80 <= b <= 0xBF
  }

  /** How many bytes a character that starts with `b` takes. */
  function Width(b: byte): (n: nat)
    ensures 1 <= n <= 4
  {
    if b < 0xC0 then 1 else if b < 0xE0 then 2 else if b < 0xF0 then 3 else 4
  }

  /** One character, as section 4 of RFC 3629 has it. */
  predicate IsChar(c: seq<byte>)
  {
    || (|c| == 1 && c[0] < 0x80)
    || (|c| == 2 && 0xC2 <= c[0] <= 0xDF && Continues(c[1]))
    || (|c| == 3 && 0xE0 <= c[0] <= 0xEF && Continues(c[1]) && Continues(c[2])
        && (c[0] == 0xE0 ==> c[1] >= 0xA0) && (c[0] == 0xED ==> c[1] <= 0x9F))
    || (|c| == 4 && 0xF0 <= c[0] <= 0xF4 && Continues(c[1]) && Continues(c[2]) && Continues(c[3])
        && (c[0] == 0xF0 ==> c[1] >= 0x90) && (c[0] == 0xF4 ==> c[1] <= 0x8F))
  }

  /** A Unicode scalar value: a code point that is not a surrogate. */
  predicate Scalar(x: int)
  {
    0 <= x < 0xD800 || 0xE000 <= x <= 0x10FFFF
  }

  /** Its bytes, as section 3 of RFC 3629 lays them out. */
  function Encoded(x: int): (c: seq<byte>)
    requires Scalar(x)
  {
    if x < 0x80 then [x]
    else if x < 0x800 then [0xC0 + x / 0x40, 0x80 + x % 0x40]
    else if x < 0x1_0000 then [0xE0 + x / 0x1000, 0x80 + x / 0x40 % 0x40, 0x80 + x % 0x40]
    else [0xF0 + x / 0x4_0000, 0x80 + x / 0x1000 % 0x40, 0x80 + x / 0x40 % 0x40, 0x80 + x % 0x40]
  }

  lemma EncodedIsChar(x: int)
    requires Scalar(x)
    ensures IsChar(Encoded(x)) && Width(Encoded(x)[0]) == |Encoded(x)|
  {
  }

  /** What a byte says beside its marker. */
  function Bits(b: byte, marker: int): (n: int)
  {
    var n: int := b;
    n - marker
  }

  /** The scalar value some bytes are laid out from. */
  function Decoded(c: seq<byte>): (x: int)
    requires 1 <= |c| <= 4
  {
    if |c| == 1 then Bits(c[0], 0)
    else if |c| == 2 then Bits(c[0], 0xC0) * 0x40 + Bits(c[1], 0x80)
    else if |c| == 3 then Bits(c[0], 0xE0) * 0x1000 + Bits(c[1], 0x80) * 0x40 + Bits(c[2], 0x80)
    else Bits(c[0], 0xF0) * 0x4_0000 + Bits(c[1], 0x80) * 0x1000 + Bits(c[2], 0x80) * 0x40 + Bits(c[3], 0x80)
  }

  lemma CharIsEncoding(c: seq<byte>)
    requires IsChar(c)
    ensures Scalar(Decoded(c)) && c == Encoded(Decoded(c))
  {
    if |c| == 3 { ThreeAre(c); }
    if |c| == 4 { FourAre(c); }
  }

  lemma ThreeAre(c: seq<byte>)
    requires IsChar(c) && |c| == 3
    ensures Scalar(Decoded(c)) && c == Encoded(Decoded(c))
  {
    ThreeBack(Bits(c[0], 0xE0), Bits(c[1], 0x80), Bits(c[2], 0x80));
  }

  lemma FourAre(c: seq<byte>)
    requires IsChar(c) && |c| == 4
    ensures Scalar(Decoded(c)) && c == Encoded(Decoded(c))
  {
    FourBack(Bits(c[0], 0xF0), Bits(c[1], 0x80), Bits(c[2], 0x80), Bits(c[3], 0x80));
  }

  /** So the characters are exactly the scalar values' encodings. */
  lemma CharsAreEncodings(c: seq<byte>)
    ensures IsChar(c) <==> 1 <= |c| <= 4 && Scalar(Decoded(c)) && c == Encoded(Decoded(c))
  {
    if IsChar(c) {
      CharIsEncoding(c);
    } else if 1 <= |c| <= 4 && Scalar(Decoded(c)) {
      EncodedIsChar(Decoded(c));
    }
  }

  lemma ThreeBack(a: nat, b: nat, c: nat)
    requires b < 0x40 && c < 0x40
    ensures var x := a * 0x1000 + b * 0x40 + c; x / 0x1000 == a && x / 0x40 % 0x40 == b && x % 0x40 == c
  {
    var x := a * 0x1000 + b * 0x40 + c;
    assert x / 0x40 == a * 0x40 + b;
  }

  lemma FourBack(a: nat, b: nat, c: nat, d: nat)
    requires b < 0x40 && c < 0x40 && d < 0x40
    ensures var x := a * 0x4_0000 + b * 0x1000 + c * 0x40 + d;
      x / 0x4_0000 == a && x / 0x1000 % 0x40 == b && x / 0x40 % 0x40 == c && x % 0x40 == d
  {
    var x := a * 0x4_0000 + b * 0x1000 + c * 0x40 + d;
    assert x / 0x40 == a * 0x1000 + b * 0x40 + c && x / 0x1000 == a * 0x40 + b;
  }

  predicate Utf8(b: seq<byte>)
  {
    b == [] || (Width(b[0]) <= |b| && IsChar(b[..Width(b[0])]) && Utf8(b[Width(b[0])..]))
  }

  lemma {:induction false} Utf8Plus(a: seq<byte>, b: seq<byte>)
    requires Utf8(a) && Utf8(b)
    ensures Utf8(a + b)
    decreases |a|
  {
    if a == [] {
      assert a + b == b;
    } else {
      var w := Width(a[0]);
      Utf8Plus(a[w..], b);
      CutPlus(a, b, w);
    }
  }

  lemma CutPlus(a: seq<byte>, b: seq<byte>, w: nat)
    requires w <= |a|
    ensures (a + b)[..w] == a[..w] && (a + b)[w..] == a[w..] + b
  {
  }

  lemma OneChar(c: seq<byte>)
    requires IsChar(c)
    ensures Utf8(c) && Width(c[0]) == |c|
  {
    assert c[..|c|] == c && c[|c|..] == [];
  }

  /** The last character of a text. */
  lemma {:induction false} LastChar(b: seq<byte>) returns (at: nat)
    requires Utf8(b) && b != []
    ensures at < |b| && IsChar(b[at..])
    decreases |b|
  {
    var w := Width(b[0]);
    if w == |b| {
      assert b[..w] == b;
      at := 0;
    } else {
      at := LastChar(b[w..]);
      assert b[w..][at..] == b[w + at..];
      at := w + at;
    }
  }

  // ---------------------------------------------------------------- where a chunk may end

  /** `trim_incomplete_tail`, from `back` bytes before the end on. */
  function TailFrom(b: seq<byte>, back: nat): (n: nat)
    requires back >= 1
    ensures n <= |b|
    decreases 4 - back
  {
    if back > 3 || back > |b| then |b| else
    var i := |b| - back;
    if b[i] < 0x80 then |b|
    else if b[i] >= 0xC0 then if back < Width(b[i]) then i else |b|
    else TailFrom(b, back + 1)
  }

  method TrimIncompleteTail(b: seq<byte>) returns (n: nat)
    ensures n == TailFrom(b, 1)
  {
    var back := 1;
    while back <= 3 && back <= |b|
      invariant 1 <= back <= 4 && TailFrom(b, back) == TailFrom(b, 1)
    {
      var i := |b| - back;
      if b[i] < 0x80 { return |b|; }
      if b[i] >= 0xC0 {
        var need := if b[i] >= 0xF0 then 4 else if b[i] >= 0xE0 then 3 else 2;
        return if back < need then i else |b|;
      }
      back := back + 1;
    }
    n := |b|;
  }

  /** A whole text ends where it ends. */
  lemma TailOfText(b: seq<byte>)
    requires Utf8(b)
    ensures TailFrom(b, 1) == |b|
  {
    if b != [] {
      var at := LastChar(b);
      var c, m := b[at..], |b|;
      assert c[|c| - 1] == b[m - 1];
      if |c| >= 2 {
        assert c[|c| - 2] == b[m - 2];
        assert TailFrom(b, 1) == TailFrom(b, 2);
        if |c| >= 3 {
          assert c[|c| - 3] == b[m - 3];
          assert TailFrom(b, 2) == TailFrom(b, 3);
        }
      }
    }
  }

  lemma TailAtLead(b: seq<byte>, back: nat)
    requires 1 <= back <= 3 && back <= |b| && b[|b| - back] >= 0xC0 && back < Width(b[|b| - back])
    requires forall i :: |b| - back < i < |b| ==> Continues(b[i])
    ensures TailFrom(b, 1) == |b| - back
  {
    if back >= 2 {
      assert Continues(b[|b| - 1]) && TailFrom(b, 1) == TailFrom(b, 2);
      if back == 3 { assert Continues(b[|b| - 2]) && TailFrom(b, 2) == TailFrom(b, 3); }
    }
  }

  lemma CharShape(c: seq<byte>)
    requires IsChar(c) && |c| > 1
    ensures c[0] >= 0xC0 && Width(c[0]) == |c| <= 4 && forall i :: 1 <= i < |c| ==> Continues(c[i])
  {
  }

  /** A character cut short is held back whole. */
  lemma TailOfCut(a: seq<byte>, c: seq<byte>, n: nat)
    requires IsChar(c) && 0 < n < |c|
    ensures TailFrom(a + c[..n], 1) == |a|
  {
    CharShape(c);
    CutBytes(a, c, n);
    TailAtLead(a + c[..n], n);
  }

  lemma CutBytes(a: seq<byte>, c: seq<byte>, n: nat)
    requires 0 < n < |c| && forall i :: 1 <= i < |c| ==> Continues(c[i])
    ensures var b := a + c[..n]; |b| == |a| + n && b[|a|] == c[0] && forall i :: |a| < i < |b| ==> Continues(b[i])
  {
    var b := a + c[..n];
    forall i | |a| < i < |b| ensures Continues(b[i]) { assert b[i] == c[i - |a|]; }
  }

  /** The cut never reaches back over an ASCII byte. */
  lemma {:induction false} TailKeeps(b: seq<byte>, q: nat, back: nat)
    requires q < |b| && b[q] < 0x80 && 1 <= back <= |b| - q
    ensures TailFrom(b, back) > q
    decreases 4 - back
  {
    if back <= 3 && Continues(b[|b| - back]) { TailKeeps(b, q, back + 1); }
  }

  lemma {:induction false} TailIsShort(b: seq<byte>, back: nat)
    requires 1 <= back
    ensures TailFrom(b, back) + 3 >= |b|
    decreases 4 - back
  {
    if back <= 3 && back <= |b| && Continues(b[|b| - back]) { TailIsShort(b, back + 1); }
  }

  // ---------------------------------------------------------------- escape sequences

  predicate StringKind(b: byte)
  {
    b == 0x5D || b == 0x50 || b == 0x58 || b == 0x5E || b == 0x5F
  }

  const CSI: byte := 0x5B

  predicate FinalByte(b: byte)
  {
    0x40 <= b <= 0x7E
  }

  function CsiEnd(b: seq<byte>, j: nat): (r: Option<nat>)
    requires j <= |b|
    ensures r.Some? ==> j < r.value <= |b|
    decreases |b| - j
  {
    if j == |b| then None else if FinalByte(b[j]) then Some(j + 1) else CsiEnd(b, j + 1)
  }

  function StringEnd(b: seq<byte>, j: nat): (r: Option<nat>)
    requires j <= |b|
    ensures r.Some? ==> j < r.value <= |b|
    decreases |b| - j
  {
    if j == |b| then None
    else if b[j] == BEL then Some(j + 1)
    else if b[j] == ESC then
      if j + 1 == |b| then None else if b[j + 1] == BACKSLASH then Some(j + 2) else Some(j + 1)
    else StringEnd(b, j + 1)
  }

  /** Where the sequence at the front of `b` ends; `None` when it is not finished. */
  function Scan(b: seq<byte>): (r: Option<nat>)
    requires b != []
    ensures r.Some? ==> 2 <= r.value <= |b|
  {
    if |b| == 1 then None
    else if b[1] == CSI then CsiEnd(b, 2)
    else if StringKind(b[1]) then StringEnd(b, 2)
    else Some(2)
  }

  lemma {:induction false} CsiEndShift(b: seq<byte>, i: nat, j: nat)
    requires i <= j <= |b|
    ensures CsiEnd(b[i..], j - i) == match CsiEnd(b, j) case None => None case Some(n) => Some(n - i)
    decreases |b| - j
  {
    if j < |b| { CsiEndShift(b, i, j + 1); }
  }

  lemma {:induction false} StringEndShift(b: seq<byte>, i: nat, j: nat)
    requires i <= j <= |b|
    ensures StringEnd(b[i..], j - i) == match StringEnd(b, j) case None => None case Some(n) => Some(n - i)
    decreases |b| - j
  {
    if j < |b| { StringEndShift(b, i, j + 1); }
  }

  /** Position `q` is the first from `j` on that is one of these. */
  ghost predicate FirstFrom(b: seq<byte>, j: nat, q: nat, stops: byte -> bool)
  {
    j <= q < |b| && stops(b[q]) && forall i :: j <= i < q ==> !stops(b[i])
  }

  ghost predicate NoneFrom(b: seq<byte>, j: nat, stops: byte -> bool)
  {
    forall i :: j <= i < |b| ==> !stops(b[i])
  }

  const CsiStops: byte -> bool := b => 0x40 <= b <= 0x7E
  const StringStops: byte -> bool := b => b == 0x07 || b == 0x1B

  lemma {:induction false} CsiEndIs(b: seq<byte>, j: nat)
    requires j <= |b|
    ensures match CsiEnd(b, j) case None => NoneFrom(b, j, CsiStops) case Some(n) => FirstFrom(b, j, n - 1, CsiStops)
    decreases |b| - j
  {
    if j < |b| && !CsiStops(b[j]) { CsiEndIs(b, j + 1); }
  }

  /** The end of a string that has its first BEL or ESC at `q`. */
  ghost predicate StopsAt(b: seq<byte>, j: nat, q: nat, r: Option<nat>)
  {
    && FirstFrom(b, j, q, StringStops)
    && (b[q] == 0x07 ==> r == Some(q + 1))
    && (b[q] == 0x1B && q + 1 == |b| ==> r == None)
    && (b[q] == 0x1B && q + 1 < |b| ==> r == if b[q + 1] == 0x5C then Some(q + 2) else Some(q + 1))
  }

  ghost predicate StringSpan(b: seq<byte>, j: nat, r: Option<nat>)
  {
    (NoneFrom(b, j, StringStops) && r == None) || exists q: nat :: StopsAt(b, j, q, r)
  }

  lemma {:induction false} StringEndIs(b: seq<byte>, j: nat)
    requires j <= |b|
    ensures StringSpan(b, j, StringEnd(b, j))
    decreases |b| - j
  {
    if j < |b| {
      if StringStops(b[j]) {
        assert StopsAt(b, j, j, StringEnd(b, j));
      } else {
        StringEndIs(b, j + 1);
        if !NoneFrom(b, j + 1, StringStops) {
          var q: nat :| StopsAt(b, j + 1, q, StringEnd(b, j + 1));
          assert StopsAt(b, j, q, StringEnd(b, j));
        }
      }
    }
  }

  /**
   Where a sequence ends, for any bytes whatever: a control sequence with its first byte from 0x40 to
   0x7E; a string with BEL, with ESC and a backslash, or before the ESC of something else; anything else
   after two bytes.
   */
  lemma ScansExactly(b: seq<byte>)
    requires b != []
    ensures |b| == 1 ==> Scan(b) == None
    ensures |b| > 1 && b[1] == 0x5B ==>
      match Scan(b) case None => NoneFrom(b, 2, CsiStops) case Some(n) => FirstFrom(b, 2, n - 1, CsiStops)
    ensures |b| > 1 && b[1] in {0x5D, 0x50, 0x58, 0x5E, 0x5F} ==> StringSpan(b, 2, Scan(b))
    ensures |b| > 1 && b[1] !in {0x5B, 0x5D, 0x50, 0x58, 0x5E, 0x5F} ==> Scan(b) == Some(2)
  {
    if |b| > 1 {
      CsiEndIs(b, 2);
      StringEndIs(b, 2);
    }
  }

  /** `scan_escape`, by index. */
  method ScanEscape(b: seq<byte>, i: nat) returns (end: Option<nat>)
    requires i < |b|
    ensures end == match Scan(b[i..]) case None => None case Some(n) => Some(i + n)
  {
    var j := i + 1;
    if j == |b| { return None; }
    var kind := b[j];
    j := j + 1;
    if kind == CSI {
      CsiEndShift(b, i, j);
      while j < |b|
        invariant i + 2 <= j <= |b| && CsiEnd(b, j) == CsiEnd(b, i + 2)
      {
        if FinalByte(b[j]) { return Some(j + 1); }
        j := j + 1;
      }
      return None;
    }
    if StringKind(kind) {
      StringEndShift(b, i, j);
      while j < |b|
        invariant i + 2 <= j <= |b| && StringEnd(b, j) == StringEnd(b, i + 2)
      {
        if b[j] == BEL { return Some(j + 1); }
        if b[j] == ESC {
          if j + 1 == |b| { return None; }
          return if b[j + 1] == BACKSLASH then Some(j + 2) else Some(j + 1);
        }
        j := j + 1;
      }
      return None;
    }
    end := Some(j);
  }

  /** The last ESC at or after `from` and before `n`. */
  function LastEsc(b: seq<byte>, from: nat, n: nat): (r: Option<nat>)
    requires from <= n <= |b|
    ensures r.Some? ==> from <= r.value < n
    decreases n - from
  {
    if n == from then None else if b[n - 1] == ESC then Some(n - 1) else LastEsc(b, from, n - 1)
  }

  lemma {:induction false} LastEscIsLast(b: seq<byte>, from: nat, n: nat)
    requires from <= n <= |b|
    ensures var r := LastEsc(b, from, n);
      && (r.Some? ==> b[r.value] == ESC && forall i :: r.value < i < n ==> b[i] != ESC)
      && (r.None? ==> forall i :: from <= i < n ==> b[i] != ESC)
    decreases n - from
  {
    if n != from && b[n - 1] != ESC { LastEscIsLast(b, from, n - 1); }
  }

  function EscapeCut(b: seq<byte>): (n: nat)
    ensures n <= |b|
  {
    var from := if |b| <= LOOKBACK then 0 else |b| - LOOKBACK;
    match LastEsc(b, from, |b|)
    case None => |b|
    case Some(esc) => if Scan(b[esc..]).Some? then |b| else esc
  }

  method TrimIncompleteEscape(b: seq<byte>) returns (n: nat)
    ensures n == EscapeCut(b)
  {
    var from := if |b| <= LOOKBACK then 0 else |b| - LOOKBACK;
    var i := |b|;
    while i > from && b[i - 1] != ESC
      invariant from <= i <= |b| && LastEsc(b, from, i) == LastEsc(b, from, |b|)
    {
      i := i - 1;
    }
    if i == from { return |b|; }
    var end := ScanEscape(b, i - 1);
    n := if end.Some? then |b| else i - 1;
  }

  /** How much of a chunk `read` uses; the rest is carried over. */
  function Keep(b: seq<byte>): (n: nat)
    ensures n <= |b|
  {
    var tail, escape := TailFrom(b, 1), EscapeCut(b);
    if tail < escape then tail else escape
  }

  /** Whatever the bytes are, no more than the lookback window is ever carried over. */
  lemma KeepsMost(b: seq<byte>)
    ensures Keep(b) + 256 >= |b|
  {
    TailIsShort(b, 1);
  }

  // ---------------------------------------------------------------- what is left of the text

  predicate Kept(b: byte)
  {
    b == 0x0A || b == 0x09 || (b >= 0x20 && b != 0x7F)
  }

  function Before(front: seq<byte>, rest: Option<seq<byte>>): Option<seq<byte>>
  {
    match rest case None => None case Some(b) => Some(front + b)
  }

  lemma BeforePlus(a: seq<byte>, b: seq<byte>, rest: Option<seq<byte>>)
    ensures Before(a, Before(b, rest)) == Before(a + b, rest) && Before([], rest) == rest
  {
    if rest.Some? {
      assert a + (b + rest.value) == (a + b) + rest.value;
      assert [] + rest.value == rest.value;
    }
  }

  /** `strip_controls`; `None` is a panic on a slice that starts inside a character. */
  function Strip(b: seq<byte>): (r: Option<seq<byte>>)
    decreases |b|
  {
    if b == [] then Some([])
    else if b[0] == ESC then
      match Scan(b)
      case None => Some([])
      case Some(end) => Strip(b[end..])
    else if b[0] == 0x0D then
      if |b| > 1 && b[1] == 0x0A then Before([0x0A], Strip(b[2..])) else Strip(b[1..])
    else if b[0] == 0x0A || b[0] == 0x09 then Before([b[0]], Strip(b[1..]))
    else if b[0] < 0x20 || b[0] == 0x7F then Strip(b[1..])
    else if Continues(b[0]) || Width(b[0]) > |b| then None
    else Before(b[..Width(b[0])], Strip(b[Width(b[0])..]))
  }

  method StripControls(b: seq<byte>) returns (r: Option<seq<byte>>)
    ensures r == Strip(b)
  {
    var out: seq<byte>, i := [], 0;
    assert b[0..] == b;
    BeforePlus([], [], Strip(b));
    while i < |b|
      invariant 0 <= i <= |b| && Strip(b) == Before(out, Strip(b[i..]))
      decreases |b| - i
    {
      var rest := b[i..];
      if b[i] == ESC {
        var end := ScanEscape(b, i);
        if end.None? {
          assert out + [] == out;
          return Some(out);
        }
        assert rest[end.value - i..] == b[end.value..];
        i := end.value;
      } else if b[i] == 0x0D {
        if i + 1 < |b| && b[i + 1] == 0x0A {
          assert rest[2..] == b[i + 2..];
          BeforePlus(out, [0x0A], Strip(rest[2..]));
          out, i := out + [0x0A], i + 2;
        } else {
          assert rest[1..] == b[i + 1..];
          i := i + 1;
        }
      } else if b[i] == 0x0A || b[i] == 0x09 {
        assert rest[1..] == b[i + 1..];
        BeforePlus(out, [b[i]], Strip(rest[1..]));
        out, i := out + [b[i]], i + 1;
      } else if b[i] < 0x20 || b[i] == 0x7F {
        assert rest[1..] == b[i + 1..];
        i := i + 1;
      } else {
        var w := Width(b[i]);
        if Continues(b[i]) || i + w > |b| { return None; }
        assert rest[w..] == b[i + w..] && rest[..w] == b[i..i + w];
        BeforePlus(out, rest[..w], Strip(rest[w..]));
        out, i := out + b[i..i + w], i + w;
      }
    }
    assert out + [] == out;
    r := Some(out);
  }

  ghost predicate AllKept(b: seq<byte>)
  {
    forall i :: 0 <= i < |b| ==> Kept(b[i])
  }

  /** In a text, a character ends before an ASCII byte and another starts after it. */
  lemma {:induction false} AtAscii(b: seq<byte>, q: nat)
    requires Utf8(b) && q < |b| && b[q] < 0x80
    ensures Utf8(b[q..]) && Utf8(b[q + 1..])
    decreases |b|
  {
    if q == 0 {
      assert b[0..] == b;
    } else {
      var rest, at := PastFirst(b, q);
      AtAscii(rest, at);
    }
  }

  /** What is left after the first character, where position `q` is `at`. */
  lemma PastFirst(b: seq<byte>, q: nat) returns (rest: seq<byte>, at: nat)
    requires Utf8(b) && 0 < q < |b| && b[q] < 0x80
    ensures |rest| < |b| && Utf8(rest) && at < |rest| && rest[at] < 0x80
    ensures rest[at..] == b[q..] && rest[at + 1..] == b[q + 1..]
  {
    var w := Width(b[0]);
    rest, at := b[w..], q - w;
    assert forall i :: 1 <= i < w ==> b[..w][i] == b[i] && Continues(b[i]);
    assert rest[at] == b[q];
    DropAgain(b, w, rest, at, q);
  }

  lemma DropAgain(b: seq<byte>, w: nat, rest: seq<byte>, at: nat, q: nat)
    requires w + at == q < |b| && rest == b[w..]
    ensures rest[at..] == b[q..] && rest[at + 1..] == b[q + 1..]
  {
  }

  lemma {:induction false} CsiEndsOnFinal(b: seq<byte>, j: nat)
    requires j <= |b| && CsiEnd(b, j).Some?
    ensures FinalByte(b[CsiEnd(b, j).value - 1])
    decreases |b| - j
  {
    if !FinalByte(b[j]) { CsiEndsOnFinal(b, j + 1); }
  }

  lemma {:induction false} StringEndsOnAscii(b: seq<byte>, j: nat)
    requires j <= |b| && StringEnd(b, j).Some?
    ensures b[StringEnd(b, j).value - 1] < 0x80
    decreases |b| - j
  {
    if b[j] != BEL && b[j] != ESC { StringEndsOnAscii(b, j + 1); }
  }

  /** A sequence ends between two characters, unless it is an ESC with a non-ASCII character after it. */
  lemma ScanEndsBetween(b: seq<byte>)
    requires Utf8(b) && b != [] && b[0] == ESC && Scan(b).Some?
    ensures b[1] < 0x80 ==> Utf8(b[Scan(b).value..])
    ensures b[1] >= 0x80 ==> Scan(b).value < |b| && Continues(b[Scan(b).value])
  {
    assert b[..1] == [ESC];
    if b[1] >= 0x80 {
      AtAscii(b, 0);
      var w := Width(b[1..][0]);
      assert b[1..][..w][1] == b[2];
    } else {
      if b[1] == CSI { CsiEndsOnFinal(b, 2); } else if StringKind(b[1]) { StringEndsOnAscii(b, 2); }
      AtAscii(b, Scan(b).value - 1);
    }
  }

  /** Some ESC the walk comes to, not one inside a sequence, has a non-ASCII character right after it. */
  ghost predicate Splits(b: seq<byte>)
    decreases |b|
  {
    if b == [] then false
    else if b[0] == ESC then
      |b| > 1 && (b[1] >= 0x80 || (Scan(b).Some? && Splits(b[Scan(b).value..])))
    else Width(b[0]) <= |b| && Splits(b[Width(b[0])..])
  }

  /** `strip_controls` panics on exactly those texts. */
  lemma {:induction false} PanicsExactlyWhen(b: seq<byte>)
    requires Utf8(b)
    ensures Strip(b).None? <==> Splits(b)
    decreases |b|
  {
    if b != [] {
      if b[0] == ESC {
        if Scan(b).Some? {
          ScanEndsBetween(b);
          if b[1] < 0x80 { PanicsExactlyWhen(b[Scan(b).value..]); }
        }
      } else {
        PanicsExactlyWhen(b[Width(b[0])..]);
        assert b[..Width(b[0])][0] == b[0];
        if b[0] == 0x0D && |b| > 1 && b[1] == 0x0A { NewlineStep(b[1..]); }
      }
    }
  }

  /** Such a text: ESC and then an accented letter. */
  lemma SomeTextPanics()
    ensures Utf8([ESC, 0xC3, 0xA9]) && Strip([ESC, 0xC3, 0xA9]).None?
  {
    var b: seq<byte> := [ESC, 0xC3, 0xA9];
    assert b[..1] == [ESC] && b[1..] == [0xC3, 0xA9] && b[2..] == [0xA9];
    OneChar(b[1..]);
    assert Scan(b) == Some(2);
  }

  /** A newline is one step of its own. */
  lemma NewlineStep(b: seq<byte>)
    requires b != [] && b[0] == 0x0A
    ensures Strip(b) == Before([0x0A], Strip(b[1..]))
  {
  }

  /** A carriage return vanishes whether or not a newline follows, so it may be cut off from it. */
  lemma ReturnStep(b: seq<byte>)
    requires b != [] && b[0] == 0x0D
    ensures Strip(b) == Strip(b[1..])
  {
    if |b| > 1 && b[1] == 0x0A {
      NewlineStep(b[1..]);
      assert b[1..][1..] == b[2..];
    }
  }

  /** What is not an ESC leaves something to be kept, or nothing, and then comes the rest. */
  lemma TextStep(b: seq<byte>) returns (front: seq<byte>, rest: seq<byte>)
    requires Utf8(b) && b != [] && b[0] != ESC
    ensures AllKept(front) && Utf8(rest) && |rest| < |b| && Strip(b) == Before(front, Strip(rest))
  {
    var w := Width(b[0]);
    rest := b[w..];
    if b[0] == 0x0D {
      front := [];
      ReturnStep(b);
      BeforePlus([], [], Strip(rest));
    } else if b[0] == 0x0A || b[0] == 0x09 {
      front := [b[0]];
    } else if b[0] < 0x20 || b[0] == 0x7F {
      front := [];
      BeforePlus([], [], Strip(rest));
    } else {
      front := b[..w];
      CharKept(front);
    }
  }

  lemma CharKept(c: seq<byte>)
    requires IsChar(c) && c[0] >= 0x20 && c[0] != 0x7F
    ensures AllKept(c) && !Continues(c[0])
  {
  }

  /** What follows an ESC's sequence is a text, or there the walk panics. */
  lemma EscStep(b: seq<byte>)
    requires Utf8(b) && b != [] && b[0] == ESC && Scan(b).Some?
    ensures Utf8(b[Scan(b).value..]) || Strip(b).None?
  {
    ScanEndsBetween(b);
  }

  lemma BothKept(front: seq<byte>, rest: seq<byte>)
    requires AllKept(front) && AllKept(rest)
    ensures AllKept(front + rest)
  {
  }

  /** Whatever text goes in, no control character but newline and tab comes out, and no DEL. */
  lemma {:induction false} OnlyTextIsLeft(b: seq<byte>)
    requires Utf8(b)
    ensures Strip(b).Some? ==> AllKept(Strip(b).value)
    decreases |b|
  {
    if b != [] && b[0] != ESC {
      var front, rest := TextStep(b);
      OnlyTextIsLeft(rest);
      if Strip(rest).Some? { BothKept(front, Strip(rest).value); }
    } else if b != [] && Scan(b).Some? {
      EscStep(b);
      if Strip(b).Some? { OnlyTextIsLeft(b[Scan(b).value..]); }
    }
  }
}
