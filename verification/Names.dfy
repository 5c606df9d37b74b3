/**
 The name a received file gets, and the name of the part file beside it.
 */
module Names {

  const MAX_BYTES: nat := 255

  /** The UTF-8 length of a character, and of a text. */
  function Width(c: char): (n: nat)
    ensures 1 <= n <= 4
  {
    var x := c as int;
    if x < 0x80 then 1 else if x < 0x800 then 2 else if x < 0x1_0000 then 3 else 4
  }

  function Bytes(s: string): (n: nat)
    ensures n >= |s|
  {
    if s == [] then 0 else Bytes(s[..|s| - 1]) + Width(s[|s| - 1])
  }

  lemma {:induction false} BytesPlus(a: string, b: string)
    ensures Bytes(a + b) == Bytes(a) + Bytes(b)
    decreases |b|
  {
    if b == [] {
      assert a + b == a;
    } else {
      assert (a + b)[..|a + b| - 1] == a + b[..|b| - 1];
      BytesPlus(a, b[..|b| - 1]);
    }
  }

  // ---------------------------------------------------------------- washing

  predicate Separator(c: char)
  {
    c == '/' || c == '\\'
  }

  /** Category Cc. */
  predicate Control(c: char)
  {
    c as int < 0x20 || 0x7F <= c as int < 0xA0
  }

  predicate White(c: char)
  {
    var x := c as int;
    0x09 <= x <= 0x0D || x == 0x20 || x == 0x85 || x == 0xA0 || x == 0x1680 || 0x2000 <= x <= 0x200A
    || x == 0x2028 || x == 0x2029 || x == 0x202F || x == 0x205F || x == 0x3000
  }

  predicate DotOrSpace(c: char)
  {
    c == '.' || c == ' '
  }

  /** After the last separator. */
  function LastComponent(s: string): (r: string)
  {
    if s == [] then [] else
    var c := s[|s| - 1];
    if Separator(c) then [] else LastComponent(s[..|s| - 1]) + [c]
  }

  lemma {:induction false} NoSeparatorLeft(s: string)
    ensures forall c | c in LastComponent(s) :: !Separator(c)
  {
    if s != [] && !Separator(s[|s| - 1]) { NoSeparatorLeft(s[..|s| - 1]); }
  }

  function Printable(s: string): (r: string)
  {
    if s == [] then [] else
    var c := s[|s| - 1];
    Printable(s[..|s| - 1]) + if c != ':' && !Control(c) then [c] else []
  }

  lemma {:induction false} PrintableFrom(s: string)
    ensures forall c | c in Printable(s) :: c in s && c != ':' && !Control(c)
  {
    if s != [] {
      PrintableFrom(s[..|s| - 1]);
      assert s == s[..|s| - 1] + [s[|s| - 1]];
    }
  }

  function TrimStart(s: string): (r: string)
  {
    if s != [] && White(s[0]) then TrimStart(s[1..]) else s
  }

  function TrimEnd(s: string): (r: string)
  {
    if s != [] && White(s[|s| - 1]) then TrimEnd(s[..|s| - 1]) else s
  }

  ghost predicate AllWhite(s: string)
  {
    forall i :: 0 <= i < |s| ==> White(s[i])
  }

  lemma {:induction false} TrimsStart(s: string) returns (r: string, n: nat)
    ensures r == TrimStart(s) && n <= |s| && r == s[n..] && AllWhite(s[..n]) && (r != [] ==> !White(r[0]))
  {
    if s != [] && White(s[0]) {
      r, n := TrimsStart(s[1..]);
      assert s[1..][n..] == s[n + 1..];
      OneMoreWhite(s, s[1..], n);
      n := n + 1;
    } else {
      r, n := s, 0;
    }
  }

  lemma OneMoreWhite(s: string, rest: string, n: nat)
    requires s != [] && White(s[0]) && rest == s[1..] && n <= |rest| && AllWhite(rest[..n])
    ensures AllWhite(s[..n + 1])
  {
    forall i | 0 <= i < n + 1 ensures White(s[i]) { assert i > 0 ==> s[i] == rest[..n][i - 1]; }
  }

  lemma {:induction false} TrimsEnd(s: string) returns (r: string)
    ensures r == TrimEnd(s) && r <= s && AllWhite(s[|r|..]) && (r != [] ==> !White(r[|r| - 1]))
  {
    if s != [] && White(s[|s| - 1]) {
      r := TrimsEnd(s[..|s| - 1]);
      OneMoreAtEnd(s, |r|);
    } else {
      r := s;
    }
  }

  function TrimDots(s: string): (r: string)
    ensures r <= s && (r != [] ==> !DotOrSpace(r[|r| - 1])) && forall i :: |r| <= i < |s| ==> DotOrSpace(s[i])
  {
    if s != [] && DotOrSpace(s[|s| - 1]) then TrimDots(s[..|s| - 1]) else s
  }

  /** What is left of a proposed name before it is fitted. */
  function Washed(proposed: string): (r: string)
  {
    TrimDots(TrimEnd(TrimStart(Printable(LastComponent(proposed)))))
  }

  // ---------------------------------------------------------------- reserved names

  function Upper(c: char): char
  {
    if 'a' <= c <= 'z' then (c as int - 32) as char else c
  }

  /** A device name, whatever its case. */
  predicate Device(s: string)
  {
    || (|s| == 3 && var a, b, c := Upper(s[0]), Upper(s[1]), Upper(s[2]);
        (a == 'C' && b == 'O' && c == 'N') || (a == 'P' && b == 'R' && c == 'N')
        || (a == 'A' && b == 'U' && c == 'X') || (a == 'N' && b == 'U' && c == 'L'))
    || (|s| == 4 && '1' <= s[3] <= '9' && var a, b, c := Upper(s[0]), Upper(s[1]), Upper(s[2]);
        (a == 'C' && b == 'O' && c == 'M') || (a == 'L' && b == 'P' && c == 'T'))
  }

  /** Before the first dot. */
  function Stem(s: string): (r: string)
    ensures r <= s && '.' !in r && (|r| < |s| ==> s[|r|] == '.')
  {
    if s == [] || s[0] == '.' then [] else [s[0]] + Stem(s[1..])
  }

  /** Reserved with or without an extension. */
  predicate Reserved(s: string)
  {
    Device(Stem(s))
  }

  function AvoidReserved(s: string): (r: string)
  {
    if !Reserved(s) then s else Stem(s) + "_" + s[|Stem(s)|..]
  }

  // ---------------------------------------------------------------- fitting

  /** The longest beginning of `s` within `limit` bytes. */
  function Fitting(s: string, limit: nat): (r: string)
    ensures r <= s && Bytes(r) <= limit
  {
    if Bytes(s) <= limit then s else Fitting(s[..|s| - 1], limit)
  }

  lemma {:induction false} BytesUp(s: string, k: nat)
    requires k <= |s|
    ensures Bytes(s[..k]) <= Bytes(s)
  {
    assert s == s[..k] + s[k..];
    BytesPlus(s[..k], s[k..]);
  }

  /** No longer beginning fits. */
  lemma {:induction false} FittingIsLongest(s: string, limit: nat, k: nat)
    requires |Fitting(s, limit)| < k <= |s|
    ensures Bytes(s[..k]) > limit
    decreases |s|
  {
    if k < |s| {
      assert s[..|s| - 1][..k] == s[..k];
      FittingIsLongest(s[..|s| - 1], limit, k);
    } else {
      assert s[..k] == s;
    }
  }

  /** The loop both `fits_length` and `part_path` use. */
  method TakeFitting(s: string, limit: nat) returns (r: string)
    ensures r == Fitting(s, limit)
  {
    r := [];
    var i, n := 0, 0;
    while i < |s|
      invariant 0 <= i <= |s| && r == s[..i] && n == Bytes(s[..i]) <= limit
    {
      OneMore(s, i);
      if n + Width(s[i]) > limit {
        StopsHere(s, limit, i);
        return;
      }
      n := n + Width(s[i]);
      r := r + [s[i]];
      i := i + 1;
    }
    assert s[..i] == s;
  }

  lemma OneMore(s: string, i: nat)
    requires i < |s|
    ensures s[..i + 1] == s[..i] + [s[i]] && Bytes(s[..i + 1]) == Bytes(s[..i]) + Width(s[i])
  {
    assert s[..i + 1][..i] == s[..i] && s[..i + 1][i] == s[i];
  }

  lemma StopsHere(s: string, limit: nat, i: nat)
    requires i < |s| && Bytes(s[..i]) <= limit && Bytes(s[..i + 1]) > limit
    ensures Fitting(s, limit) == s[..i]
  {
    var r := Fitting(s, limit);
    if |r| < i { FittingIsLongest(s, limit, i); }
    if |r| > i { FitsUpTo(s, limit, i + 1); }
  }

  lemma FitsUpTo(s: string, limit: nat, k: nat)
    requires k <= |Fitting(s, limit)|
    ensures Bytes(s[..k]) <= limit
  {
    BytesUp(Fitting(s, limit), k);
    assert s[..k] == Fitting(s, limit)[..k];
  }

  /** From the last dot on, when there is one. */
  function Extension(s: string): (r: string)
  {
    if s == [] || '.' !in s then []
    else if s[|s| - 1] == '.' then ['.']
    else Extension(s[..|s| - 1]) + [s[|s| - 1]]
  }

  lemma {:induction false} ExtensionIsSuffix(s: string)
    ensures var r := Extension(s); |r| <= |s| && r == s[|s| - |r|..] && (r != [] ==> r[0] == '.')
  {
    if s != [] && '.' in s && s[|s| - 1] != '.' {
      ExtensionIsSuffix(s[..|s| - 1]);
      StillDotted(s);
      OneMoreAtEnd(s, |s[..|s| - 1]| - |Extension(s[..|s| - 1])|);
    }
  }

  lemma {:induction false} StillDotted(s: string)
    requires s != [] && '.' in s && s[|s| - 1] != '.'
    ensures '.' in s[..|s| - 1] && Extension(s[..|s| - 1]) != []
  {
    var i :| 0 <= i < |s| && s[i] == '.';
    assert s[..|s| - 1][i] == '.';
    if s[|s| - 2] != '.' { StillDotted(s[..|s| - 1]); }
  }

  lemma OneMoreAtEnd(s: string, k: nat)
    requires s != [] && k <= |s| - 1
    ensures s[..|s| - 1][k..] + [s[|s| - 1]] == s[k..]
  {
  }

  /** The extension that is kept: one under 16 bytes. */
  function KeptExtension(s: string): (r: string)
    ensures Bytes(r) < 16
  {
    if Bytes(Extension(s)) < 16 then Extension(s) else []
  }

  /** Cut in front of an extension that takes `n` bytes. */
  function CutFor(s: string, n: nat): (r: string)
    requires n <= MAX_BYTES
  {
    Fitting(s, MAX_BYTES - n)
  }

  function FitLength(s: string): (r: string)
  {
    if Bytes(s) <= MAX_BYTES then s else CutFor(s, Bytes(KeptExtension(s))) + KeptExtension(s)
  }

  lemma FitLengthFits(s: string)
    ensures Bytes(FitLength(s)) <= MAX_BYTES
  {
    var e := KeptExtension(s);
    BytesPlus(CutFor(s, Bytes(e)), e);
  }

  function OrFile(s: string): string
  {
    if s == [] then "file" else s
  }

  function SafeName(proposed: string): (r: string)
  {
    var washed := Washed(proposed);
    if washed == [] then "file" else OrFile(TrimDots(FitLength(AvoidReserved(washed))))
  }

  // ---------------------------------------------------------------- one safe component

  predicate Plain(c: char)
  {
    !Separator(c) && c != ':' && !Control(c)
  }

  ghost predicate AllPlain(s: string)
  {
    forall i :: 0 <= i < |s| ==> Plain(s[i])
  }

  ghost predicate EndsWell(s: string)
  {
    s != [] && !DotOrSpace(s[|s| - 1])
  }

  lemma WashedIsPlain(proposed: string)
    ensures AllPlain(Washed(proposed)) && (Washed(proposed) != [] ==> EndsWell(Washed(proposed)))
  {
    var a := LastComponent(proposed);
    var b := Printable(a);
    NoSeparatorLeft(proposed);
    PrintableFrom(a);
    var c, n := TrimsStart(b);
    var d := TrimsEnd(c);
    forall i | 0 <= i < |c| ensures Plain(c[i]) { assert c[i] == b[n + i] && c[i] in b && c[i] in a; }
    assert TrimDots(d) <= d <= c;
  }

  lemma AvoidIsPlain(s: string)
    requires AllPlain(s) && EndsWell(s)
    ensures AllPlain(AvoidReserved(s)) && EndsWell(AvoidReserved(s))
  {
    var r, k := AvoidReserved(s), |Stem(s)|;
    if Reserved(s) {
      assert r == s[..k] + "_" + s[k..];
      forall i | 0 <= i < |r| ensures Plain(r[i]) { assert i > k ==> r[i] == s[i - 1]; }
      assert k < |s| ==> r[|r| - 1] == s[|s| - 1];
    }
  }

  lemma FitIsPlain(s: string)
    requires AllPlain(s)
    ensures AllPlain(FitLength(s))
  {
    var e := KeptExtension(s);
    ExtensionIsSuffix(s);
    assert forall i :: 0 <= i < |e| ==> e[i] == s[|s| - |e| + i];
  }

  lemma {:induction false} AsciiBytes(s: string)
    requires forall i :: 0 <= i < |s| ==> s[i] as int < 0x80
    ensures Bytes(s) == |s|
  {
    if s != [] { AsciiBytes(s[..|s| - 1]); }
  }

  ghost predicate Safe(s: string)
  {
    Bytes(s) <= MAX_BYTES && AllPlain(s) && EndsWell(s)
  }

  lemma FileIsSafe()
    ensures Safe("file") && !Reserved("file")
  {
    AsciiBytes("file");
    NoDot("file");
  }

  lemma TrimmedIsSafe(f: string)
    requires AllPlain(f) && Bytes(f) <= MAX_BYTES && TrimDots(f) != []
    ensures Safe(TrimDots(f))
  {
    BytesUp(f, |TrimDots(f)|);
    assert f[..|TrimDots(f)|] == TrimDots(f);
  }

  lemma FittedIsSafe(w: string)
    requires AllPlain(w) && EndsWell(w)
    ensures Safe(OrFile(TrimDots(FitLength(AvoidReserved(w)))))
  {
    AvoidIsPlain(w);
    FitIsPlain(AvoidReserved(w));
    var f := FitLength(AvoidReserved(w));
    FitLengthFits(AvoidReserved(w));
    if TrimDots(f) == [] { FileIsSafe(); } else { TrimmedIsSafe(f); }
  }

  /**
   Every proposed string becomes one non-empty component of at most 255 bytes, with no separator,
   colon or control character in it and no dot or space at its end.
   */
  lemma OneSafeComponent(proposed: string)
    ensures Safe(SafeName(proposed))
  {
    WashedIsPlain(proposed);
    if Washed(proposed) == [] { FileIsSafe(); } else { FittedIsSafe(Washed(proposed)); }
  }

  // ---------------------------------------------------------------- never a device, or exactly when

  lemma {:induction false} StemIs(s: string, k: nat)
    requires k <= |s| && '.' !in s[..k] && (k < |s| ==> s[k] == '.')
    ensures Stem(s) == s[..k]
    decreases k
  {
    if k > 0 {
      assert s[..k][0] == s[0] && s[..k][1..] == s[1..][..k - 1];
      StemIs(s[1..], k - 1);
    }
  }

  /** A beginning that reaches past the first dot has the same stem. */
  lemma {:induction false} StemOfFront(s: string, t: string)
    requires t <= s && '.' in t
    ensures Stem(t) == Stem(s)
    decreases |t|
  {
    if t[0] != '.' {
      assert t == [t[0]] + t[1..];
      StemOfFront(s[1..], t[1..]);
    }
  }

  lemma NoDot(s: string)
    requires '.' !in s
    ensures Stem(s) == s
  {
    StemIs(s, |s|);
    assert s[..|s|] == s;
  }

  lemma AvoidedIsNotReserved(s: string)
    ensures !Reserved(AvoidReserved(s))
  {
    if Reserved(s) {
      var r, k := AvoidReserved(s), |Stem(s)|;
      assert r == Stem(s) + "_" + s[k..];
      assert r[..k + 1] == Stem(s) + "_";
      assert k < |s| ==> r[k + 1] == s[k];
      StemIs(r, k + 1);
      assert Stem(r)[k] == '_';
    }
  }

  lemma {:induction false} TrimIs(s: string, k: nat)
    requires 0 < k <= |s| && !DotOrSpace(s[k - 1]) && forall i :: k <= i < |s| ==> DotOrSpace(s[i])
    ensures TrimDots(s) == s[..k]
    decreases |s|
  {
    if k < |s| {
      TrimIs(s[..|s| - 1], k);
      assert s[..|s| - 1][..k] == s[..k];
    } else {
      assert s[..k] == s;
    }
  }

  lemma {:induction false} AtMostFour(s: string)
    ensures Bytes(s) <= 4 * |s|
  {
    if s != [] { AtMostFour(s[..|s| - 1]); }
  }

  /** What is cut to fit is still long. */
  lemma FittingIsLong(s: string, limit: nat)
    requires Bytes(s) > limit
    ensures Bytes(Fitting(s, limit)) + 4 > limit && 4 * |Fitting(s, limit)| + 4 > limit
  {
    var r := Fitting(s, limit);
    assert r != s;
    FittingIsLongest(s, limit, |r| + 1);
    assert s[..|r| + 1][..|r|] == r;
    AtMostFour(r);
  }

  lemma ExtensionEnds(a: string)
    requires EndsWell(a) && KeptExtension(a) != []
    ensures var e := KeptExtension(a); e[0] == '.' && EndsWell(e)
  {
    ExtensionIsSuffix(a);
  }

  /** A name cut in front of its extension: the stem is the old one, or far too long for a device. */
  lemma CutStem(a: string, f: string, e: string)
    requires f <= a && !Reserved(a) && |f| > 4 && e != [] && e[0] == '.'
    ensures !Reserved(f + e)
  {
    var r := f + e;
    if '.' in f {
      StemOfFront(r, f);
      StemOfFront(a, f);
    } else {
      assert r[..|f|] == f && r[|f|] == '.';
      StemIs(r, |f|);
    }
  }

  lemma FitShape(a: string) returns (f: string, e: string)
    requires EndsWell(a) && Bytes(a) > MAX_BYTES && KeptExtension(a) != []
    ensures FitLength(a) == f + e && f <= a && |f| > 4 && e != [] && e[0] == '.' && EndsWell(e)
  {
    e := KeptExtension(a);
    f := CutFor(a, Bytes(e));
    ExtensionEnds(a);
    LongStem(a, Bytes(e));
  }

  lemma WithExtension(a: string)
    requires EndsWell(a) && !Reserved(a) && Bytes(a) > MAX_BYTES && KeptExtension(a) != []
    ensures !Reserved(OrFile(TrimDots(FitLength(a))))
  {
    var f, e := FitShape(a);
    CutWithExtension(a, f, e);
  }

  lemma CutWithExtension(a: string, f: string, e: string)
    requires f <= a && !Reserved(a) && |f| > 4 && e != [] && e[0] == '.' && EndsWell(e)
    ensures !Reserved(OrFile(TrimDots(f + e)))
  {
    CutStem(a, f, e);
    EndsLike(f, e);
  }

  lemma LongStem(a: string, n: nat)
    requires Bytes(a) > MAX_BYTES && n < 16
    ensures |CutFor(a, n)| > 4 && CutFor(a, n) <= a
  {
    FittingIsLong(a, MAX_BYTES - n);
  }

  lemma EndsLike(f: string, e: string)
    requires EndsWell(e)
    ensures TrimDots(f + e) == f + e
  {
    TrimIs(f + e, |f + e|);
    assert (f + e)[..|f + e|] == f + e;
  }

  /** A device name and then nothing but dots and spaces. */
  ghost predicate Padded(s: string)
  {
    exists k: nat :: 3 <= k <= 4 && k <= |s| && Device(s[..k]) && forall i :: k <= i < |s| ==> DotOrSpace(s[i])
  }

  lemma PaddedTrims(s: string)
    ensures Padded(s) <==> Device(TrimDots(s))
  {
    if Padded(s) {
      var k: nat :| 3 <= k <= 4 && k <= |s| && Device(s[..k]) && forall i :: k <= i < |s| ==> DotOrSpace(s[i]);
      assert s[..k][k - 1] == s[k - 1];
      TrimIs(s, k);
    }
    if Device(TrimDots(s)) {
      var k := |TrimDots(s)|;
      assert s[..k] == TrimDots(s);
    }
  }

  lemma TrimmedDevice(a: string, f: string)
    requires !Reserved(a) && f <= a && TrimDots(f) != []
    ensures Reserved(TrimDots(f)) <==> Padded(f)
  {
    var t := TrimDots(f);
    PaddedTrims(f);
    if '.' in t {
      StemOfFront(a, t);
      DeviceHasNoDot(t);
    } else {
      NoDot(t);
    }
  }

  lemma DeviceHasNoDot(t: string)
    ensures Device(t) ==> '.' !in t
  {
  }

  lemma WithoutExtension(a: string)
    requires !Reserved(a) && Bytes(a) > MAX_BYTES && KeptExtension(a) == []
    ensures Reserved(OrFile(TrimDots(FitLength(a)))) <==> Padded(Fitting(a, MAX_BYTES))
  {
    var f := Fitting(a, MAX_BYTES);
    assert FitLength(a) == f by { assert f + [] == f; }
    if TrimDots(f) == [] {
      FileIsSafe();
      PaddedTrims(f);
    } else {
      TrimmedDevice(a, f);
    }
  }

  /** Cut too short: over 255 bytes, no extension kept, and a device name and padding left. */
  ghost predicate CutToADevice(w: string)
  {
    Bytes(w) > MAX_BYTES && KeptExtension(w) == [] && Padded(Fitting(w, MAX_BYTES))
  }

  /** A name that was moved away from a device is not cut back to one. */
  lemma AvoidedIsNotPadded(w: string)
    requires Reserved(w) && Bytes(AvoidReserved(w)) > MAX_BYTES
    ensures !Padded(Fitting(AvoidReserved(w), MAX_BYTES))
  {
    var a, k := AvoidReserved(w), |Stem(w)|;
    var f := Fitting(a, MAX_BYTES);
    LongStem(a, 0);
    assert 3 <= k <= 4 && a[k] == '_' && f[k] == '_' && f[..k] == Stem(w);
    forall n: nat | 3 <= n <= 4 && n <= |f| ensures !(Device(f[..n]) && forall i :: n <= i < |f| ==> DotOrSpace(f[i])) {
      NotPaddedAt(f, k, n);
    }
  }

  lemma NotPaddedAt(f: string, k: nat, n: nat)
    requires 3 <= k <= 4 && k < |f| && f[k] == '_' && 3 <= n <= 4 && n <= |f|
    ensures !(Device(f[..n]) && forall i :: n <= i < |f| ==> DotOrSpace(f[i]))
  {
    if n == 4 { assert f[..n][3] == f[3]; }
  }

  lemma FittedIsReservedExactlyWhen(a: string)
    requires EndsWell(a) && !Reserved(a)
    ensures Reserved(OrFile(TrimDots(FitLength(a)))) <==> CutToADevice(a)
  {
    if Bytes(a) <= MAX_BYTES {
      TrimIs(a, |a|);
      assert a[..|a|] == a;
    } else if KeptExtension(a) != [] {
      WithExtension(a);
    } else {
      WithoutExtension(a);
    }
  }

  /**
   The name is never a reserved device name, with or without an extension, except in one case: the
   washed name is not one, is over 255 bytes, no extension of it is kept, and what is left after cutting
   it to 255 bytes is a device name followed by nothing but dots and spaces.
   */
  lemma ReservedExactlyWhen(proposed: string)
    ensures var w := Washed(proposed); Reserved(SafeName(proposed)) <==> w != [] && !Reserved(w) && CutToADevice(w)
  {
    var w := Washed(proposed);
    WashedIsPlain(proposed);
    FileIsSafe();
    if w != [] {
      var a := AvoidReserved(w);
      AvoidIsPlain(w);
      AvoidedIsNotReserved(w);
      FittedIsReservedExactlyWhen(a);
      if Reserved(w) && Bytes(a) > MAX_BYTES { AvoidedIsNotPadded(w); }
    }
  }

  // ---------------------------------------------------------------- the part file

  /** The first 16 hexadecimal characters of the id's digest. */
  ghost predicate IsMarker(m: string)
  {
    |m| == 16 && forall i :: 0 <= i < 16 ==> ('0' <= m[i] <= '9') || ('a' <= m[i] <= 'f')
  }

  function Tail(marker: string): (r: string)
  {
    "." + marker + ".part"
  }

  /** `part_path`, in the destination's own directory. */
  function PartName(name: string, marker: string): (r: string)
  {
    var tail := Tail(marker);
    var limit := if Bytes(tail) <= MAX_BYTES then MAX_BYTES - Bytes(tail) else 0;
    var stem := Fitting(name, limit);
    if stem + tail != name then stem + tail
    else if stem == [] then tail
    else stem[..|stem| - 1] + tail
  }

  lemma TailFacts(marker: string)
    requires IsMarker(marker)
    ensures |Tail(marker)| == 22 == Bytes(Tail(marker)) && AllPlain(Tail(marker)) && Tail(marker)[1..17] == marker
  {
    var t := Tail(marker);
    forall i | 0 <= i < |t| ensures t[i] as int < 0x80 && Plain(t[i]) {
      if 1 <= i < 17 { assert t[i] == marker[i - 1]; }
    }
    AsciiBytes(t);
  }

  /** The part name is some beginning of the name, cut to leave room, and the suffix. */
  lemma PartNameShape(name: string, marker: string) returns (stem: string)
    requires IsMarker(marker)
    ensures PartName(name, marker) == stem + Tail(marker) && stem <= name && Bytes(stem) <= MAX_BYTES - 22
    ensures PartName(name, marker) != name
  {
    TailFacts(marker);
    stem := Fitting(name, MAX_BYTES - 22);
    if stem + Tail(marker) == name {
      CollisionHasStem(name, marker);
      BytesUp(stem, |stem| - 1);
      stem := stem[..|stem| - 1];
    }
  }

  /**
   For every destination name the part file's name is one plain component within 255 bytes, and is
   never the destination's own.
   */
  lemma PartNameIsApart(name: string, marker: string)
    requires AllPlain(name) && IsMarker(marker)
    ensures var r := PartName(name, marker); Bytes(r) <= MAX_BYTES && AllPlain(r) && r != name
  {
    var stem := PartNameShape(name, marker);
    TailFacts(marker);
    BytesPlus(stem, Tail(marker));
  }

  /** And it differs for different markers, whatever the destinations are. */
  lemma PartNamesDiffer(name: string, marker: string, name': string, other: string)
    requires IsMarker(marker) && IsMarker(other) && PartName(name, marker) == PartName(name', other)
    ensures marker == other
  {
    PartNameEnds(name, marker);
    PartNameEnds(name', other);
    TailFacts(marker);
    TailFacts(other);
  }

  lemma PartNameEnds(name: string, marker: string)
    requires IsMarker(marker)
    ensures var p := PartName(name, marker); |p| >= 22 && p[|p| - 22..] == Tail(marker)
  {
    TailFacts(marker);
    var stem := PartNameShape(name, marker);
    assert (stem + Tail(marker))[|stem|..] == Tail(marker);
  }

  /** A name that its own cut and the suffix give back has something to cut. */
  lemma CollisionHasStem(name: string, marker: string)
    requires IsMarker(marker) && Fitting(name, MAX_BYTES - 22) + Tail(marker) == name
    ensures Fitting(name, MAX_BYTES - 22) != []
  {
    TailFacts(marker);
    assert [] + Tail(marker) == Tail(marker);
  }

  // ---------------------------------------------------------------- the exception is real

  lemma {:induction false} KeepsPlain(s: string)
    requires AllPlain(s)
    ensures LastComponent(s) == s && Printable(s) == s
  {
    if s != [] { KeepsPlain(s[..|s| - 1]); }
  }

  lemma TrimsNothing(s: string)
    requires s != [] && !White(s[0]) && !White(s[|s| - 1]) && EndsWell(s) && AllPlain(s)
    ensures Washed(s) == s
  {
    KeepsPlain(s);
    AlreadyTrim(s);
  }

  lemma AlreadyTrim(s: string)
    requires s != [] && !White(s[0]) && !White(s[|s| - 1]) && EndsWell(s)
    ensures TrimStart(s) == s && TrimEnd(s) == s && TrimDots(s) == s
  {
  }

  lemma {:induction false} NoExtension(s: string)
    requires '.' !in s
    ensures KeptExtension(s) == []
  {
  }

  lemma AsciiCut(s: string, n: nat)
    requires n < |s| && forall i :: 0 <= i < |s| ==> s[i] as int < 0x80
    ensures Bytes(s) > n && Fitting(s, n) == s[..n]
  {
    AsciiBytes(s);
    AsciiBytes(s[..n]);
    AsciiBytes(s[..n + 1]);
    StopsHere(s, n, n);
  }

  /** A name in which nothing is washed off, that is no device, with no dot in it. */
  lemma DotlessWash(s: string)
    requires |s| > 4 && AllPlain(s) && '.' !in s && EndsWell(s) && !White(s[0]) && !White(s[|s| - 1])
    ensures Washed(s) == s && AvoidReserved(s) == s && KeptExtension(s) == []
  {
    TrimsNothing(s);
    NoDot(s);
    NoExtension(s);
  }

  /** A device name, spaces up to the 255th byte, and anything plain after that. */
  lemma PaddedDeviceGetsThrough(s: string)
    requires |s| > 255 && AllPlain(s) && '.' !in s && EndsWell(s) && !White(s[0]) && !White(s[|s| - 1])
    requires Device(s[..255][..3]) && forall i :: 3 <= i < 255 ==> s[..255][i] == ' '
    requires forall i :: 0 <= i < |s| ==> s[i] as int < 0x80
    ensures Reserved(SafeName(s))
  {
    DotlessWash(s);
    AsciiCut(s, MAX_BYTES);
    PaddedFront(s[..255]);
    ReservedExactlyWhen(s);
  }

  lemma PaddedFront(s: string)
    requires |s| >= 3 && Device(s[..3]) && forall i :: 3 <= i < |s| ==> s[i] == ' '
    ensures Padded(s)
  {
  }

  lemma ADeviceGetsThrough()
    ensures exists proposed :: Reserved(SafeName(proposed))
  {
    var s: string := ['C', 'O', 'N'] + seq(300, _ => ' ') + ['x'];
    assert s[..255][..3] == ['C', 'O', 'N'];
    PaddedDeviceGetsThrough(s);
  }
}
