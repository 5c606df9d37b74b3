/**
 What a received file's name keeps of the proposed one, said of the characters themselves: what is
 dropped, what is kept as it is, and what is put in.
 */
module Washing {
  import opened Names

  // ---------------------------------------------------------------- the last component

  /** Only what follows the last separator is kept, and all of that. */
  lemma {:induction false} LastComponentIs(s: string) returns (r: string, n: nat)
    ensures r == LastComponent(s) && n <= |s| && s[n..] == r && '/' !in r && '\\' !in r
    ensures n > 0 ==> s[n - 1] == '/' || s[n - 1] == '\\'
  {
    if s != [] && s[|s| - 1] != '/' && s[|s| - 1] != '\\' {
      var front, c := s[..|s| - 1], s[|s| - 1];
      r, n := LastComponentIs(front);
      OneMoreAtEnd(s, n);
      r := r + [c];
    } else {
      r, n := [], |s|;
    }
  }

  lemma {:induction false} LastOfJoined(front: string, rest: string)
    requires front != [] && (front[|front| - 1] == '/' || front[|front| - 1] == '\\')
    ensures LastComponent(front + rest) == LastComponent(rest)
    decreases |rest|
  {
    var s := front + rest;
    if rest == [] {
      assert s == front;
    } else {
      assert s[..|s| - 1] == front + rest[..|rest| - 1] && s[|s| - 1] == rest[|rest| - 1];
      LastOfJoined(front, rest[..|rest| - 1]);
    }
  }

  /** So whatever directories a name is proposed under, in either notation, it comes to the same. */
  lemma DirectoriesDoNotMatter(front: string, rest: string)
    requires front != [] && (front[|front| - 1] == '/' || front[|front| - 1] == '\\')
    ensures SafeName(front + rest) == SafeName(rest)
  {
    LastOfJoined(front, rest);
  }

  // ---------------------------------------------------------------- what is dropped

  /** Colons and control characters go, and nothing else does. */
  lemma PrintableOne(c: char)
    ensures var gone := c == ':' || c as int < 0x20 || 0x7F <= c as int < 0xA0;
      Printable([]) == [] && Printable([c]) == if gone then [] else [c]
  {
    assert [c][..0] == [];
  }

  /** Wherever they are. */
  lemma {:induction false} PrintablePlus(a: string, b: string)
    ensures Printable(a + b) == Printable(a) + Printable(b)
    decreases |b|
  {
    if b == [] {
      assert a + b == a;
    } else {
      var front, c := b[..|b| - 1], b[|b| - 1];
      PrintablePlus(a, front);
      PrintableLast(front, c);
      PrintableLast(a + front, c);
      assert b == front + [c] && a + b == a + front + [c];
      Joined(Printable(a), Printable(front), Printable([c]));
    }
  }

  lemma PrintableLast(front: string, c: char)
    ensures Printable(front + [c]) == Printable(front) + Printable([c])
  {
    PrintableOne(c);
    assert (front + [c])[..|front|] == front;
  }

  lemma Joined(a: string, b: string, c: string)
    ensures a + b + c == a + (b + c)
  {
  }

  /** The characters with the White_Space property in the Unicode Character Database. */
  const WHITE_SPACE: set<int> :=
    {0x09, 0x0A, 0x0B, 0x0C, 0x0D, 0x20, 0x85, 0xA0, 0x1680, 0x2000, 0x2001, 0x2002, 0x2003, 0x2004, 0x2005, 0x2006,
     0x2007, 0x2008, 0x2009, 0x200A, 0x2028, 0x2029, 0x202F, 0x205F, 0x3000}

  lemma WhiteIs(c: char)
    ensures White(c) <==> c as int in WHITE_SPACE
  {
  }

  /** From `i` to `j` is what is left once white space has gone from both ends, and then dots and spaces from the end. */
  ghost predicate Trimmed(p: string, i: nat, j: nat, k: nat)
  {
    && i <= j <= k <= |p| && AllWhite(p[..i]) && AllWhite(p[k..]) && (i < k ==> !White(p[i]) && !White(p[k - 1]))
    && (forall n :: j <= n < k ==> p[n] == '.' || p[n] == ' ') && (i < j ==> p[j - 1] != '.' && p[j - 1] != ' ')
  }

  /** What is washed is that, of the printable characters of the last component. */
  lemma WashedIs(proposed: string) returns (i: nat, j: nat, k: nat)
    ensures var p := Printable(LastComponent(proposed)); Trimmed(p, i, j, k) && Washed(proposed) == p[i..j]
  {
    i, j, k := TrimsAre(Printable(LastComponent(proposed)));
  }

  lemma TrimsAre(p: string) returns (i: nat, j: nat, k: nat)
    ensures Trimmed(p, i, j, k) && TrimDots(TrimEnd(TrimStart(p))) == p[i..j]
  {
    var a, b;
    a, i := TrimsStart(p);
    b := TrimsEnd(a);
    var w := TrimDots(b);
    j, k := i + |w|, i + |b|;
    SlicesAre(p, a, b, w, i, j, k);
  }

  lemma SlicesAre(p: string, a: string, b: string, w: string, i: nat, j: nat, k: nat)
    requires i <= |p| && a == p[i..] && b <= a && w <= b && j == i + |w| && k == i + |b|
    requires AllWhite(p[..i]) && AllWhite(a[|b|..])
    requires (a != [] ==> !White(a[0])) && (b != [] ==> !White(b[|b| - 1]))
    requires (forall n :: |w| <= n < |b| ==> b[n] == '.' || b[n] == ' ') && (w != [] ==> w[|w| - 1] != '.' && w[|w| - 1] != ' ')
    ensures Trimmed(p, i, j, k) && p[i..j] == w
  {
    assert p[k..] == a[|b|..];
    assert i < k ==> p[i] == a[0] && p[k - 1] == b[|b| - 1];
    forall n | j <= n < k ensures p[n] == '.' || p[n] == ' ' { assert p[n] == b[n - i]; }
  }

  // ---------------------------------------------------------------- devices

  const DEVICES: set<string> :=
    {"CON", "PRN", "AUX", "NUL", "COM1", "COM2", "COM3", "COM4", "COM5", "COM6", "COM7", "COM8",
     "COM9", "LPT1", "LPT2", "LPT3", "LPT4", "LPT5", "LPT6", "LPT7", "LPT8", "LPT9"}

  function InCapitals(s: string): (r: string)
  {
    seq(|s|, i requires 0 <= i < |s| => if 'a' <= s[i] <= 'z' then (s[i] as int - 32) as char else s[i])
  }

  lemma DevicesAre(s: string)
    ensures Device(s) <==> InCapitals(s) in DEVICES
  {
    var u := InCapitals(s);
    assert |u| == |s| && forall i :: 0 <= i < |s| ==> u[i] == Upper(s[i]);
    if |s| == 3 { assert u == [u[0], u[1], u[2]]; }
    if |s| == 4 {
      assert u == [u[0], u[1], u[2], u[3]];
      assert '1' <= u[3] <= '9' <==> '1' <= s[3] <= '9';
    }
  }

  /** A device's name, whatever its case, gets an underscore, in front of its extension; any other name is left alone. */
  lemma DeviceIsMarked(stem: string, rest: string)
    requires '.' !in stem && (rest != [] ==> rest[0] == '.')
    ensures AvoidReserved(stem + rest) == if InCapitals(stem) in DEVICES then stem + "_" + rest else stem + rest
  {
    var s := stem + rest;
    assert s[..|stem|] == stem && s[|stem|..] == rest;
    StemIs(s, |stem|);
    DevicesAre(stem);
  }

  // ---------------------------------------------------------------- the length

  lemma {:induction false} ExtensionIs(stem: string, e: string)
    requires e != [] && e[0] == '.' && '.' !in e[1..]
    ensures Extension(stem + e) == e
    decreases |e|
  {
    var s, n := stem + e, |e| - 1;
    assert '.' in s by { assert s[|stem|] == '.'; }
    assert s[|s| - 1] == e[n];
    if n > 0 {
      assert e[1..][n - 1] == e[n];
      assert s[..|s| - 1] == stem + e[..n] && e[..n][1..] == e[1..][..n - 1];
      ExtensionIs(stem, e[..n]);
      assert e == e[..n] + [e[n]];
    } else {
      assert e == ['.'];
    }
  }

  /** A name over 255 bytes is cut in front of an extension under 16 bytes. */
  lemma LongNameKeepsExtension(stem: string, e: string)
    requires e != [] && e[0] == '.' && '.' !in e[1..] && Bytes(stem + e) > 255 && Bytes(e) < 16
    ensures FitLength(stem + e) == Fitting(stem, 255 - Bytes(e)) + e
  {
    ExtensionIs(stem, e);
    CutInFront(stem + e, e);
    BytesPlus(stem, e);
    CutOfFront(stem, e, Bytes(e));
  }

  /** An extension of 16 bytes or more is cut like the rest. */
  lemma LongExtensionIsCut(stem: string, e: string)
    requires e != [] && e[0] == '.' && '.' !in e[1..] && Bytes(stem + e) > 255 && Bytes(e) >= 16
    ensures FitLength(stem + e) == Fitting(stem + e, 255)
  {
    ExtensionIs(stem, e);
    CutInFront(stem + e, []);
    assert CutFor(stem + e, 0) + [] == CutFor(stem + e, 0);
  }

  lemma CutInFront(s: string, kept: string)
    requires Bytes(s) > 255 && KeptExtension(s) == kept
    ensures Bytes(kept) < 16 && FitLength(s) == CutFor(s, Bytes(kept)) + kept
  {
  }

  lemma CutOfFront(a: string, b: string, n: nat)
    requires n < 16 && Bytes(a) + n > 255
    ensures CutFor(a + b, n) == Fitting(a, 255 - n)
  {
    FitsInside(a, b, 255 - n);
  }

  /** A cut that falls within the front is a cut of the front. */
  lemma {:induction false} FitsInside(a: string, b: string, limit: nat)
    requires Bytes(a) > limit
    ensures Fitting(a + b, limit) == Fitting(a, limit)
    decreases |b|
  {
    BytesPlus(a, b);
    if b == [] {
      assert a + b == a;
    } else {
      assert (a + b)[..|a + b| - 1] == a + b[..|b| - 1];
      FitsInside(a, b[..|b| - 1], limit);
    }
  }

  /** One without a dot is cut at 255 bytes. */
  lemma LongNameWithoutDot(s: string)
    requires '.' !in s && Bytes(s) > 255
    ensures FitLength(s) == Fitting(s, 255)
  {
    NoExtension(s);
    assert CutFor(s, 0) + [] == CutFor(s, 0);
  }

  // ---------------------------------------------------------------- no name at all

  /** When washing leaves nothing, or nothing but dots and spaces fit, the name is "file". */
  lemma FallsBackToFile(proposed: string)
    ensures Washed(proposed) == [] ==> SafeName(proposed) == "file"
    ensures var w := Washed(proposed);
      w != [] && !Reserved(w) && (forall i :: 0 <= i < |FitLength(w)| ==> FitLength(w)[i] == '.' || FitLength(w)[i] == ' ')
      ==> SafeName(proposed) == "file"
  {
  }

  // ---------------------------------------------------------------- a good name

  /** One component with nothing in it to wash, no device's, and not too long. */
  ghost predicate Good(name: string)
  {
    && name != [] && Bytes(name) <= 255
    && (forall i :: 0 <= i < |name| ==> name[i] != '/' && name[i] != '\\' && name[i] != ':')
    && (forall i :: 0 <= i < |name| ==> 0x20 <= name[i] as int && !(0x7F <= name[i] as int < 0xA0))
    && !White(name[0]) && !White(name[|name| - 1]) && name[|name| - 1] != '.' && !Reserved(name)
  }

  /** A good name is the name the file gets, whatever directories it was proposed under. */
  lemma GoodNameIsKept(front: string, name: string)
    requires Good(name) && (front != [] ==> front[|front| - 1] == '/' || front[|front| - 1] == '\\')
    ensures SafeName(front + name) == name
  {
    if front != [] { DirectoriesDoNotMatter(front, name); } else { assert front + name == name; }
    WashesNothing(name);
    FitsAsItIs(name);
  }

  lemma WashesNothing(name: string)
    requires Good(name)
    ensures Washed(name) == name && EndsWell(name)
  {
    TrimsNothing(name);
  }

  lemma FitsAsItIs(name: string)
    requires EndsWell(name) && !Reserved(name) && Bytes(name) <= 255
    ensures TrimDots(FitLength(AvoidReserved(name))) == name
  {
  }
}
