/**
 * The string operations of Python that the integration relies on, written
 * over `string` (a sequence of Unicode code points): prefix and suffix
 * tests, `in`, `split`, `join`, `replace`, `strip`, whitespace `split()`,
 * `isdigit`, `int()`, `str()` of an integer, the decimal subset of
 * `float()`, and `sorted` on strings.
 */
module Text {

  datatype Option<T> = None | Some(value: T)

  predicate StartsWith(s: string, p: string) {
    |p| <= |s| && s[..|p|] == p
  }

  predicate EndsWith(s: string, p: string) {
    |p| <= |s| && s[|s| - |p|..] == p
  }

  /** Python's `t in s`: `t` occurs as a contiguous block of `s`. */
  predicate Contains(s: string, t: string)
    decreases |s|
  {
    StartsWith(s, t) || (|s| > 0 && Contains(s[1..], t))
  }

  lemma {:induction false} ContainsAt(s: string, t: string, i: nat)
    requires i + |t| <= |s| && s[i..i + |t|] == t
    ensures Contains(s, t)
    decreases i
  {
    if i > 0 {
      assert s[1..][i - 1..i - 1 + |t|] == s[i..i + |t|];
      ContainsAt(s[1..], t, i - 1);
    }
  }

  lemma {:induction false} ContainsWitness(s: string, t: string) returns (i: nat)
    requires Contains(s, t)
    ensures i + |t| <= |s| && s[i..i + |t|] == t
    decreases |s|
  {
    if StartsWith(s, t) {
      i := 0;
    } else {
      var j := ContainsWitness(s[1..], t);
      i := j + 1;
      assert s[i..i + |t|] == s[1..][j..j + |t|];
    }
  }

  /** For a one-character needle, `in` is plain sequence membership. */
  lemma {:induction false} ContainsChar(s: string, c: char)
    ensures Contains(s, [c]) <==> c in s
    decreases |s|
  {
    if |s| > 0 {
      ContainsChar(s[1..], c);
      assert s == [s[0]] + s[1..];
    }
  }

  // ---------------------------------------------------------------------
  // split / join / replace

  /**
   * Python's `s.split(sep)` for a non-empty separator: the separator is
   * found left to right, occurrences do not overlap, and an empty string
   * gives one empty piece.
   */
  function Split(s: string, sep: string): (r: seq<string>)
    requires |sep| > 0
    ensures |r| >= 1
    decreases |s|
  {
    if StartsWith(s, sep) then [""] + Split(s[|sep|..], sep)
    else if |s| == 0 then [""]
    else
      var t := Split(s[1..], sep);
      [[s[0]] + t[0]] + t[1..]
  }

  /** Python's `sep.join(parts)`. */
  function Join(parts: seq<string>, sep: string): (r: string)
    ensures |parts| == 1 ==> r == parts[0]
  {
    if |parts| == 0 then ""
    else if |parts| == 1 then parts[0]
    else parts[0] + sep + Join(parts[1..], sep)
  }

  lemma JoinEmptyHead(t: seq<string>, sep: string)
    requires |t| >= 1
    ensures Join([""] + t, sep) == sep + Join(t, sep)
  {
    var u := [""] + t;
    assert u[1..] == t;
    assert u[0] + sep == sep;
  }

  lemma JoinConsHead(c: char, t: seq<string>, sep: string)
    requires |t| >= 1
    ensures Join([[c] + t[0]] + t[1..], sep) == [c] + Join(t, sep)
  {
    var u := [[c] + t[0]] + t[1..];
    if |t| > 1 {
      assert u[1..] == t[1..];
    }
  }

  /** `sep.join(s.split(sep)) == s`: splitting loses nothing. */
  lemma {:induction false} JoinSplit(s: string, sep: string)
    requires |sep| > 0
    ensures Join(Split(s, sep), sep) == s
    decreases |s|
  {
    if StartsWith(s, sep) {
      var rest := s[|sep|..];
      JoinSplit(rest, sep);
      JoinEmptyHead(Split(rest, sep), sep);
      assert s == s[..|sep|] + rest;
    } else if |s| > 0 {
      JoinSplit(s[1..], sep);
      JoinConsHead(s[0], Split(s[1..], sep), sep);
      assert s == [s[0]] + s[1..];
    }
  }

  /** The first piece of a split is a prefix of the input. */
  lemma {:induction false} SplitHeadPrefix(s: string, sep: string)
    requires |sep| > 0
    ensures StartsWith(s, Split(s, sep)[0])
    decreases |s|
  {
    if !StartsWith(s, sep) && |s| > 0 {
      SplitHeadPrefix(s[1..], sep);
    }
  }

  /** No piece of a split contains the separator. */
  lemma {:induction false} SplitPiecesFree(s: string, sep: string)
    requires |sep| > 0
    ensures forall i :: 0 <= i < |Split(s, sep)| ==> !Contains(Split(s, sep)[i], sep)
    decreases |s|
  {
    var r := Split(s, sep);
    if StartsWith(s, sep) {
      SplitPiecesFree(s[|sep|..], sep);
      assert !Contains("", sep);
      forall i | 0 <= i < |r| ensures !Contains(r[i], sep) {
        if i > 0 { assert r[i] == Split(s[|sep|..], sep)[i - 1]; }
      }
    } else if |s| == 0 {
    } else {
      var t := Split(s[1..], sep);
      SplitPiecesFree(s[1..], sep);
      SplitHeadPrefix(s[1..], sep);
      var h := [s[0]] + t[0];
      assert h[1..] == t[0];
      assert !StartsWith(h, sep);
      forall i | 0 <= i < |r| ensures !Contains(r[i], sep) {
        if i > 0 { assert r[i] == t[i]; }
      }
    }
  }

  /** A string without the separator splits into itself. */
  lemma {:induction false} SplitAbsent(s: string, sep: string)
    requires |sep| > 0 && !Contains(s, sep)
    ensures Split(s, sep) == [s]
    decreases |s|
  {
    if |s| > 0 {
      SplitAbsent(s[1..], sep);
      assert s == [s[0]] + s[1..];
    }
  }

  /** Splitting on one character `c` peels off a `c`-free head. */
  lemma {:induction false} SplitCharCons(p: string, c: char, s: string)
    requires c !in p
    ensures Split(p + [c] + s, [c]) == [p] + Split(s, [c])
    decreases |p|
  {
    var w := p + [c] + s;
    if |p| == 0 {
      assert w == [c] + s;
      assert w[1..] == s;
    } else {
      assert w[1..] == p[1..] + [c] + s;
      SplitCharCons(p[1..], c, s);
      assert [p[0]] + p[1..] == p;
    }
  }

  /** A `c`-free head before a `c` is recovered from the whole: heads and tails match. */
  lemma SeparatorCancel(a: string, s: string, b: string, t: string, c: char)
    requires c !in a && c !in b && a + [c] + s == b + [c] + t
    ensures a == b && s == t
  {
    SplitCharCons(a, c, s);
    SplitCharCons(b, c, t);
    assert ([a] + Split(s, [c]))[0] == a;
    assert ([b] + Split(t, [c]))[0] == b;
    assert s == (a + [c] + s)[|a| + 1..];
    assert t == (b + [c] + t)[|b| + 1..];
  }

  /**
   * Python's `s.replace(pat, rep)` for a non-empty pattern: every
   * occurrence, found left to right without overlap, is rewritten.
   */
  function Replace(s: string, pat: string, rep: string): (r: string)
    requires |pat| > 0
    decreases |s|
  {
    if StartsWith(s, pat) then rep + Replace(s[|pat|..], pat, rep)
    else if |s| == 0 then ""
    else [s[0]] + Replace(s[1..], pat, rep)
  }

  /**
   * `replace` is `by.join(s.split(pat))`: together with `JoinSplit` and
   * `SplitPiecesFree` this says that the text between occurrences is kept
   * and each occurrence becomes `by`.
   */
  lemma {:induction false} ReplaceIsJoinOfSplit(s: string, pat: string, rep: string)
    requires |pat| > 0
    ensures Replace(s, pat, rep) == Join(Split(s, pat), rep)
    decreases |s|
  {
    if StartsWith(s, pat) {
      var rest := s[|pat|..];
      ReplaceIsJoinOfSplit(rest, pat, rep);
      JoinEmptyHead(Split(rest, pat), rep);
    } else if |s| > 0 {
      ReplaceIsJoinOfSplit(s[1..], pat, rep);
      JoinConsHead(s[0], Split(s[1..], pat), rep);
    }
  }

  /** Text without the pattern is left unchanged. */
  lemma ReplaceAbsent(s: string, pat: string, rep: string)
    requires |pat| > 0 && !Contains(s, pat)
    ensures Replace(s, pat, rep) == s
  {
    SplitAbsent(s, pat);
    ReplaceIsJoinOfSplit(s, pat, rep);
  }

  // ---------------------------------------------------------------------
  // whitespace

  /** The characters Python's `str.isspace` accepts. */
  predicate IsSpace(c: char) {
    c == ' ' || ('\t' <= c <= '\r') || ('\U{1c}' <= c <= '\U{1f}')
    || c == '\U{85}' || c == '\U{a0}' || c == '\U{1680}'
    || ('\U{2000}' <= c <= '\U{200a}') || c == '\U{2028}' || c == '\U{2029}'
    || c == '\U{202f}' || c == '\U{205f}' || c == '\U{3000}'
  }

  predicate AllSpace(s: string) {
    forall i :: 0 <= i < |s| ==> IsSpace(s[i])
  }

  /** Python's `s.lstrip()`. */
  function TrimLeft(s: string): (r: string)
    ensures |r| <= |s| && r == s[|s| - |r|..]
    ensures r == [] || !IsSpace(r[0])
    ensures AllSpace(s[..|s| - |r|])
    decreases |s|
  {
    if |s| > 0 && IsSpace(s[0]) then
      var r := TrimLeft(s[1..]);
      assert s[..|s| - |r|] == [s[0]] + s[1..][..|s| - 1 - |r|];
      r
    else s
  }

  /** Python's `s.rstrip()`. */
  function TrimRight(s: string): (r: string)
    ensures |r| <= |s| && r == s[..|r|]
    ensures r == [] || !IsSpace(r[|r| - 1])
    ensures AllSpace(s[|r|..])
    decreases |s|
  {
    if |s| > 0 && IsSpace(s[|s| - 1]) then
      var r := TrimRight(s[..|s| - 1]);
      assert s[|r|..] == s[..|s| - 1][|r|..] + [s[|s| - 1]];
      r
    else s
  }

  /** Python's `s.strip()`. */
  function Strip(s: string): (r: string)
    ensures r == [] || (!IsSpace(r[0]) && !IsSpace(r[|r| - 1]))
    ensures |r| <= |s|
  {
    TrimRight(TrimLeft(s))
  }

  lemma TrimLeftSplits(s: string)
    ensures s == s[..|s| - |TrimLeft(s)|] + TrimLeft(s)
  {
    var k := |s| - |TrimLeft(s)|;
    assert s == s[..k] + s[k..];
  }

  lemma TrimRightSplits(s: string)
    ensures s == TrimRight(s) + s[|TrimRight(s)|..]
  {
    var k := |TrimRight(s)|;
    assert s == s[..k] + s[k..];
  }

  /** Every string is its stripped core between two runs of whitespace. */
  lemma StripSplits(s: string) returns (a: string, b: string)
    ensures AllSpace(a) && AllSpace(b) && s == a + Strip(s) + b
  {
    var l := TrimLeft(s);
    var r := TrimRight(l);
    a := s[..|s| - |l|];
    b := l[|r|..];
    TrimLeftSplits(s);
    TrimRightSplits(l);
    ConcatAssoc(a, r, b);
  }

  /** `strip` removes exactly the surrounding whitespace. */
  lemma StripAround(a: string, w: string, b: string)
    requires AllSpace(a) && AllSpace(b)
    requires |w| > 0 && !IsSpace(w[0]) && !IsSpace(w[|w| - 1])
    ensures Strip(a + w + b) == w
  {
    TrimLeftSpaces(a, w + b);
    assert a + w + b == a + (w + b);
    TrimRightSpaces(w, b);
  }

  lemma {:induction false} TrimLeftSpaces(a: string, t: string)
    requires AllSpace(a) && (t == [] || !IsSpace(t[0]))
    ensures TrimLeft(a + t) == t
    decreases |a|
  {
    if |a| > 0 {
      assert (a + t)[1..] == a[1..] + t;
      TrimLeftSpaces(a[1..], t);
    } else {
      assert a + t == t;
    }
  }

  lemma {:induction false} TrimRightSpaces(t: string, b: string)
    requires AllSpace(b) && (t == [] || !IsSpace(t[|t| - 1]))
    ensures TrimRight(t + b) == t
    decreases |b|
  {
    if |b| > 0 {
      assert (t + b)[..|t + b| - 1] == t + b[..|b| - 1];
      TrimRightSpaces(t, b[..|b| - 1]);
    } else {
      assert t + b == t;
    }
  }

  /** The longest prefix of `s` without whitespace. */
  function Word(s: string): (w: string)
    ensures |w| <= |s| && w == s[..|w|]
    ensures forall i :: 0 <= i < |w| ==> !IsSpace(w[i])
    ensures |w| < |s| ==> IsSpace(s[|w|])
    decreases |s|
  {
    if |s| == 0 || IsSpace(s[0]) then "" else [s[0]] + Word(s[1..])
  }

  /** A non-empty run of non-whitespace characters. */
  predicate IsWord(w: string) {
    |w| > 0 && forall j :: 0 <= j < |w| ==> !IsSpace(w[j])
  }

  /** Python's `s.split()`: the maximal runs of non-whitespace, in order. */
  function SplitWs(s: string): (r: seq<string>)
    ensures forall i :: 0 <= i < |r| ==> IsWord(r[i])
    decreases |s|
  {
    var t := TrimLeft(s);
    if t == [] then []
    else
      var w := Word(t);
      assert IsWord(w);
      [w] + SplitWs(t[|w|..])
  }

  // ---------------------------------------------------------------------
  // digits and integers

  predicate IsDigit(c: char) { '0' <= c <= '9' }

  /** Python's `s.isdigit()`, restricted to the ASCII digits. */
  predicate IsDigits(s: string) {
    |s| > 0 && forall i :: 0 <= i < |s| ==> IsDigit(s[i])
  }

  function DigitsValue(s: string): (n: nat)
    requires forall i :: 0 <= i < |s| ==> IsDigit(s[i])
    decreases |s|
  {
    if |s| == 0 then 0
    else
      var d := s[|s| - 1];
      assert IsDigit(d);
      DigitsValue(s[..|s| - 1]) * 10 + (d as int - '0' as int)
  }

  /** Python's `int(s)` on an optional sign followed by ASCII digits. */
  function ParseInt(s: string): (r: Option<int>)
    ensures r.Some? ==> |s| > 0 && '.' !in s
  {
    if |s| > 0 && (s[0] == '-' || s[0] == '+') && IsDigits(s[1..]) then
      var v: int := DigitsValue(s[1..]);
      assert forall k :: 1 <= k < |s| ==> s[k] == s[1..][k - 1];
      Some(if s[0] == '-' then -v else v)
    else if IsDigits(s) then Some(DigitsValue(s))
    else None
  }

  function DigitChar(d: nat): (c: char)
    requires d < 10
    ensures IsDigit(c) && c as int - '0' as int == d
  {
    ('0' as int + d) as char
  }

  /** Python's `str(n)` for a natural number. */
  function NatToString(n: nat): (s: string)
    ensures IsDigits(s) && DigitsValue(s) == n
    ensures |s| > 1 ==> s[0] != '0'
  {
    if n < 10 then [DigitChar(n)]
    else
      var s := NatToString(n / 10) + [DigitChar(n % 10)];
      assert s[..|s| - 1] == NatToString(n / 10);
      s
  }

  /** Python's `str(n)` for an integer. */
  function IntToString(n: int): (s: string)
    ensures |s| > 0 && !Contains(s, ".")
    ensures n >= 0 <==> IsDigits(s)
  {
    var s := if n < 0 then "-" + NatToString(-n) else NatToString(n);
    ContainsChar(s, '.');
    assert '.' !in s by {
      if n < 0 { assert forall i :: 1 <= i < |s| ==> s[i] == NatToString(-n)[i - 1]; }
    }
    s
  }

  /** `int(str(n)) == n`. */
  lemma IntRoundTrip(n: int)
    ensures ParseInt(IntToString(n)) == Some(n)
  {
    var s := IntToString(n);
    if n < 0 {
      assert s[1..] == NatToString(-n);
    }
  }

  // ---------------------------------------------------------------------
  // the decimal subset of float()

  /** The position of the first exponent marker, or `|s|`. */
  function ExponentAt(s: string): (k: nat)
    ensures k <= |s|
    ensures forall i :: 0 <= i < k ==> s[i] != 'e' && s[i] != 'E'
    ensures k < |s| ==> s[k] == 'e' || s[k] == 'E'
    decreases |s|
  {
    if |s| == 0 then 0
    else if s[0] == 'e' || s[0] == 'E' then 0
    else 1 + ExponentAt(s[1..])
  }

  predicate AllDigits(s: string) {
    forall i :: 0 <= i < |s| ==> IsDigit(s[i])
  }

  /** A decimal value `(-1)^neg * mantissa * 10^scale`. */
  datatype Decimal = Decimal(neg: bool, mantissa: nat, scale: int)

  /** A mantissa: digits with at most one point and at least one digit. */
  function ParseMantissa(m: string): (r: Option<(nat, int)>)
  {
    var dot := Split(m, ".");
    if |dot| == 1 then
      if IsDigits(m) then Some((DigitsValue(m), 0)) else None
    else if |dot| == 2 && AllDigits(dot[0]) && AllDigits(dot[1]) && |dot[0]| + |dot[1]| > 0 then
      Some((DigitsValue(dot[0] + dot[1]), -|dot[1]|))
    else None
  }

  /**
   * The decimal literals Python's `float()` accepts: an optional sign, a
   * mantissa, and an optional `e`/`E` exponent that is an integer.
   */
  function ParseDecimal(s: string): (r: Option<Decimal>)
  {
    var neg := |s| > 0 && s[0] == '-';
    var body := if |s| > 0 && (s[0] == '-' || s[0] == '+') then s[1..] else s;
    var k := ExponentAt(body);
    var m := ParseMantissa(body[..k]);
    var e := if k == |body| then Some(0) else ParseInt(body[k + 1..]);
    if m.Some? && e.Some? then Some(Decimal(neg, m.value.0, m.value.1 + e.value))
    else None
  }

  function Pow10(e: nat): (p: nat)
    ensures p >= 1
  {
    if e == 0 then 1 else 10 * Pow10(e - 1)
  }

  /** Truncation toward zero, as Python's `int()` of a float does. */
  function Truncate(d: Decimal): int {
    var mag := if d.scale >= 0 then d.mantissa * Pow10(d.scale) else d.mantissa / Pow10(-d.scale);
    if d.neg then -mag else mag
  }

  /** Python's `int(float(s))` on decimal literals. */
  function TruncFloat(s: string): (r: Option<int>)
  {
    var d := ParseDecimal(s);
    if d.Some? then Some(Truncate(d.value)) else None
  }

  lemma MantissaOfDigits(d: string)
    requires IsDigits(d)
    ensures ExponentAt(d) == |d|
    ensures ParseMantissa(d) == Some((DigitsValue(d), 0))
  {
    ContainsChar(d, '.');
    SplitAbsent(d, ".");
  }

  /**
   * `int(float(str(n))) == n`, for the integers a double holds exactly
   * (magnitude at most 2^53); beyond that Python's float rounds, which this
   * model of decimals does not.
   */
  lemma TruncFloatOfInt(n: int)
    requires -0x20_0000_0000_0000 <= n <= 0x20_0000_0000_0000
    ensures TruncFloat(IntToString(n)) == Some(n)
  {
    var s := IntToString(n);
    var body := if n < 0 then s[1..] else s;
    assert body == NatToString(if n < 0 then -n else n);
    MantissaOfDigits(body);
    assert body[..|body|] == body;
    var d := Decimal(n < 0, if n < 0 then -n else n, 0);
    assert ParseDecimal(s) == Some(d);
    assert Truncate(d) == n;
  }

  // ---------------------------------------------------------------------
  // ordering of strings

  /** Python's `<` on strings: lexicographic by code point. */
  predicate LexLess(a: string, b: string)
    decreases |a|
  {
    |b| > 0 && (|a| == 0 || a[0] < b[0] || (a[0] == b[0] && LexLess(a[1..], b[1..])))
  }

  lemma {:induction false} LexIrreflexive(a: string)
    ensures !LexLess(a, a)
    decreases |a|
  {
    if |a| > 0 { LexIrreflexive(a[1..]); }
  }

  lemma {:induction false} LexTransitive(a: string, b: string, c: string)
    requires LexLess(a, b) && LexLess(b, c)
    ensures LexLess(a, c)
    decreases |a|
  {
    if |a| > 0 && a[0] == b[0] && b[0] == c[0] {
      LexTransitive(a[1..], b[1..], c[1..]);
    }
  }

  lemma {:induction false} LexTotal(a: string, b: string)
    requires a != b
    ensures LexLess(a, b) || LexLess(b, a)
    decreases |a|
  {
    if |a| > 0 && |b| > 0 && a[0] == b[0] {
      assert a == [a[0]] + a[1..];
      assert b == [b[0]] + b[1..];
      LexTotal(a[1..], b[1..]);
    }
  }

  predicate IsLeast(m: string, s: set<string>) {
    m in s && forall x :: x in s && x != m ==> LexLess(m, x)
  }

  lemma {:induction false} LeastExists(s: set<string>)
    requires s != {}
    ensures exists m :: IsLeast(m, s)
    decreases |s|
  {
    var x :| x in s;
    if s - {x} == {} {
      assert s == {x};
      assert IsLeast(x, s);
    } else {
      LeastExists(s - {x});
      var m :| IsLeast(m, s - {x});
      if LexLess(m, x) {
        assert IsLeast(m, s);
      } else {
        LexTotal(m, x);
        forall y | y in s && y != x ensures LexLess(x, y) {
          if y != m { LexTransitive(x, m, y); }
        }
        assert IsLeast(x, s);
      }
    }
  }

  lemma LeastUnique(m: string, n: string, s: set<string>)
    requires IsLeast(m, s) && IsLeast(n, s)
    ensures m == n
  {
    if m != n {
      assert LexLess(m, n) && LexLess(n, m);
      LexTransitive(m, n, m);
      LexIrreflexive(m);
    }
  }

  ghost function Least(s: set<string>): (m: string)
    requires s != {}
    ensures IsLeast(m, s)
  {
    LeastExists(s);
    var m :| IsLeast(m, s); m
  }

  predicate StrictlyAscending(r: seq<string>) {
    forall i, j :: 0 <= i < j < |r| ==> LexLess(r[i], r[j])
  }

  /** Python's `sorted(s)` for a set of strings. */
  ghost function Sorted(s: set<string>): (r: seq<string>)
    ensures |r| == |s| && (forall x :: x in r <==> x in s)
    ensures StrictlyAscending(r)
    decreases |s|
  {
    if s == {} then []
    else
      var m := Least(s);
      var t := Sorted(s - {m});
      var r := [m] + t;
      assert forall j :: 0 < j < |r| ==> r[j] == t[j - 1] && r[j] in s - {m};
      r
  }

  /** The ascending order of a set is the only one. */
  lemma {:induction false} SortedUnique(r: seq<string>, s: set<string>)
    requires StrictlyAscending(r) && (forall x :: x in r <==> x in s)
    ensures r == Sorted(s)
    decreases |r|
  {
    if |r| == 0 {
      assert s == {};
    } else {
      var m := r[0];
      HeadIsLeast(r, s);
      SortedCons(m, s);
      TailMembers(r, s);
      SortedUnique(r[1..], s - {m});
      assert r == [m] + r[1..];
    }
  }

  /** The least element of a set heads its ascending order. */
  lemma SortedCons(m: string, s: set<string>)
    requires IsLeast(m, s)
    ensures Sorted(s) == [m] + Sorted(s - {m})
  {
    LeastUnique(m, Least(s), s);
  }

  lemma HeadIsLeast(r: seq<string>, s: set<string>)
    requires |r| > 0 && StrictlyAscending(r) && (forall x :: x in r <==> x in s)
    ensures IsLeast(r[0], s)
  {
    forall x | x in s && x != r[0] ensures LexLess(r[0], x) {
      var j :| 0 <= j < |r| && r[j] == x;
    }
  }

  lemma TailMembers(r: seq<string>, s: set<string>)
    requires |r| > 0 && StrictlyAscending(r) && (forall x :: x in r <==> x in s)
    ensures StrictlyAscending(r[1..]) && forall x :: x in r[1..] <==> x in s - {r[0]}
  {
    var m := r[0];
    forall x ensures x in r[1..] <==> x in s - {m} {
      if x in s - {m} {
        var j :| 0 <= j < |r| && r[j] == x;
        assert j != 0;
        assert r[1..][j - 1] == x;
      }
      if x in r[1..] {
        var j :| 0 <= j < |r[1..]| && r[1..][j] == x;
        assert r[j + 1] == x;
        LexIrreflexive(m);
      }
    }
  }

  /** Picks the least element of a non-empty set: the head of its ascending order. */
  method TakeLeast(s: set<string>) returns (m: string)
    requires s != {}
    ensures m in s && Sorted(s) == [m] + Sorted(s - {m})
  {
    LeastExists(s);
    m :| IsLeast(m, s);
    SortedCons(m, s);
  }

  /** Appending the next element of `s` extends a prefix of it by one. */
  lemma SnocPrefix<T>(a: seq<T>, s: seq<T>, k: nat)
    requires k < |s|
    ensures (a + s[..k]) + [s[k]] == a + s[..k + 1]
  {
    assert s[..k + 1] == s[..k] + [s[k]];
  }

  lemma ConcatAssoc<T>(a: seq<T>, b: seq<T>, c: seq<T>)
    ensures (a + b) + c == a + (b + c)
  {
  }

  /** Computes `sorted(s)` by repeatedly taking the least element. */
  method SortStrings(s: set<string>) returns (r: seq<string>)
    ensures r == Sorted(s)
  {
    r := [];
    var rest := s;
    while rest != {}
      invariant rest <= s
      invariant r + Sorted(rest) == Sorted(s)
      decreases |rest|
    {
      var m := TakeLeast(rest);
      ConcatAssoc(r, [m], Sorted(rest - {m}));
      r := r + [m];
      rest := rest - {m};
    }
  }

  /** Subtracting the missing elements and adding the new ones turns a known set into the detected one. */
  lemma Rejoin<T>(known: set<T>, detected: set<T>)
    ensures (known - (known - detected)) + (detected - known) == detected
    ensures known - detected == {} ==> known - (known - detected) == known
    ensures known - detected == {} && detected - known == {} ==> known == detected
  {
  }
}
