/** The Option type used across the model. */
module Wrappers {
  datatype Option<+T> = None | Some(value: T)
}

/**
 * Decimal text as the player produces it (std::to_string, fmt's `{}`,
 * `{:02d}` and printf's `%f`), with readers that take it back, and the
 * few string helpers the player relies on (join, split, trim, find).
 */
module Text {
  import opened Wrappers

  predicate IsDigit(c: char) { '0' <= c <= '9' }

  predicate AllDigits(s: string) { forall i :: 0 <= i < |s| ==> IsDigit(s[i]) }

  function DigitChar(d: nat): (c: char)
    requires d < 10
    ensures IsDigit(c) && c as int - '0' as int == d
  {
    ('0' as int + d) as char
  }

  function DigitValue(c: char): nat
    requires IsDigit(c)
  {
    c as int - '0' as int
  }

  /** Decimal digits of a natural number, without leading zeros. */
  function NatToString(n: nat): (s: string)
    ensures |s| >= 1 && AllDigits(s)
    ensures s[0] == '0' <==> n == 0
    ensures n == 0 ==> s == "0"
    decreases n
  {
    if n < 10 then [DigitChar(n)] else NatToString(n / 10) + [DigitChar(n % 10)]
  }

  /** The number a string of digits denotes (leading zeros allowed). */
  function DigitsValue(s: string): nat
    requires AllDigits(s)
    decreases |s|
  {
    if s == [] then 0 else DigitsValue(s[..|s| - 1]) * 10 + DigitValue(s[|s| - 1])
  }

  lemma {:induction false} NatToStringRoundTrip(n: nat)
    ensures DigitsValue(NatToString(n)) == n
    decreases n
  {
    if n >= 10 {
      var s := NatToString(n / 10);
      NatToStringRoundTrip(n / 10);
      var t := s + [DigitChar(n % 10)];
      assert NatToString(n) == t;
      assert t[..|t| - 1] == s;
    }
  }

  /** Leading zeros do not change the number a digit string denotes. */
  lemma {:induction false} LeadingZeroValue(s: string)
    ensures AllDigits(s) ==> AllDigits("0" + s) && DigitsValue("0" + s) == DigitsValue(s)
    decreases |s|
  {
    if !AllDigits(s) { return; }
    var z := "0" + s;
    assert AllDigits(z) by {
      forall i | 0 <= i < |z| ensures IsDigit(z[i]) {
        if i > 0 { assert z[i] == s[i - 1]; }
      }
    }
    if s != [] {
      var p := s[..|s| - 1];
      LeadingZeroValue(p);
      assert z[..|z| - 1] == "0" + p;
      assert z[|z| - 1] == s[|s| - 1];
    }
  }

  /** std::to_string and fmt's `{}` of an integer. */
  function IntToString(n: int): (s: string)
  {
    if n < 0 then "-" + NatToString(-n) else NatToString(n)
  }

  /** Reads an optionally negative decimal integer. */
  function ParseInt(s: string): Option<int>
  {
    if |s| > 1 && s[0] == '-' && AllDigits(s[1..]) then Some(-(DigitsValue(s[1..]) as int))
    else if |s| > 0 && AllDigits(s) then Some(DigitsValue(s) as int)
    else None
  }

  lemma IntToStringRoundTrip(n: int)
    ensures ParseInt(IntToString(n)) == Some(n)
  {
    if n < 0 {
      var d := NatToString(-n);
      NatToStringRoundTrip(-n);
      assert ("-" + d)[1..] == d;
    } else {
      NatToStringRoundTrip(n);
    }
  }

  /** Distinct integers have distinct decimal text. */
  lemma IntToStringInjective(a: int, b: int)
    requires IntToString(a) == IntToString(b)
    ensures a == b
  {
    IntToStringRoundTrip(a);
    IntToStringRoundTrip(b);
  }

  /** Left-pads with '0' to at least `width` characters. */
  function ZeroPad(s: string, width: nat): (r: string)
    ensures |r| == if |s| >= width then |s| else width
    ensures AllDigits(s) ==> AllDigits(r) && DigitsValue(r) == DigitsValue(s)
    decreases width - |s|
  {
    if |s| >= width then s
    else
      LeadingZeroValue(s);
      ZeroPad("0" + s, width)
  }

  /** fmt's `{:02d}`. */
  function Pad2(n: nat): (r: string)
    ensures AllDigits(r) && DigitsValue(r) == n
    ensures n < 100 ==> |r| == 2
  {
    NatToStringRoundTrip(n);
    ZeroPad(NatToString(n), 2)
  }

  function Abs(x: real): real { if x < 0.0 then -x else x }

  /** |x| in millionths, rounded to the nearest (halves upward). */
  function Millionths(x: real): (k: nat)
    ensures Abs(x) * 1000000.0 - 0.5 < k as real <= Abs(x) * 1000000.0 + 0.5
  {
    (Abs(x) * 1000000.0 + 0.5).Floor
  }

  /** printf's `%f` (and so std::to_string of a double): six decimals. */
  function FixedPoint(x: real): string
  {
    var k := Millionths(x);
    (if x < 0.0 then "-" else "") + NatToString(k / 1000000) + "." + ZeroPad(NatToString(k % 1000000), 6)
  }

  /** Reads `[-]digits.digits` back as a real. */
  function ParseFixedPoint(s: string): Option<real>
  {
    if |s| > 0 && s[0] == '-' then
      match ParseUnsignedFixed(s[1..])
      case Some(v) => Some(-v)
      case None => None
    else ParseUnsignedFixed(s)
  }

  function ParseUnsignedFixed(s: string): Option<real>
  {
    var parts := Split(s, '.');
    if |parts| == 2 && parts[0] != [] && AllDigits(parts[0]) && AllDigits(parts[1]) then
      Some(FixedValue(parts[0], parts[1]))
    else None
  }

  /** The value of `a.b` for digit strings a and b. */
  function FixedValue(a: string, b: string): real
    requires AllDigits(a) && AllDigits(b)
  {
    DigitsValue(a) as real + DigitsValue(b) as real / Pow10(|b|) as real
  }

  function Pow10(n: nat): (p: nat)
    ensures p >= 1
  {
    if n == 0 then 1 else 10 * Pow10(n - 1)
  }

  lemma {:induction false} NatToStringLength(n: nat, k: nat)
    requires k >= 1 && n < Pow10(k)
    ensures |NatToString(n)| <= k
    decreases k
  {
    if n >= 10 {
      assert Pow10(1) == 10;
      assert n / 10 < Pow10(k - 1);
      NatToStringLength(n / 10, k - 1);
    }
  }

  lemma UnsignedFixedValue(a: string, b: string)
    requires a != [] && AllDigits(a) && AllDigits(b)
    ensures ParseUnsignedFixed(a + "." + b) == Some(FixedValue(a, b))
  {
    DigitsExclude(a, '.');
    DigitsExclude(b, '.');
    var parts := [a, b];
    SplitJoin(parts, '.');
    assert Join(parts, '.') == a + "." + b;
    var ps := Split(a + "." + b, '.');
    assert ps == parts;
    assert ps[0] == a && ps[1] == b;
    assert |ps| == 2 && ps[0] != [] && AllDigits(ps[0]) && AllDigits(ps[1]);
  }

  /** A digit string holds no separator that is not a digit. */
  lemma DigitsExclude(a: string, c: char)
    requires AllDigits(a) && !IsDigit(c)
    ensures c !in a
  {
  }

  /** The text `%f` gives for x reads back within half a millionth of x. */
  lemma FixedPointRoundTrip(x: real)
    ensures ParseFixedPoint(FixedPoint(x)).Some?
    ensures Abs(ParseFixedPoint(FixedPoint(x)).value - x) <= 0.0000005
  {
    var k := Millionths(x);
    var q, r := k / 1000000, k % 1000000;
    var a := NatToString(q);
    var b := ZeroPad(NatToString(r), 6);
    assert Pow10(6) == 1000000;
    NatToStringLength(r, 6);
    assert |b| == 6;
    NatToStringRoundTrip(q);
    NatToStringRoundTrip(r);
    UnsignedFixedValue(a, b);
    var v := FixedValue(a, b);
    assert v == q as real + r as real / 1000000.0;
    assert v * 1000000.0 == k as real;
    var s := FixedPoint(x);
    if x < 0.0 {
      assert s[1..] == a + "." + b;
      assert ParseFixedPoint(s) == Some(-v);
    } else {
      assert s == a + "." + b;
      assert s[0] != '-' by { assert IsDigit(a[0]); }
      assert ParseFixedPoint(s) == Some(v);
    }
  }

  /** Joins the parts with a separator between each two. */
  function Join(parts: seq<string>, sep: char): string
  {
    if |parts| == 0 then ""
    else if |parts| == 1 then parts[0]
    else parts[0] + [sep] + Join(parts[1..], sep)
  }

  /** Splits at every separator; always at least one part. */
  function Split(s: string, sep: char): (parts: seq<string>)
    ensures |parts| >= 1
  {
    if s == [] then [""]
    else
      var rest := Split(s[1..], sep);
      if s[0] == sep then [""] + rest else [[s[0]] + rest[0]] + rest[1..]
  }

  lemma {:induction false} SplitWithoutSeparator(a: string, sep: char)
    requires sep !in a
    ensures Split(a, sep) == [a]
    decreases |a|
  {
    if a != [] {
      SplitWithoutSeparator(a[1..], sep);
      assert [a[0]] + a[1..] == a;
    }
  }

  lemma {:induction false} SplitAtSeparator(a: string, b: string, sep: char)
    requires sep !in a
    ensures Split(a + [sep] + b, sep) == [a] + Split(b, sep)
    decreases |a|
  {
    var s := a + [sep] + b;
    if a == [] {
      assert s[1..] == b;
    } else {
      assert s[1..] == a[1..] + [sep] + b;
      SplitAtSeparator(a[1..], b, sep);
      assert [a[0]] + a[1..] == a;
    }
  }

  /** Splitting a join gives the parts back when no part holds the separator. */
  lemma {:induction false} SplitJoin(parts: seq<string>, sep: char)
    requires |parts| >= 1
    requires forall i :: 0 <= i < |parts| ==> sep !in parts[i]
    ensures Split(Join(parts, sep), sep) == parts
    decreases |parts|
  {
    if |parts| == 1 {
      SplitWithoutSeparator(parts[0], sep);
    } else {
      SplitJoin(parts[1..], sep);
      SplitAtSeparator(parts[0], Join(parts[1..], sep), sep);
      assert [parts[0]] + parts[1..] == parts;
    }
  }

  /** Whether t occurs in s (std::string::find(t) != npos). */
  predicate Contains(s: string, t: string)
    decreases |s|
  {
    t <= s || (s != [] && Contains(s[1..], t))
  }

  lemma {:induction false} ContainsAt(s: string, t: string, i: nat)
    requires i + |t| <= |s| && s[i..i + |t|] == t
    ensures Contains(s, t)
    decreases i
  {
    if i > 0 {
      assert s[1..][i - 1..i - 1 + |t|] == s[i..i + |t|];
      ContainsAt(s[1..], t, i - 1);
    }
  }

  predicate IsSpace(c: char)
  {
    c == ' ' || c == '\t' || c == '\n' || c == '\r' || c == '\U{000B}' || c == '\U{000C}'
  }

  predicate AllSpace(s: string) { forall i :: 0 <= i < |s| ==> IsSpace(s[i]) }

  function TrimStart(s: string): (r: string)
    ensures |r| <= |s| && r == s[|s| - |r|..]
    ensures AllSpace(s[..|s| - |r|])
    ensures r == [] || !IsSpace(r[0])
  {
    if s != [] && IsSpace(s[0]) then
      var r := TrimStart(s[1..]);
      assert s[..|s| - |r|] == [s[0]] + s[1..][..|s| - 1 - |r|];
      r
    else s
  }

  function TrimEnd(s: string): (r: string)
    ensures |r| <= |s| && r == s[..|r|]
    ensures AllSpace(s[|r|..])
    ensures r == [] || !IsSpace(r[|r| - 1])
  {
    if s != [] && IsSpace(s[|s| - 1]) then
      var r := TrimEnd(s[..|s| - 1]);
      assert s[|r|..] == s[..|s| - 1][|r|..] + [s[|s| - 1]];
      r
    else s
  }

  lemma TrimSlices(s: string, a: string, r: string)
    requires |a| <= |s| && a == s[|s| - |a|..] && AllSpace(s[..|s| - |a|])
    requires |r| <= |a| && r == a[..|r|] && AllSpace(a[|r|..])
    ensures exists i :: 0 <= i <= |s| - |r| && r == s[i..i + |r|] && AllSpace(s[..i]) && AllSpace(s[i + |r|..])
  {
    var i := |s| - |a|;
    assert s[i + |r|..] == a[|r|..];
    assert r == s[i..i + |r|] && AllSpace(s[..i]) && AllSpace(s[i + |r|..]);
  }

  /** Drops white space at both ends; neither end of the result is white space. */
  function Trim(s: string): (r: string)
    ensures |r| <= |s|
    ensures r == [] || (!IsSpace(r[0]) && !IsSpace(r[|r| - 1]))
  {
    TrimEnd(TrimStart(s))
  }

  /** What Trim cuts off is white space, and what it keeps is a middle slice of the input. */
  lemma TrimIsSlice(s: string)
    ensures var r := Trim(s);
      exists i :: 0 <= i <= |s| - |r| && r == s[i..i + |r|] && AllSpace(s[..i]) && AllSpace(s[i + |r|..])
  {
    TrimSlices(s, TrimStart(s), Trim(s));
  }
}
