/** Decimal text of integers, as formatted-string expressions print it, and its reading back. */
module Decimal {

  predicate IsDigit(c: char) {
    '0' <= c <= '9'
  }

  predicate AllDigits(s: string) {
    forall c :: c in s ==> IsDigit(c)
  }

  function DigitChar(n: nat): char
    requires n < 10
  {
    ('0' as int + n) as char
  }

  function Digits(n: nat): string {
    if n < 10 then [DigitChar(n)] else Digits(n / 10) + [DigitChar(n % 10)]
  }

  function Value(s: string): nat
    requires AllDigits(s)
  {
    if s == [] then 0
    else
      assert s[|s| - 1] in s;
      10 * Value(s[..|s| - 1]) + (s[|s| - 1] as int - '0' as int)
  }

  /** `f"{n:0{width}d}"`: zero-padded to the width, the sign counting as one character. */
  function Format(n: int, width: nat): string {
    if n < 0 then "-" + Padded(Digits(-n), if width == 0 then 0 else width - 1) else Padded(Digits(n), width)
  }

  function Padded(s: string, width: nat): string
    decreases width - |s|
  {
    if |s| >= width then s else Padded("0" + s, width)
  }

  lemma {:induction false} DigitsRoundTrip(n: nat)
    ensures Digits(n) != [] && AllDigits(Digits(n)) && Value(Digits(n)) == n
  {
    if n >= 10 {
      DigitsRoundTrip(n / 10);
      assert Digits(n)[..|Digits(n)| - 1] == Digits(n / 10);
    } else {
      assert Digits(n)[..0] == "";
    }
  }

  lemma {:induction false} LeadingZero(s: string)
    requires AllDigits(s)
    ensures AllDigits("0" + s) && Value("0" + s) == Value(s)
  {
    var t := "0" + s;
    if s == [] {
      assert t[..0] == "";
    } else {
      LeadingZero(s[..|s| - 1]);
      assert t[..|t| - 1] == "0" + s[..|s| - 1];
    }
  }

  lemma {:induction false} PaddedValue(s: string, width: nat)
    requires AllDigits(s)
    ensures AllDigits(Padded(s, width)) && Value(Padded(s, width)) == Value(s) && |Padded(s, width)| >= |s|
    decreases width - |s|
  {
    if |s| < width {
      LeadingZero(s);
      PaddedValue("0" + s, width);
    }
  }

  /** Different integers are never formatted alike. */
  lemma {:induction false} FormatInjective(m: int, n: int, width: nat)
    requires Format(m, width) == Format(n, width)
    ensures m == n
  {
    FormatShape(m, width);
    FormatShape(n, width);
  }

  /** The text is digits that read back as the magnitude, after a minus sign for a negative number. */
  lemma {:induction false} FormatShape(n: int, width: nat)
    ensures Format(n, width) != []
    ensures n < 0 <==> Format(n, width)[0] == '-'
    ensures n >= 0 ==> AllDigits(Format(n, width)) && Value(Format(n, width)) == n
    ensures n < 0 ==> AllDigits(Format(n, width)[1..]) && Value(Format(n, width)[1..]) == -n
  {
    var w := if n >= 0 then width else if width == 0 then 0 else width - 1;
    var magnitude := if n < 0 then -n else n;
    DigitsRoundTrip(magnitude);
    PaddedValue(Digits(magnitude), w);
    var p := Padded(Digits(magnitude), w);
    assert p[0] in p;
    if n < 0 { assert Format(n, width)[1..] == p; }
  }

  /** A number is padded with zeros up to the width and no further. */
  lemma {:induction false} FormatWidth(n: nat, width: nat)
    ensures |Format(n, width)| >= width
    ensures |Format(n, width)| > width && |Format(n, width)| > 1 ==> Format(n, width)[0] != '0'
  {
    NoLeadingZero(n);
    PaddedLength(Digits(n), width);
  }

  lemma {:induction false} NoLeadingZero(n: nat)
    ensures Digits(n) != [] && (|Digits(n)| > 1 ==> Digits(n)[0] != '0') && (n > 0 ==> Digits(n)[0] != '0')
  {
    if n >= 10 { NoLeadingZero(n / 10); }
  }

  lemma {:induction false} PaddedLength(s: string, width: nat)
    ensures |Padded(s, width)| >= width
    ensures |Padded(s, width)| > width ==> Padded(s, width) == s
    decreases width - |s|
  {
    if |s| < width { PaddedLength("0" + s, width); }
  }
}
