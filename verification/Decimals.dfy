/** Decimal numbers as the tools print and scan them. */
module Decimals {
  import opened Basics

  predicate IsDigit(c: char) { '0' <= c <= '9' }

  function Digit(n: nat): char
    requires n < 10
  {
    '0' + n as char
  }

  /** `%d` of a natural number. */
  function Natural(n: nat): (s: string)
    ensures s != "" && forall c | c in s :: IsDigit(c)
  {
    if n < 10 then [Digit(n)] else Natural(n / 10) + [Digit(n % 10)]
  }

  /** `%ld` of any number. */
  function Signed(n: int): string {
    if n < 0 then "-" + Natural(-n) else Natural(n)
  }

  function Zeros(k: nat): string { seq(k, _ => '0') }

  /** `%0<width>u` of a natural number. */
  function Padded(n: nat, width: nat): (s: string)
    ensures s != ""
  {
    var s := Natural(n);
    if |s| < width then Zeros(width - |s|) + s else s
  }

  /** What scanning a string of digits yields. */
  function Value(s: string): nat
    requires forall c | c in s :: IsDigit(c)
  {
    if s == "" then 0
    else
      var c := s[|s| - 1];
      assert IsDigit(c) by { assert c in s; }
      10 * Value(s[..|s| - 1]) + (c as nat - '0' as nat)
  }

  /** Printing and scanning are inverse. */
  lemma {:induction false} ValueOfNatural(n: nat)
    ensures Value(Natural(n)) == n
  {
    if n >= 10 {
      ValueOfNatural(n / 10);
      var s := Natural(n);
      assert s[..|s| - 1] == Natural(n / 10);
    }
  }

  lemma {:induction false} ValueOfZeros(k: nat, s: string)
    requires forall c | c in s :: IsDigit(c)
    ensures forall c | c in Zeros(k) + s :: IsDigit(c)
    ensures Value(Zeros(k) + s) == Value(s)
  {
    if s != "" {
      ValueOfZeros(k, s[..|s| - 1]);
      var t := Zeros(k) + s;
      assert t[..|t| - 1] == Zeros(k) + s[..|s| - 1];
    } else if k > 0 {
      ValueOfZeros(k - 1, "");
      var t := Zeros(k) + s;
      assert t[..|t| - 1] == Zeros(k - 1) + "";
    }
  }

  function Power(k: nat): nat { if k == 0 then 1 else 10 * Power(k - 1) }

  /** A number below 10^width needs at most `width` digits. */
  lemma {:induction false} NaturalLength(n: nat, width: nat)
    requires width > 0
    ensures |Natural(n)| <= width <==> n < Power(width)
  {
    if n >= 10 {
      if width > 1 {
        NaturalLength(n / 10, width - 1);
      } else {
        assert Power(0) == 1;
        assert Natural(n / 10) != "";
      }
    } else {
      PowerGrows(width);
    }
  }

  lemma {:induction false} PowerGrows(k: nat)
    requires k > 0
    ensures Power(k) >= 10
  {
    if k > 1 { PowerGrows(k - 1); }
  }

  /** A padded field has exactly its width, and scans to its number, exactly when the number fits. */
  lemma {:induction false} PaddedField(n: nat, width: nat)
    requires width > 0
    ensures forall c | c in Padded(n, width) :: IsDigit(c)
    ensures Value(Padded(n, width)) == n
    ensures |Padded(n, width)| == width <==> n < Power(width)
  {
    ValueOfNatural(n);
    NaturalLength(n, width);
    if |Natural(n)| < width {
      ValueOfZeros(width - |Natural(n)|, Natural(n));
    }
  }

  /** How many digits a text begins with. */
  function Digits(s: string): (n: nat)
    ensures n <= |s| && forall c | c in s[..n] :: IsDigit(c)
  {
    if s != "" && IsDigit(s[0]) then
      var n := 1 + Digits(s[1..]);
      assert s[..n] == [s[0]] + s[1..][..n - 1];
      n
    else 0
  }

  lemma {:induction false} DigitsStop(a: string, b: string)
    requires forall c | c in a :: IsDigit(c)
    requires b != "" && !IsDigit(b[0])
    ensures Digits(a + b) == |a|
  {
    if a != "" {
      assert a[0] in a;
      assert (a + b)[1..] == a[1..] + b;
      DigitsStop(a[1..], b);
    } else {
      assert a + b == b;
    }
  }

  lemma {:induction false} AllDigits(s: string)
    requires forall c | c in s :: IsDigit(c)
    ensures Digits(s) == |s|
  {
    if s != "" {
      assert s[0] in s;
      AllDigits(s[1..]);
    }
  }

  /** Two numbers with a point between them. */
  function ScanPoint(s: string): Option<(nat, nat)> {
    var n := Digits(s);
    if n == 0 || n == |s| || s[n] != '.' then None
    else
      var fraction := s[n + 1..];
      var k := Digits(fraction);
      if k == 0 || k < |fraction| then None
      else
        assert fraction[..k] == fraction;
        Some((Value(s[..n]), Value(fraction)))
  }

  lemma {:induction false} PointScanned(digits: string, fraction: string)
    requires digits != "" && fraction != "" && (forall c | c in digits :: IsDigit(c)) && (forall c | c in fraction :: IsDigit(c))
    ensures ScanPoint(digits + "." + fraction) == Some((Value(digits), Value(fraction)))
  {
    hide Value, Digits;
    var s := digits + "." + fraction;
    DigitsStop(digits, "." + fraction);
    assert s == digits + ("." + fraction);
    assert s[..|digits|] == digits && s[|digits| + 1..] == fraction;
    AllDigits(fraction);
  }
}
