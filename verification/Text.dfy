/** Text and numbers as the C++ library prints and parses them: `std::to_string`, `std::stoul`,
    `std::stoi`, `std::stod` on plain decimals, and `std::string::find`. A string is a sequence
    of characters; a byte is a character below 256. */
module Text {
  import opened Options
  import opened Words

  // ------------------------------------------------------------------ searching

  /** The least index from `i` on that holds `c`, or the length if there is none. */
  function Find(s: string, c: char, i: nat): (k: nat)
    requires i <= |s|
    ensures i <= k <= |s|
    ensures k < |s| ==> s[k] == c
    decreases |s| - i
  {
    if i == |s| || s[i] == c then i else Find(s, c, i + 1)
  }

  lemma {:induction false} FindFirst(s: string, c: char, i: nat)
    requires i <= |s|
    ensures forall j :: i <= j < Find(s, c, i) ==> s[j] != c
    decreases |s| - i
  {
    if i < |s| && s[i] != c { FindFirst(s, c, i + 1); }
  }

  lemma {:induction false} FindIs(s: string, c: char, i: nat, k: nat)
    requires i <= k < |s| && s[k] == c && forall j :: i <= j < k ==> s[j] != c
    ensures Find(s, c, i) == k
    decreases k - i
  {
    if i < k { FindIs(s, c, i + 1, k); }
  }

  // ------------------------------------------------------------------ decimal digits

  predicate IsDigit(c: char) { '0' <= c <= '9' }

  predicate AllDigits(s: string) { forall i :: 0 <= i < |s| ==> IsDigit(s[i]) }

  function Digit(d: nat): (c: char)
    requires d < 10
    ensures IsDigit(c) && c as int - '0' as int == d
  { ('0' as int + d) as char }

  function Value(s: string): nat
    requires AllDigits(s)
  {
    if s == "" then 0 else 10 * Value(s[..|s| - 1]) + (s[|s| - 1] as int - '0' as int)
  }

  /** `std::to_string` of an unsigned number. */
  function Decimal(n: nat): (s: string)
    ensures |s| > 0 && AllDigits(s)
  {
    if n < 10 then [Digit(n)] else Decimal(n / 10) + [Digit(n % 10)]
  }

  lemma {:induction false} ValueDecimal(n: nat)
    ensures Value(Decimal(n)) == n
  {
    var s := Decimal(n);
    if n >= 10 {
      ValueDecimal(n / 10);
      assert s[..|s| - 1] == Decimal(n / 10);
    } else {
      assert s[..0] == "";
    }
  }

  /** `n` in exactly `width` digits, with leading zeros. */
  function Padded(n: nat, width: nat): (s: string)
    ensures |s| == width && AllDigits(s)
  {
    if width == 0 then "" else Padded(n / 10, width - 1) + [Digit(n % 10)]
  }

  function Pow10(k: nat): (p: nat)
    ensures p > 0
  { if k == 0 then 1 else 10 * Pow10(k - 1) }

  lemma {:induction false} ValuePadded(n: nat, width: nat)
    requires n < Pow10(width)
    ensures Value(Padded(n, width)) == n
  {
    if width > 0 {
      ValuePadded(n / 10, width - 1);
      var s := Padded(n, width);
      assert s[..|s| - 1] == Padded(n / 10, width - 1);
    }
  }

  // ------------------------------------------------------------------ lenient number parsing

  predicate IsSpace(c: char) { c == ' ' || 9 <= c as int <= 13 }

  function SkipSpace(s: string, i: nat): (k: nat)
    requires i <= |s|
    ensures i <= k <= |s|
    decreases |s| - i
  { if i < |s| && IsSpace(s[i]) then SkipSpace(s, i + 1) else i }

  /** The end of the run of digits that starts at `i`. */
  function DigitsEnd(s: string, i: nat): (k: nat)
    requires i <= |s|
    ensures i <= k <= |s| && AllDigits(s[i..k])
    decreases |s| - i
  {
    if i < |s| && IsDigit(s[i]) then
      var k := DigitsEnd(s, i + 1);
      assert s[i..k] == [s[i]] + s[i + 1..k];
      k
    else i
  }

  /** White space, an optional sign, then the start of the digits. */
  function SignEnd(s: string): (k: nat)
    ensures k <= |s|
  {
    var i := SkipSpace(s, 0);
    if i < |s| && (s[i] == '-' || s[i] == '+') then i + 1 else i
  }

  predicate Negative(s: string) {
    var i := SkipSpace(s, 0);
    i < |s| && s[i] == '-'
  }

  /** The magnitude of the number a text starts with; None if it starts with none. */
  function Magnitude(s: string): Option<nat> {
    var k := SignEnd(s);
    var e := DigitsEnd(s, k);
    if e == k then None else Some(Value(s[k..e]))
  }

  /** `std::stoul` and `std::stoull` on a 64-bit platform; None is an exception. Text after the
      number is ignored, and a minus sign negates modulo 2^64. */
  function Stoul(s: string): Option<nat> {
    var v := Magnitude(s);
    if v.None? || v.value >= TWO_64 then None
    else if Negative(s) && v.value > 0 then Some(TWO_64 - v.value)
    else v
  }

  /** `std::stoi`; None is an exception. */
  function Stoi(s: string): Option<int> {
    var v := Magnitude(s);
    if v.None? then None
    else
      var i: int := if Negative(s) then 0 - v.value else v.value;
      if -TWO_31 <= i < TWO_31 then Some(i) else None
  }

  /** `std::to_string` of a signed number. */
  function Signed(i: int): (s: string)
    ensures |s| > 0
  { if i < 0 then "-" + Decimal(-i) else Decimal(i) }

  lemma {:induction false} DigitsEndIs(s: string, i: nat, k: nat)
    requires i <= k <= |s| && AllDigits(s[i..k]) && (k < |s| ==> !IsDigit(s[k]))
    ensures DigitsEnd(s, i) == k
    decreases k - i
  {
    if i < k {
      assert s[i] == s[i..k][0] && s[i + 1..k] == s[i..k][1..];
      DigitsEndIs(s, i + 1, k);
    }
  }

  lemma MagnitudeDigits(d: string)
    requires |d| > 0 && AllDigits(d)
    ensures Magnitude(d) == Some(Value(d)) && !Negative(d)
  {
    assert d[0..|d|] == d;
    DigitsEndIs(d, 0, |d|);
  }

  lemma StoulDecimal(n: nat)
    requires n < TWO_64
    ensures Stoul(Decimal(n)) == Some(n)
  {
    MagnitudeDigits(Decimal(n));
    ValueDecimal(n);
  }

  lemma StoiDigits(d: string)
    requires |d| > 0 && AllDigits(d) && Value(d) < TWO_31
    ensures Stoi(d) == Some(Value(d))
  {
    MagnitudeDigits(d);
  }

  lemma StoiSigned(i: int)
    requires -TWO_31 <= i < TWO_31
    ensures Stoi(Signed(i)) == Some(i)
  {
    if i >= 0 {
      ValueDecimal(i);
      StoiDigits(Decimal(i));
    } else {
      MagnitudeNegative(Decimal(-i));
      ValueDecimal(-i);
    }
  }

  lemma SignEndIs(s: string, sign: string, rest: string)
    requires s == sign + rest && (sign == "" || sign == "-") && |rest| > 0 && IsDigit(rest[0])
    ensures SignEnd(s) == |sign| && (Negative(s) <==> sign == "-")
  {
    assert s[|sign|] == rest[0];
    assert SkipSpace(s, 0) == 0;
  }

  lemma MagnitudeNegative(d: string)
    requires |d| > 0 && AllDigits(d)
    ensures Magnitude("-" + d) == Some(Value(d)) && Negative("-" + d)
  {
    var s := "-" + d;
    SignEndIs(s, "-", d);
    assert s[1..|s|] == d;
    DigitsEndIs(s, 1, |s|);
  }

  // ------------------------------------------------------------------ fixed-point prices

  /** `std::to_string` of a double that is `micros` millionths: six decimals. */
  function Price(micros: int): (s: string)
    ensures |s| > 0
  {
    var m := if micros < 0 then -micros else micros;
    (if micros < 0 then "-" else "") + (Decimal(m / 1_000_000) + ("." + Padded(m % 1_000_000, 6)))
  }

  /** The number written as `whole` digits, a point and `frac` digits. */
  function Fixed(negative: bool, whole: string, frac: string): real
    requires AllDigits(whole) && AllDigits(frac)
  {
    var v := Value(whole) as real + Value(frac) as real / Pow10(|frac|) as real;
    if negative then -v else v
  }

  /** `std::stod` on plain decimals: sign, digits, optional point and digits. */
  function Stod(s: string): Option<real> {
    var k := SignEnd(s);
    var e := DigitsEnd(s, k);
    var f := if e < |s| && s[e] == '.' then e + 1 else e;
    var g := if f > e then DigitsEnd(s, f) else e;
    if e == k && g == f then None else Some(Fixed(Negative(s), s[k..e], s[f..g]))
  }

  lemma StodParts(s: string, sign: string, whole: string, frac: string)
    requires s == sign + (whole + ("." + frac)) && (sign == "" || sign == "-")
    requires |whole| > 0 && AllDigits(whole) && AllDigits(frac)
    ensures Stod(s) == Some(Fixed(sign == "-", whole, frac))
  {
    var k, e := |sign|, |sign| + |whole|;
    SignEndIs(s, sign, whole + ("." + frac));
    assert s[k..e] == whole && s[e] == '.' && s[e + 1..|s|] == frac;
    DigitsEndIs(s, k, e);
    DigitsEndIs(s, e + 1, |s|);
  }

  lemma Pow10Six()
    ensures Pow10(6) == 1_000_000
  {
    assert Pow10(3) == 1000;
    assert Pow10(4) == 10 * Pow10(3);
    assert Pow10(5) == 10 * Pow10(4);
  }

  /** A price printed with six decimals reads back as the same number of millionths. */
  lemma StodPrice(micros: int)
    ensures Stod(Price(micros)) == Some(micros as real / 1_000_000.0)
  {
    var m := if micros < 0 then -micros else micros;
    var whole, frac := Decimal(m / 1_000_000), Padded(m % 1_000_000, 6);
    StodParts(Price(micros), if micros < 0 then "-" else "", whole, frac);
    FixedMicros(m, micros < 0);
  }

  lemma FixedMicros(m: nat, negative: bool)
    ensures Fixed(negative, Decimal(m / 1_000_000), Padded(m % 1_000_000, 6))
         == (if negative then 0 - m else m) as real / 1_000_000.0
  {
    Pow10Six();
    ValueDecimal(m / 1_000_000);
    ValuePadded(m % 1_000_000, 6);
    var q, r := m / 1_000_000, m % 1_000_000;
    assert m as real == 1_000_000.0 * q as real + r as real;
  }
}
