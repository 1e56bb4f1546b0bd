/** What the number parsers read from any text: white space up to `i`, an optional sign up to `k`, the
    longest run of digits up to `e`, and then whatever follows. */
module TextReading {
  import opened Options
  import opened Words
  import opened Text

  /** Space, tab, line feed, vertical tab, form feed, carriage return. */
  predicate Blank(c: char) {
    c == ' ' || c == '\t' || c == '\n' || c as int == 11 || c as int == 12 || c == '\r'
  }

  predicate DigitsBetween(s: string, k: nat, e: nat)
    requires k <= e <= |s|
  { forall j :: k <= j < e ==> IsDigit(s[j]) }

  /** The longest run of digits from `k` on ends at `e`. */
  predicate Run(s: string, k: nat, e: nat) {
    k <= e <= |s| && DigitsBetween(s, k, e) && (e < |s| ==> !IsDigit(s[e]))
  }

  predicate SignBetween(s: string, i: nat, k: nat)
    requires i <= k <= |s|
  {
    || (k == i + 1 && (s[i] == '+' || s[i] == '-'))
    || (k == i && (i < |s| ==> s[i] != '+' && s[i] != '-'))
  }

  predicate Lead(s: string, i: nat, k: nat) {
    && i <= k <= |s| && (forall j :: 0 <= j < i ==> Blank(s[j])) && (i < |s| ==> !Blank(s[i]))
    && SignBetween(s, i, k)
  }

  /** The parts of a text. */
  predicate Reads(s: string, i: nat, k: nat, e: nat) { Lead(s, i, k) && Run(s, k, e) }

  predicate Minus(s: string, i: nat, k: nat)
    requires i <= k <= |s|
  { k == i + 1 && s[i] == '-' }

  // ------------------------------------------------------------------ the parsers find these parts

  lemma {:induction false} SkipSpaceIs(s: string, i: nat, k: nat)
    requires i <= k <= |s| && (forall j :: i <= j < k ==> IsSpace(s[j])) && (k < |s| ==> !IsSpace(s[k]))
    ensures SkipSpace(s, i) == k
    decreases k - i
  {
    if i < k { SkipSpaceIs(s, i + 1, k); }
  }

  lemma LeadRead(s: string, i: nat, k: nat)
    requires Lead(s, i, k)
    ensures SignEnd(s) == k && (Negative(s) <==> Minus(s, i, k))
  {
    SkipSpaceIs(s, 0, i);
  }

  lemma RunRead(s: string, k: nat, e: nat)
    requires Run(s, k, e)
    ensures DigitsEnd(s, k) == e && AllDigits(s[k..e])
  {
    forall j | 0 <= j < e - k ensures IsDigit(s[k..e][j]) { assert s[k..e][j] == s[k + j]; }
    DigitsEndIs(s, k, e);
  }

  lemma MagnitudeRead(s: string, i: nat, k: nat, e: nat)
    requires Reads(s, i, k, e)
    ensures AllDigits(s[k..e]) && Magnitude(s) == (if k == e then None else Some(Value(s[k..e])))
    ensures Negative(s) <==> Minus(s, i, k)
  {
    LeadRead(s, i, k);
    RunRead(s, k, e);
  }

  /** `std::stoul` on every text: the digits, negated modulo 2^64 after a minus sign; an exception if
      there are none or if they are too large. */
  lemma StoulReads(s: string, i: nat, k: nat, e: nat)
    requires Reads(s, i, k, e)
    ensures AllDigits(s[k..e])
    ensures
      var v := Value(s[k..e]);
      Stoul(s) == if k == e || v >= TWO_64 then None
                  else if Minus(s, i, k) then Some((TWO_64 - v) % TWO_64)
                  else Some(v)
  {
    MagnitudeRead(s, i, k, e);
  }

  /** `std::stoi` on every text: the signed number, or an exception if there is none or if it is not
      a 32-bit int. */
  lemma StoiReads(s: string, i: nat, k: nat, e: nat)
    requires Reads(s, i, k, e)
    ensures AllDigits(s[k..e])
    ensures
      var v := if Minus(s, i, k) then 0 - Value(s[k..e]) else Value(s[k..e]);
      Stoi(s) == if k == e || v < -TWO_31 || v >= TWO_31 then None else Some(v)
  {
    MagnitudeRead(s, i, k, e);
  }

  lemma {:induction false} SkippedAreSpaces(s: string, i: nat)
    requires i <= |s|
    ensures forall j :: i <= j < SkipSpace(s, i) ==> IsSpace(s[j])
    ensures SkipSpace(s, i) < |s| ==> !IsSpace(s[SkipSpace(s, i)])
    decreases |s| - i
  {
    if i < |s| && IsSpace(s[i]) { SkippedAreSpaces(s, i + 1); }
  }

  lemma {:induction false} RunEnds(s: string, k: nat)
    requires k <= |s|
    ensures Run(s, k, DigitsEnd(s, k))
    decreases |s| - k
  {
    if k < |s| && IsDigit(s[k]) { RunEnds(s, k + 1); }
  }

  /** Every text has these parts, so the statements above are about every text. */
  lemma Parts(s: string) returns (i: nat, k: nat, e: nat)
    ensures Reads(s, i, k, e)
  {
    i, k := SkipSpace(s, 0), SignEnd(s);
    e := DigitsEnd(s, k);
    SkippedAreSpaces(s, 0);
    RunEnds(s, k);
  }

  // ------------------------------------------------------------------ decimals with a point

  lemma {:induction false} ValueJoined(whole: string, frac: string)
    requires AllDigits(whole) && AllDigits(frac)
    ensures AllDigits(whole + frac) && Value(whole + frac) == Value(whole) * Pow10(|frac|) + Value(frac)
    decreases |frac|
  {
    if frac == "" {
      assert whole + frac == whole;
    } else {
      var n := |frac| - 1;
      ValueJoined(whole, frac[..n]);
      var all := whole + frac;
      assert all[..|all| - 1] == whole + frac[..n];
      Shift(Value(whole), Pow10(n), Value(frac[..n]));
    }
  }

  lemma Shift(w: nat, p: nat, f: nat)
    ensures 10 * (w * p + f) == w * (10 * p) + 10 * f
  {}

  /** All digits of a decimal as one number, over the power of ten of its fraction. */
  lemma FixedIs(negative: bool, whole: string, frac: string)
    requires AllDigits(whole) && AllDigits(frac)
    ensures AllDigits(whole + frac)
    ensures
      var v := Value(whole + frac) as real / Pow10(|frac|) as real;
      Fixed(negative, whole, frac) == if negative then -v else v
  {
    ValueJoined(whole, frac);
    Split(Value(whole), Value(frac), Pow10(|frac|));
  }

  lemma Split(w: nat, f: nat, p: nat)
    requires p > 0
    ensures (w * p + f) as real / p as real == w as real + f as real / p as real
  {
    var x, y := f as real / p as real, (w * p + f) as real / p as real;
    assert x * p as real == f as real && y * p as real == (w * p + f) as real;
    assert (w * p + f) as real == w as real * p as real + f as real;
    assert (y - w as real - x) * p as real == 0.0;
  }

  /** `std::stod` on every plain decimal with a point at `e` and the fraction up to `g`: any number of
      digits on either side, but not none on both. */
  lemma StodReads(s: string, i: nat, k: nat, e: nat, g: nat)
    requires Reads(s, i, k, e) && e < |s| && s[e] == '.' && Run(s, e + 1, g)
    ensures AllDigits(s[k..e] + s[e + 1..g])
    ensures
      var v := Value(s[k..e] + s[e + 1..g]) as real / Pow10(g - e - 1) as real;
      Stod(s) == if e == k && g == e + 1 then None else Some(if Minus(s, i, k) then -v else v)
  {
    LeadRead(s, i, k);
    RunRead(s, k, e);
    RunRead(s, e + 1, g);
    FixedIs(Minus(s, i, k), s[k..e], s[e + 1..g]);
  }

  /** And without a point. */
  lemma StodReadsWhole(s: string, i: nat, k: nat, e: nat)
    requires Reads(s, i, k, e) && (e < |s| ==> s[e] != '.')
    ensures AllDigits(s[k..e])
    ensures
      var v := Value(s[k..e]) as real;
      Stod(s) == if e == k then None else Some(if Minus(s, i, k) then -v else v)
  {
    LeadRead(s, i, k);
    RunRead(s, k, e);
    FixedWhole(Minus(s, i, k), s[k..e]);
    assert s[e..e] == "";
  }

  lemma FixedWhole(negative: bool, d: string)
    requires AllDigits(d)
    ensures Fixed(negative, d, "") == if negative then -(Value(d) as real) else Value(d) as real
  {
    assert Pow10(0) == 1;
  }
}
