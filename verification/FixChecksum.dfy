/** The FIX 4.2 checksum (Appendix B of the specification): the byte sum of everything before the
    trailing "10=" field, modulo 256, in exactly three digits; and the message builder. */
module FixChecksum {
  import opened Options
  import opened Words
  import opened Text
  import opened Stream
  import opened FixFrame

  function Byte(c: char): nat { c as int % 256 }

  function ByteSum(s: string): nat {
    if s == "" then 0 else ByteSum(s[..|s| - 1]) + Byte(s[|s| - 1])
  }

  /** A byte counts as itself, and texts add up. */
  lemma {:induction false} ByteSumIs(a: string, b: string, c: char)
    ensures c as int < 256 ==> ByteSum([c]) == c as int
    ensures ByteSum(a + b) == ByteSum(a) + ByteSum(b)
    decreases |b|
  {
    assert [c][..0] == "";
    if b == "" {
      assert a + b == a;
    } else {
      assert (a + b)[..|a + b| - 1] == a + b[..|b| - 1];
      ByteSumIs(a, b[..|b| - 1], c);
    }
  }

  /** "10=" stands at position `p`. */
  predicate TrailerAt(s: string, p: nat) { p + 3 <= |s| && s[p..p + 3] == "10=" }

  /** `raw.rfind("10=")`, looking from position `p` down. */
  function RFindFrom(s: string, p: int): (r: Option<nat>)
    requires p + 3 <= |s|
    ensures r.Some? ==> r.value <= p && TrailerAt(s, r.value) && forall q :: r.value < q <= p ==> !TrailerAt(s, q)
    ensures r.None? ==> forall q :: 0 <= q <= p ==> !TrailerAt(s, q)
    decreases p + 1
  {
    if p < 0 then None else if TrailerAt(s, p) then Some(p) else RFindFrom(s, p - 1)
  }

  function RFind(s: string): Option<nat> { RFindFrom(s, |s| - 3) }

  lemma RFindIs(s: string, p: nat)
    requires TrailerAt(s, p) && forall q :: p < q < |s| ==> !TrailerAt(s, q)
    ensures RFind(s) == Some(p)
  {
    var r := RFindFrom(s, |s| - 3);
  }

  predicate VerifyChecksum(raw: string) {
    var p := RFind(raw);
    p.Some? && p.value + 3 <= |raw| &&
    var e := Find(raw, SOH, p.value + 3);
    e < |raw| && Stoi(raw[p.value + 3..e]) == Some(ByteSum(raw[..p.value]) % 256)
  }

  /** Header and body: all that the checksum covers. */
  function Covered(body: string): string {
    "8=FIX.4.2" + [SOH] + ("9=" + Decimal(|body|) + [SOH] + body)
  }

  function Trailer(sum: nat): (s: string)
    ensures |s| == TRAILER_LENGTH
  { "10=" + Padded(sum % 256, 3) + [SOH] }

  function Build(body: string): string { Covered(body) + Trailer(ByteSum(Covered(body))) }

  // ------------------------------------------------------------------ the loops

  lemma Mod256(x: nat)
    ensures x % TWO_64 % 256 == x % 256
  {
    var q := x / TWO_64;
    assert x == TWO_64 * q + x % TWO_64;
    assert x == 256 * (0x100_0000_0000_0000 * q) + x % TWO_64;
  }

  /** The byte sum in an unsigned 64-bit accumulator that wraps around. */
  method SumBytes(s: string, n: nat) returns (sum: nat)
    requires n <= |s|
    ensures sum < TWO_64 && sum % 256 == ByteSum(s[..n]) % 256
  {
    sum := 0;
    for i := 0 to n
      invariant sum == ByteSum(s[..i]) % TWO_64
    {
      assert s[..i + 1][..i] == s[..i];
      sum := (sum + Byte(s[i])) % TWO_64;
    }
    Mod256(ByteSum(s[..n]));
  }

  method CheckMessage(raw: string) returns (ok: bool)
    ensures ok <==> VerifyChecksum(raw)
  {
    var p := RFind(raw);
    if p.None? { return false; }
    var sum := SumBytes(raw, p.value);
    var computed := sum % 256;
    var valEnd := Find(raw, SOH, p.value + 3);
    if valEnd == |raw| { return false; }
    var received := Stoi(raw[p.value + 3..valEnd]);
    if received.None? { return false; }
    ok := computed == received.value;
  }

  method BuildMessage(body: string) returns (message: string)
    ensures message == Build(body)
  {
    var withLen := "9=" + Decimal(|body|) + [SOH] + body;
    var covered := "8=FIX.4.2" + [SOH] + withLen;
    var sum := SumBytes(covered, |covered|);
    assert covered[..|covered|] == covered;
    message := covered + ("10=" + Padded(sum % 256, 3) + [SOH]);
  }

  // ------------------------------------------------------------------ what is accepted

  /** A checksum field with the three digits `d`. */
  function Field10(d: string): (s: string)
    requires |d| == 3
    ensures |s| == 7
  { ['1', '0', '=', d[0], d[1], d[2], SOH] }

  lemma NoLaterTrailer(head: string, d: string, q: nat)
    requires |d| == 3 && AllDigits(d) && q > |head|
    ensures !TrailerAt(head + Field10(d), q)
  {
    var raw := head + Field10(d);
    if q + 3 <= |raw| {
      assert raw[q..q + 3][2] == raw[q + 2] == Field10(d)[q + 2 - |head|];
      assert IsDigit(d[0]) && IsDigit(d[1]) && IsDigit(d[2]);
    }
  }

  lemma TrailerIsLast(head: string, d: string)
    requires |d| == 3 && AllDigits(d)
    ensures RFind(head + Field10(d)) == Some(|head|) && (head + Field10(d))[..|head|] == head
  {
    var raw := head + Field10(d);
    assert raw[|head|..|head| + 3] == Field10(d)[..3];
    forall q | |head| < q < |raw| ensures !TrailerAt(raw, q) { NoLaterTrailer(head, d, q); }
    RFindIs(raw, |head|);
  }

  /** A field of digits ends at its SOH. */
  lemma DigitField(head: string, tag: string, d: string, rest: string)
    requires AllDigits(d)
    ensures
      var m := head + (tag + d + [SOH] + rest);
      var k := |head| + |tag|;
      m[|head|..k] == tag && Find(m, SOH, k) == k + |d| && m[k..k + |d|] == d
  {
    var m := head + (tag + d + [SOH] + rest);
    var k := |head| + |tag|;
    assert m[|head|..k] == tag && m[k..k + |d|] == d && m[k + |d|] == SOH;
    forall j | k <= j < k + |d| ensures m[j] != SOH { assert m[j] == d[j - k]; }
    FindIs(m, SOH, k, k + |d|);
  }

  /** A message that ends in a checksum field is accepted exactly when the three digits are the
      byte sum of what stands before the field. */
  lemma AcceptedIff(head: string, v: nat)
    requires v < 1000
    ensures VerifyChecksum(head + ("10=" + Padded(v, 3) + [SOH])) <==> v == ByteSum(head) % 256
  {
    var d := Padded(v, 3);
    assert "10=" + d + [SOH] == Field10(d);
    TrailerIsLast(head, d);
    assert "10=" + d + [SOH] + "" == Field10(d);
    DigitField(head, "10=", d, "");
    assert Pow10(3) == 1000;
    ValuePadded(v, 3);
    StoiDigits(Padded(v, 3));
  }

  /** A checksum field at `p`, the last one of the text, with its SOH at `e` and the right value. */
  ghost predicate Checked(raw: string, p: nat, e: nat) {
    && p + 3 <= e < |raw| && raw[p..p + 3] == "10=" && raw[e] == SOH
    && (forall j :: p + 3 <= j < e ==> raw[j] != SOH)
    && (forall q :: p < q < |raw| ==> !TrailerAt(raw, q))
    && Stoi(raw[p + 3..e]) == Some(ByteSum(raw[..p]) % 256)
  }

  /** Every text: it is accepted if and only if it has a last "10=" that ends in a SOH and whose value
      reads as the byte sum of all before it modulo 256. */
  lemma AcceptedText(raw: string)
    ensures VerifyChecksum(raw) <==> exists p: nat, e: nat :: Checked(raw, p, e)
  {
    if VerifyChecksum(raw) {
      var p := RFind(raw).value;
      var e := Find(raw, SOH, p + 3);
      FindFirst(raw, SOH, p + 3);
      assert Checked(raw, p, e);
    }
    if p: nat, e: nat :| Checked(raw, p, e) {
      RFindIs(raw, p);
      FindIs(raw, SOH, p + 3, e);
    }
  }

  /** The same for a text given by its parts. */
  lemma AcceptedParts(head: string, v: string, rest: string)
    requires SohFree(v)
    requires
      var raw := head + ("10=" + v + [SOH] + rest);
      forall q :: |head| < q < |raw| ==> !TrailerAt(raw, q)
    ensures VerifyChecksum(head + ("10=" + v + [SOH] + rest)) <==> Stoi(v) == Some(ByteSum(head) % 256)
  {
    var raw := head + ("10=" + v + [SOH] + rest);
    var p := |head|;
    var e := p + 3 + |v|;
    assert raw[p..p + 3] == "10=" && raw[p + 3..e] == v && raw[e] == SOH && raw[..p] == head;
    forall j | p + 3 <= j < e ensures raw[j] != SOH { assert raw[j] == v[j - p - 3]; }
    RFindIs(raw, p);
    FindIs(raw, SOH, p + 3, e);
  }

  /** A text without "10=", or with a "10=" that no SOH follows, is rejected. */
  lemma UnsealedRejected(raw: string)
    requires (forall q: nat :: !TrailerAt(raw, q))
          || (exists p: nat :: TrailerAt(raw, p) && forall j :: p + 3 <= j < |raw| ==> raw[j] != SOH)
    ensures !VerifyChecksum(raw)
  {
    AcceptedText(raw);
    if p: nat, e: nat :| Checked(raw, p, e) { assert TrailerAt(raw, p); }
  }

  /** Every built message verifies, whatever bytes its body holds. */
  lemma BuiltVerifies(body: string)
    ensures VerifyChecksum(Build(body))
  {
    AcceptedIff(Covered(body), ByteSum(Covered(body)) % 256);
  }

  lemma {:induction false} ByteSumUpdate(s: string, i: nat, c: char)
    requires i < |s|
    ensures ByteSum(s[i := c]) == ByteSum(s) - Byte(s[i]) + Byte(c)
    decreases |s|
  {
    var n := |s| - 1;
    if i < n {
      assert s[i := c][..n] == s[..n][i := c];
      ByteSumUpdate(s[..n], i, c);
    } else {
      assert s[i := c][..n] == s[..n];
    }
  }

  /** Replace one byte before the checksum field of a built message: it is rejected exactly when
      the new byte differs from the old one. */
  lemma CorruptionDetected(body: string, i: nat, c: char)
    requires i < |Covered(body)|
    ensures VerifyChecksum(Build(body)[i := c]) <==> Byte(c) == Byte(Covered(body)[i])
  {
    var head := Covered(body);
    var bad := head[i := c];
    ByteSumUpdate(head, i, c);
    assert Build(body)[i := c] == bad + Trailer(ByteSum(head));
    AcceptedIff(bad, ByteSum(head) % 256);
    if Byte(c) != Byte(head[i]) { SumsDiffer(ByteSum(head), ByteSum(bad)); }
  }

  lemma SumsDiffer(x: nat, y: nat)
    requires x != y && -256 < x - y < 256
    ensures x % 256 != y % 256
  {}

  // ------------------------------------------------------------------ framing of built messages

  lemma FirstField(rest: string)
    ensures
      var m := "8=FIX.4.2" + [SOH] + rest;
      m[..2] == "8=" && Find(m, SOH, 0) == 9 && m[10..] == rest
  {
    var m := "8=FIX.4.2" + [SOH] + rest;
    assert m[..9] == "8=FIX.4.2";
    assert m[..2] == m[..9][..2];
    forall j | 0 <= j < 9 ensures m[j] != SOH { assert m[j] == m[..9][j]; }
    FindIs(m, SOH, 0, 9);
  }

  lemma Regroup(a: string, b: string, c: string, t: string)
    ensures a + (b + c) + t == a + (b + (c + t))
  {}

  lemma BuiltHeader(body: string)
    requires |body| < TWO_64
    ensures ReadHeader(Build(body)) == Some(Header(13 + |Decimal(|body|)|, |body|))
  {
    var d, t := Decimal(|body|), Trailer(ByteSum(Covered(body)));
    Regroup("8=FIX.4.2" + [SOH], "9=" + d + [SOH], body, t);
    FirstField("9=" + d + [SOH] + (body + t));
    DigitField("8=FIX.4.2" + [SOH], "9=", d, body + t);
    StoulDecimal(|body|);
  }

  lemma BuiltFrame(body: string)
    requires |body| < TWO_64
    ensures TryExtract(Build(body)) == Some(Build(body))
  {
    BuiltHeader(body);
    var m := Build(body);
    assert m[..|m|] == m;
  }

  function BuildAll(bodies: seq<string>): (m: seq<string>)
    ensures |m| == |bodies|
  { seq(|bodies|, i requires 0 <= i < |bodies| => Build(bodies[i])) }

  lemma BuiltFrame64(body: string)
    requires |Build(body)| < TWO_64
    ensures TryExtract64(Build(body)) == Some(Build(body))
  {
    BuiltFrame(body);
    ModelMatchesCode(Build(body));
  }

  /** Stream round trip: any list of bodies, built and sent in any pieces, is framed back into
      exactly these messages, in order, with nothing left over: by the model, and by the code's
      64-bit loops if each message fits in memory. */
  lemma StreamRoundTrip(bodies: seq<string>, chunks: seq<string>)
    requires forall i :: 0 <= i < |bodies| ==> |bodies[i]| < TWO_64
    requires Join(chunks) == Join(BuildAll(bodies))
    ensures Names(TryExtract) && AllEnd(TryExtract, "", chunks)
    ensures Receive(TryExtract, "", chunks) == Extracted(BuildAll(bodies), "")
    ensures Names(TryExtract64)
    ensures (forall i :: 0 <= i < |bodies| ==> |Build(bodies[i])| < TWO_64) ==>
              AllEnd(TryExtract64, "", chunks) && Receive(TryExtract64, "", chunks) == Extracted(BuildAll(bodies), "")
  {
    var messages := BuildAll(bodies);
    forall i | 0 <= i < |messages| ensures TryExtract(messages[i]) == Some(messages[i]) { BuiltFrame(bodies[i]); }
    MessagesReceived(messages, chunks);
    if forall i :: 0 <= i < |bodies| ==> |Build(bodies[i])| < TWO_64 {
      forall i | 0 <= i < |messages| ensures TryExtract64(messages[i]) == Some(messages[i]) { BuiltFrame64(bodies[i]); }
      MessagesReceived64(messages, chunks);
    }
  }
}
