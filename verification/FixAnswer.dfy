/** What a worker answers to a message (`EventLoop::dispatchToWorker`): a Reject for a message that is
    no order, an ExecutionReport for one that is. */
module FixAnswer {
  import opened Options
  import opened Words
  import opened Text
  import opened Stream
  import opened FixFrame
  import opened FixChecksum
  import opened FixFields
  import opened FixOrder
  import Risk = RiskSpec

  function RejectText(reason: string): string {
    Build("35=3" + [SOH] + ("58=" + reason + [SOH]))
  }

  function ReportText(r: Risk.Result): string {
    Build("35=8" + [SOH] + ("37=" + Decimal(r.orderId) + [SOH]
          + (if r.accepted then "39=0" + [SOH] else "39=8" + [SOH] + ("58=" + r.reason + [SOH]))))
  }

  /** The answer to the message `raw`, when it gets the order id `id` and meets the balances `b`. */
  function AnswerTo(raw: string, id: nat, b: Risk.Balances): string {
    match ParseOrder(raw, id)
    case Rejected(reason) => RejectText(reason)
    case Parsed(o) => ReportText(Risk.ResultOf(b, Risk.Validate(o)))
  }

  // ------------------------------------------------------------------ the fields of an answer

  function RejectFields(reason: string): seq<Field> { [Field(35, "3"), Field(58, reason)] }

  function ReportFields(r: Risk.Result): seq<Field> {
    [Field(35, "8"), Field(37, Decimal(r.orderId))]
    + (if r.accepted then [Field(39, "0")] else [Field(39, "8"), Field(58, r.reason)])
  }

  lemma AnswerTags()
    ensures Signed(35) + "=" == "35=" && Signed(37) + "=" == "37=" && Signed(39) + "=" == "39="
    ensures Signed(58) + "=" == "58="
  {
    assert Decimal(3) == "3" && Decimal(5) == "5";
  }

  lemma PrintTwo(f: Field, g: Field)
    ensures Print([f, g]) == PrintField(f) + PrintField(g)
  {
    assert [f, g][1..] == [g];
    PrintOne(g);
  }

  lemma RejectIsPrinted(reason: string)
    ensures RejectText(reason) == Build(Print(RejectFields(reason)))
  {
    AnswerTags();
    PrintTwo(Field(35, "3"), Field(58, reason));
    assert "35=" + "3" == "35=3";
  }

  lemma ReportIsPrinted(r: Risk.Result)
    ensures ReportText(r) == Build(Print(ReportFields(r)))
  {
    var two := [Field(35, "8"), Field(37, Decimal(r.orderId))];
    var last := if r.accepted then [Field(39, "0")] else [Field(39, "8"), Field(58, r.reason)];
    AnswerTags();
    PrintAppend(two, last);
    PrintTwo(Field(35, "8"), Field(37, Decimal(r.orderId)));
    assert "35=" + "8" == "35=8" && "39=" + "0" == "39=0" && "39=" + "8" == "39=8";
    if r.accepted { PrintOne(Field(39, "0")); } else { PrintTwo(Field(39, "8"), Field(58, r.reason)); }
    Associative("35=8" + [SOH], "37=" + Decimal(r.orderId) + [SOH], Print(last));
  }

  // ------------------------------------------------------------------ what the client reads

  predicate SameAt(f: Fields, g: Fields, k: int) { (k in f <==> k in g) && (k in f ==> f[k] == g[k]) }

  /** Apart from header and trailer, the fields of a built message are the listed ones. */
  lemma FieldRead(fs: seq<Field>, k: int)
    requires AllPrintable(fs) && k != 8 && k != 9 && k != 10
    ensures SameAt(SplitAll(Build(Print(fs))), LastWins(map[], fs), k)
  {
    FieldRoundTrip(fs);
    FramedAgree(fs, k);
  }

  /** A few fields with different tags. */
  lemma Listed(fs: seq<Field>, i: nat)
    requires i < |fs| && forall k :: i < k < |fs| ==> fs[k].tag != fs[i].tag
    ensures fs[i].tag in LastWins(map[], fs) && LastWins(map[], fs)[fs[i].tag] == fs[i].value
  {
    LastWinsAt(map[], fs, i);
  }

  lemma RejectRead(reason: string)
    requires SohFree(reason)
    ensures
      var f := SplitAll(RejectText(reason));
      VerifyChecksum(RejectText(reason)) && 35 in f && f[35] == "3" && 58 in f && f[58] == reason && 39 !in f
  {
    var fs := RejectFields(reason);
    RejectIsPrinted(reason);
    BuiltVerifies(Print(fs));
    assert AllPrintable(fs);
    FieldRead(fs, 35);
    FieldRead(fs, 58);
    FieldRead(fs, 39);
    Listed(fs, 0);
    Listed(fs, 1);
    LastWinsKeeps(map[], fs, 39);
  }

  lemma ReportMap(fs: seq<Field>)
    requires |fs| == 3 || |fs| == 4
    requires fs[0].tag == 35 && fs[1].tag == 37 && fs[2].tag == 39 && (|fs| == 4 ==> fs[3].tag == 58)
    ensures
      var f := LastWins(map[], fs);
      && 35 in f && f[35] == fs[0].value && 37 in f && f[37] == fs[1].value && 39 in f && f[39] == fs[2].value
      && (58 in f <==> |fs| == 4) && (58 in f ==> f[58] == fs[3].value)
  {
    Listed(fs, 0);
    Listed(fs, 1);
    Listed(fs, 2);
    if |fs| == 4 { Listed(fs, 3); } else { LastWinsKeeps(map[], fs, 58); }
  }

  lemma ReportPrintable(r: Risk.Result)
    requires SohFree(r.reason)
    ensures AllPrintable(ReportFields(r))
  {
    DigitsSohFree(Decimal(r.orderId));
  }

  lemma ReportRead(r: Risk.Result)
    requires SohFree(r.reason)
    ensures
      var f := SplitAll(ReportText(r));
      && VerifyChecksum(ReportText(r)) && 35 in f && f[35] == "8" && 37 in f && f[37] == Decimal(r.orderId)
      && 39 in f && f[39] == (if r.accepted then "0" else "8")
      && (58 in f <==> !r.accepted) && (58 in f ==> f[58] == r.reason)
  {
    ReportIsPrinted(r);
    BuiltVerifies(Print(ReportFields(r)));
    ReportPrintable(r);
    ReportMap(ReportFields(r));
    FieldRead(ReportFields(r), 35);
    FieldRead(ReportFields(r), 37);
    FieldRead(ReportFields(r), 39);
    FieldRead(ReportFields(r), 58);
  }

  lemma LiteralsPrint()
    ensures SohFree("bad_checksum") && SohFree("unsupported_msgtype") && SohFree("malformed_message") && SohFree("")
    ensures SohFree("zero_quantity") && SohFree("invalid_price") && SohFree("unknown_symbol")
    ensures SohFree("insufficient_balance")
  {}

  lemma ParserReasons(ok: bool, f: Fields, id: nat)
    requires Decide(ok, f, id).Rejected?
    ensures
      var reason := Decide(ok, f, id).reason;
      reason == "bad_checksum" || reason == "unsupported_msgtype" || reason == "malformed_message"
  {}

  lemma ResultReasons(b: Risk.Balances, o: Risk.Order)
    ensures
      var reason := Risk.ResultOf(b, Risk.Validate(o)).reason;
      || reason == "" || reason == "zero_quantity" || reason == "invalid_price" || reason == "unknown_symbol"
      || reason == "insufficient_balance"
  {}

  lemma ReasonsPrint(raw: string, id: nat, b: Risk.Balances)
    ensures ParseOrder(raw, id).Rejected? ==> SohFree(ParseOrder(raw, id).reason)
    ensures ParseOrder(raw, id).Parsed? ==> SohFree(Risk.ResultOf(b, Risk.Validate(ParseOrder(raw, id).o)).reason)
  {
    LiteralsPrint();
    var p := ParseOrder(raw, id);
    if p.Rejected? {
      ParserReasons(VerifyChecksum(raw), SplitAll(raw), id);
    } else {
      ResultReasons(b, p.o);
    }
  }

  /** What the client reads in the answer to any message, whatever it sent: a verified message that is
      a Reject with the parser's reason if the message was no order; otherwise a report with the id
      of the order, status 0 if it was accepted, and status 8 with the reason if it was not. */
  lemma AnswerSays(raw: string, id: nat, b: Risk.Balances)
    requires id < TWO_64
    ensures
      var answer, p := AnswerTo(raw, id, b), ParseOrder(raw, id);
      var f := SplitAll(answer);
      && VerifyChecksum(answer) && 35 in f
      && (f[35] == "3" <==> p.Rejected?) && (f[35] == "8" <==> p.Parsed?)
      && (p.Rejected? ==> 58 in f && f[58] == p.reason)
      && (p.Parsed? ==>
            var r := Risk.ResultOf(b, Risk.Validate(p.o));
            && 37 in f && Stoul(f[37]) == Some(p.o.id) && p.o.id == id
            && 39 in f && f[39] == (if r.accepted then "0" else "8")
            && (58 in f <==> !r.accepted) && (58 in f ==> f[58] == r.reason))
  {
    ReasonsPrint(raw, id, b);
    var p := ParseOrder(raw, id);
    if p.Rejected? {
      RejectRead(p.reason);
    } else {
      ReportRead(Risk.ResultOf(b, Risk.Validate(p.o)));
      StoulDecimal(id);
    }
  }

  /** Quantity and price are positive, the symbol is known, and for a BUY the account can pay quantity
      times price. */
  predicate Sound(b: Risk.Balances, o: Risk.Order) {
    && o.qty > 0 && o.price > 0.0 && (o.symbol == "BTC-USD" || o.symbol == "ETH-USD" || o.symbol == "SOL-USD")
    && (o.side == Risk.Sell || (o.account in b && b[o.account] >= o.qty as real * o.price))
  }

  /** Any message that is an order: the client reads status 0 exactly if the order is sound. */
  lemma StatusSays(raw: string, id: nat, b: Risk.Balances)
    requires ParseOrder(raw, id).Parsed? && id < TWO_64
    ensures
      var f := SplitAll(AnswerTo(raw, id, b));
      39 in f && (f[39] == "0" || f[39] == "8") && (f[39] == "0" <==> Sound(b, ParseOrder(raw, id).o))
  {
    AnswerSays(raw, id, b);
    Risk.AcceptedIff(b, ParseOrder(raw, id).o);
    assert "0"[0] != "8"[0];
  }

  /** From the client's order to the status it reads back. */
  lemma OrderAnswered(q: Request, raw: string, id: nat, b: Risk.Balances)
    requires Sendable(q) && raw == Wire(q) && id < TWO_64
    ensures
      var f := SplitAll(AnswerTo(raw, id, b));
      39 in f && (f[39] == "0" || f[39] == "8") && (f[39] == "0" <==> Sound(b, Meant(q, id)))
  {
    WireParsed(q, id);
    StatusSays(raw, id, b);
  }
}
