/** From a raw message to an order (`FixParser::parseOrder`), and the client's printer
    (`buildNewOrderSingle`) that it inverts. A price is a number of millionths. */
module FixOrder {
  import opened Options
  import opened Words
  import opened Text
  import opened Stream
  import opened FixFrame
  import opened FixChecksum
  import opened FixFields
  import Risk = RiskSpec

  datatype Parsed = Parsed(o: Risk.Order) | Rejected(reason: string)

  predicate HasAll(f: Fields) { 55 in f && 54 in f && 38 in f && 44 in f && 1 in f }

  /** The checks before an order id is taken, on the checksum verdict and the fields. */
  function Refusal(checksumOk: bool, f: Fields): Option<string> {
    if !checksumOk then Some("bad_checksum")
    else if 35 !in f || f[35] != "D" then Some("unsupported_msgtype")
    else if !HasAll(f) then Some("malformed_message")
    else None
  }

  /** The conversions; one that throws rejects the message. */
  function Convert(f: Fields, id: nat): Parsed
    requires HasAll(f)
  {
    var account, qty, price := Stoul(f[1]), Stoul(f[38]), Stod(f[44]);
    if account.None? || qty.None? || price.None? then Rejected("malformed_message")
    else Parsed(Risk.Order(id, account.value, f[55], if f[54] == "1" then Risk.Buy else Risk.Sell,
                           qty.value % TWO_32, price.value))
  }

  function Decide(checksumOk: bool, f: Fields, id: nat): Parsed {
    var refusal := Refusal(checksumOk, f);
    if refusal.Some? then Rejected(refusal.value) else Convert(f, id)
  }

  function ParseOrder(raw: string, id: nat): Parsed { Decide(VerifyChecksum(raw), SplitAll(raw), id) }

  /** The next order id after a message: one is taken for every message that passes the checks, also
      for one whose numbers then turn out to be malformed. */
  function NextId(raw: string, id: nat): nat {
    if Refusal(VerifyChecksum(raw), SplitAll(raw)).Some? then id else (id + 1) % TWO_64
  }

  class Parser {
    var nextOrderId: nat

    constructor ()
      ensures nextOrderId == 1
    {
      nextOrderId := 1;
    }

    method Parse(raw: string) returns (r: Parsed)
      requires nextOrderId < TWO_64
      modifies this
      ensures r == ParseOrder(raw, old(nextOrderId))
      ensures nextOrderId == NextId(raw, old(nextOrderId))
    {
      var ok, fields := ReadMessage(raw);
      r := ParseFields(ok, fields);
    }

    method ReadMessage(raw: string) returns (ok: bool, fields: Fields)
      ensures ok == VerifyChecksum(raw) && fields == SplitAll(raw)
    {
      ok := CheckMessage(raw);
      fields := SplitFields(raw);
    }

    method ParseFields(ok: bool, fields: Fields) returns (r: Parsed)
      requires nextOrderId < TWO_64
      modifies this
      ensures r == Decide(ok, fields, old(nextOrderId))
      ensures nextOrderId == if Refusal(ok, fields).Some? then old(nextOrderId) else (old(nextOrderId) + 1) % TWO_64
    {
      if !ok { return Rejected("bad_checksum"); }
      if 35 !in fields || fields[35] != "D" { return Rejected("unsupported_msgtype"); }
      if 55 !in fields || 54 !in fields || 38 !in fields || 44 !in fields || 1 !in fields {
        return Rejected("malformed_message");
      }
      var id := nextOrderId;
      nextOrderId := (nextOrderId + 1) % TWO_64;
      r := Convert(fields, id);
    }
  }

  // ------------------------------------------------------------------ the client's printer

  function NewOrderSingle(account: nat, symbol: string, side: char, qty: nat, micros: int, clOrdId: string): string {
    Build("35=D" + [SOH] + ("55=" + symbol + [SOH] + ("54=" + [side] + [SOH] + ("38=" + Decimal(qty) + [SOH] +
          ("44=" + Price(micros) + [SOH] + ("1=" + Decimal(account) + [SOH] + ("11=" + clOrdId + [SOH])))))))
  }

  function OrderFields(account: nat, symbol: string, side: char, qty: nat, micros: int, clOrdId: string): seq<Field> {
    [Field(35, "D"), Field(55, symbol), Field(54, [side]), Field(38, Decimal(qty)), Field(44, Price(micros)),
     Field(1, Decimal(account)), Field(11, clOrdId)]
  }

  lemma OrderTags()
    ensures Signed(35) + "=" == "35=" && Signed(55) + "=" == "55=" && Signed(54) + "=" == "54="
    ensures Signed(38) + "=" == "38=" && Signed(44) + "=" == "44=" && Signed(1) + "=" == "1="
    ensures Signed(11) + "=" == "11="
  {
    assert Decimal(3) == "3" && Decimal(4) == "4" && Decimal(5) == "5" && Decimal(1) == "1";
  }

  lemma PrintAt(fs: seq<Field>, i: nat, tag: string, rest: string)
    requires i < |fs| && Signed(fs[i].tag) + "=" == tag && Print(fs[i + 1..]) == rest
    ensures Print(fs[i..]) == tag + fs[i].value + [SOH] + rest
  {
    assert fs[i..][1..] == fs[i + 1..];
  }

  /** The tags of an order's fields, in the order in which the client prints them. */
  predicate OrderTagged(fs: seq<Field>) {
    && |fs| == 7 && fs[0].tag == 35 && fs[1].tag == 55 && fs[2].tag == 54 && fs[3].tag == 38
    && fs[4].tag == 44 && fs[5].tag == 1 && fs[6].tag == 11
  }

  lemma PrintLastFour(fs: seq<Field>)
    requires OrderTagged(fs)
    ensures Print(fs[3..]) == "38=" + fs[3].value + [SOH] + ("44=" + fs[4].value + [SOH] +
                              ("1=" + fs[5].value + [SOH] + ("11=" + fs[6].value + [SOH])))
  {
    OrderTags();
    PrintAt(fs, 6, "11=", "");
    assert "11=" + fs[6].value + [SOH] + "" == "11=" + fs[6].value + [SOH];
    PrintAt(fs, 5, "1=", Print(fs[6..]));
    PrintAt(fs, 4, "44=", Print(fs[5..]));
    PrintAt(fs, 3, "38=", Print(fs[4..]));
  }

  lemma PrintFirstThree(fs: seq<Field>)
    requires OrderTagged(fs) && fs[0].value == "D"
    ensures Print(fs) == "35=D" + [SOH] + ("55=" + fs[1].value + [SOH] + ("54=" + fs[2].value + [SOH] + Print(fs[3..])))
  {
    OrderTags();
    PrintAt(fs, 2, "54=", Print(fs[3..]));
    PrintAt(fs, 1, "55=", Print(fs[2..]));
    PrintAt(fs, 0, "35=", Print(fs[1..]));
    assert "35=" + "D" == "35=D";
    assert fs[0..] == fs;
  }

  lemma BodyIsPrinted(account: nat, symbol: string, side: char, qty: nat, micros: int, clOrdId: string)
    ensures NewOrderSingle(account, symbol, side, qty, micros, clOrdId)
         == Build(Print(OrderFields(account, symbol, side, qty, micros, clOrdId)))
  {
    var fs := OrderFields(account, symbol, side, qty, micros, clOrdId);
    PrintFirstThree(fs);
    PrintLastFour(fs);
  }

  // ------------------------------------------------------------------ round trip

  /** A field that no later field overrides keeps its value. */
  lemma {:induction false} LastWinsAt(fields: Fields, fs: seq<Field>, i: nat)
    requires i < |fs| && forall k :: i < k < |fs| ==> fs[k].tag != fs[i].tag
    ensures fs[i].tag in LastWins(fields, fs) && LastWins(fields, fs)[fs[i].tag] == fs[i].value
    decreases |fs|
  {
    var next := fields[fs[0].tag := fs[0].value];
    if i == 0 {
      LastWinsKeeps(next, fs[1..], fs[0].tag);
    } else {
      LastWinsAt(next, fs[1..], i - 1);
    }
  }

  lemma {:induction false} LastWinsKeeps(fields: Fields, fs: seq<Field>, tag: int)
    requires forall k :: 0 <= k < |fs| ==> fs[k].tag != tag
    ensures tag in LastWins(fields, fs) <==> tag in fields
    ensures tag in fields ==> LastWins(fields, fs)[tag] == fields[tag]
    decreases |fs|
  {
    if fs != [] { LastWinsKeeps(fields[fs[0].tag := fs[0].value], fs[1..], tag); }
  }

  /** The fields that `parseOrder` reads back from the client's message. */
  lemma OrderFieldsRead(account: nat, symbol: string, side: char, qty: nat, micros: int, clOrdId: string)
    requires SohFree(symbol) && SohFree(clOrdId) && side != SOH
    ensures
      var f := SplitAll(NewOrderSingle(account, symbol, side, qty, micros, clOrdId));
      && HasAll(f) && 35 in f && f[35] == "D" && f[55] == symbol && f[54] == [side]
      && f[38] == Decimal(qty) && f[44] == Price(micros) && f[1] == Decimal(account)
  {
    var fs := OrderFields(account, symbol, side, qty, micros, clOrdId);
    BodyIsPrinted(account, symbol, side, qty, micros, clOrdId);
    OrderFieldsPrintable(account, symbol, side, qty, micros, clOrdId);
    FieldRoundTrip(fs);
    FramedLookup(fs);
  }

  /** What the map of a framed list of order fields holds. */
  lemma FramedLookup(fs: seq<Field>)
    requires OrderTagged(fs)
    ensures
      var f := LastWins(map[], Framed(fs));
      && HasAll(f) && 35 in f && f[35] == fs[0].value && f[55] == fs[1].value && f[54] == fs[2].value
      && f[38] == fs[3].value && f[44] == fs[4].value && f[1] == fs[5].value
  {
    var all := Framed(fs);
    FramedAt(fs);
    LookupAt(all, 2);
    LookupAt(all, 3);
    LookupAt(all, 4);
    LookupAt(all, 5);
    LookupAt(all, 6);
    LookupAt(all, 7);
  }

  lemma LookupAt(all: seq<Field>, i: nat)
    requires |all| == 10 && 2 <= i < 8 && all[2].tag == 35 && all[3].tag == 55 && all[4].tag == 54
    requires all[5].tag == 38 && all[6].tag == 44 && all[7].tag == 1 && all[8].tag == 11 && all[9].tag == 10
    ensures all[i].tag in LastWins(map[], all) && LastWins(map[], all)[all[i].tag] == all[i].value
  {
    LastWinsAt(map[], all, i);
  }

  lemma FramedAt(fs: seq<Field>)
    requires |fs| == 7
    ensures |Framed(fs)| == 10 && Framed(fs)[9].tag == 10
    ensures Framed(fs)[2] == fs[0] && Framed(fs)[3] == fs[1] && Framed(fs)[4] == fs[2] && Framed(fs)[5] == fs[3]
    ensures Framed(fs)[6] == fs[4] && Framed(fs)[7] == fs[5] && Framed(fs)[8] == fs[6]
  {}

  lemma OrderFieldsPrintable(account: nat, symbol: string, side: char, qty: nat, micros: int, clOrdId: string)
    requires SohFree(symbol) && SohFree(clOrdId) && side != SOH
    ensures AllPrintable(OrderFields(account, symbol, side, qty, micros, clOrdId))
  {
    DigitsSohFree(Decimal(qty));
    DigitsSohFree(Decimal(account));
    PriceSohFree(micros);
  }

  lemma PriceSohFree(micros: int)
    ensures SohFree(Price(micros))
  {
    var m := if micros < 0 then -micros else micros;
    DigitsSohFree(Decimal(m / 1_000_000));
    DigitsSohFree(Padded(m % 1_000_000, 6));
  }

  /** Order round trip: parsing the client's message gives back the account, the symbol, the side
      (BUY exactly for '1'), the 32-bit quantity and the price, under the next order id. */
  lemma OrderRoundTrip(account: nat, symbol: string, side: char, qty: nat, micros: int, clOrdId: string, id: nat)
    requires SohFree(symbol) && SohFree(clOrdId) && side != SOH && account < TWO_64 && qty < TWO_32
    ensures ParseOrder(NewOrderSingle(account, symbol, side, qty, micros, clOrdId), id)
         == Parsed(Risk.Order(id, account, symbol, if side == '1' then Risk.Buy else Risk.Sell, qty,
                              micros as real / 1_000_000.0))
  {
    OrderVerifies(account, symbol, side, qty, micros, clOrdId);
    OrderFieldsRead(account, symbol, side, qty, micros, clOrdId);
    ParseVerified(NewOrderSingle(account, symbol, side, qty, micros, clOrdId), account, qty, micros, id);
  }

  lemma OrderVerifies(account: nat, symbol: string, side: char, qty: nat, micros: int, clOrdId: string)
    ensures VerifyChecksum(NewOrderSingle(account, symbol, side, qty, micros, clOrdId))
  {
    BodyIsPrinted(account, symbol, side, qty, micros, clOrdId);
    BuiltVerifies(Print(OrderFields(account, symbol, side, qty, micros, clOrdId)));
  }

  lemma ParseVerified(raw: string, account: nat, qty: nat, micros: int, id: nat)
    requires VerifyChecksum(raw)
    requires
      var f := SplitAll(raw);
      && HasAll(f) && 35 in f && f[35] == "D" && |f[54]| == 1
      && f[38] == Decimal(qty) && f[44] == Price(micros) && f[1] == Decimal(account)
    requires account < TWO_64 && qty < TWO_32
    ensures ParseOrder(raw, id)
         == Parsed(Risk.Order(id, account, SplitAll(raw)[55],
                              if SplitAll(raw)[54][0] == '1' then Risk.Buy else Risk.Sell,
                              qty, micros as real / 1_000_000.0))
  {
    NumbersRead(SplitAll(raw), account, qty, micros);
    DecideOrder(SplitAll(raw), account, qty, micros as real / 1_000_000.0, id);
  }

  lemma NumbersRead(f: Fields, account: nat, qty: nat, micros: int)
    requires HasAll(f) && f[38] == Decimal(qty) && f[44] == Price(micros) && f[1] == Decimal(account)
    requires account < TWO_64 && qty < TWO_32
    ensures Stoul(f[38]) == Some(qty) && Stoul(f[1]) == Some(account)
    ensures Stod(f[44]) == Some(micros as real / 1_000_000.0)
  {
    StoulDecimal(account);
    StoulDecimal(qty);
    StodPrice(micros);
  }

  lemma DecideOrder(f: Fields, account: nat, qty: nat, price: real, id: nat)
    requires HasAll(f) && 35 in f && f[35] == "D" && |f[54]| == 1
    requires Stoul(f[38]) == Some(qty) && Stod(f[44]) == Some(price) && Stoul(f[1]) == Some(account) && qty < TWO_32
    ensures Decide(true, f, id)
         == Parsed(Risk.Order(id, account, f[55], if f[54][0] == '1' then Risk.Buy else Risk.Sell, qty, price))
  {}

  // ------------------------------------------------------------------ every message

  /** The orders that the fields of a message ask for: the account and the quantity as `stoul` reads
      them, the quantity cut to 32 bits, BUY exactly for side "1". */
  ghost predicate AsksFor(f: Fields, id: nat, o: Risk.Order) {
    && 1 in f && 38 in f && 44 in f && 54 in f && 55 in f
    && Stoul(f[1]) == Some(o.account) && Stod(f[44]) == Some(o.price) && o.symbol == f[55] && o.id == id
    && (exists q :: Stoul(f[38]) == Some(q) && o.qty == q % TWO_32)
    && (o.side == Risk.Buy <==> f[54] == "1")
  }

  /** No message type, or another one than "D". */
  predicate OtherType(f: Fields) { 35 !in f || f[35] != "D" }

  predicate Incomplete(f: Fields) { 55 !in f || 54 !in f || 38 !in f || 44 !in f || 1 !in f }

  predicate AllNumbers(f: Fields)
    requires !Incomplete(f)
  { Stoul(f[1]).Some? && Stoul(f[38]).Some? && Stod(f[44]).Some? }

  lemma DecideCases(f: Fields, id: nat)
    ensures OtherType(f) ==> Decide(true, f, id) == Rejected("unsupported_msgtype")
    ensures !OtherType(f) && Incomplete(f) ==> Decide(true, f, id) == Rejected("malformed_message")
    ensures !OtherType(f) && !Incomplete(f) && !AllNumbers(f) ==> Decide(true, f, id) == Rejected("malformed_message")
    ensures !OtherType(f) && !Incomplete(f) && AllNumbers(f) ==>
              Decide(true, f, id).Parsed? && AsksFor(f, id, Decide(true, f, id).o)
    ensures Refusal(true, f).Some? <==> OtherType(f) || Incomplete(f)
  {}

  /** Agreeing on tag `k` before storing the same fields means agreeing on it afterwards. */
  lemma {:induction false} LastWinsAgree(a: Fields, b: Fields, fs: seq<Field>, k: int)
    requires (k in a <==> k in b) && (k in a ==> a[k] == b[k])
    ensures k in LastWins(a, fs) <==> k in LastWins(b, fs)
    ensures k in LastWins(a, fs) ==> LastWins(a, fs)[k] == LastWins(b, fs)[k]
    decreases |fs|
  {
    if fs != [] { LastWinsAgree(a[fs[0].tag := fs[0].value], b[fs[0].tag := fs[0].value], fs[1..], k); }
  }

  lemma {:induction false} LastWinsAppend(a: Fields, fs: seq<Field>, gs: seq<Field>)
    ensures LastWins(a, fs + gs) == LastWins(LastWins(a, fs), gs)
    decreases |fs|
  {
    if fs == [] {
      assert fs + gs == gs;
    } else {
      assert (fs + gs)[1..] == fs[1..] + gs;
      LastWinsAppend(a[fs[0].tag := fs[0].value], fs[1..], gs);
    }
  }

  /** Header and trailer do not touch the other tags. */
  lemma FramedAgree(fs: seq<Field>, k: int)
    requires k != 8 && k != 9 && k != 10
    ensures k in LastWins(map[], Framed(fs)) <==> k in LastWins(map[], fs)
    ensures k in LastWins(map[], fs) ==> LastWins(map[], Framed(fs))[k] == LastWins(map[], fs)[k]
  {
    var head := [Framed(fs)[0], Framed(fs)[1]];
    var last := [Framed(fs)[|fs| + 2]];
    assert Framed(fs) == head + fs + last;
    LastWinsAppend(map[], head + fs, last);
    LastWinsAppend(map[], head, fs);
    LastWinsKeeps(map[], head, k);
    LastWinsAgree(LastWins(map[], head), map[], fs, k);
    LastWinsKeeps(LastWins(map[], head + fs), last, k);
  }

  lemma SameDecision(f: Fields, g: Fields, id: nat)
    requires forall k :: k == 35 || k == 55 || k == 54 || k == 38 || k == 44 || k == 1 ==>
               (k in f <==> k in g) && (k in f ==> f[k] == g[k])
    ensures Decide(true, f, id) == Decide(true, g, id) && Refusal(true, f) == Refusal(true, g)
  {
    assert 35 in f <==> 35 in g;
  }

  lemma DecisionOnFields(fs: seq<Field>, id: nat)
    requires AllPrintable(fs)
    ensures ParseOrder(Build(Print(fs)), id) == Decide(true, LastWins(map[], fs), id)
    ensures NextId(Build(Print(fs)), id) == if Refusal(true, LastWins(map[], fs)).Some? then id else (id + 1) % TWO_64
  {
    BuiltVerifies(Print(fs));
    FieldRoundTrip(fs);
    forall k | k == 35 || k == 55 || k == 54 || k == 38 || k == 44 || k == 1
      ensures k in LastWins(map[], Framed(fs)) <==> k in LastWins(map[], fs)
      ensures k in LastWins(map[], Framed(fs)) ==> LastWins(map[], Framed(fs))[k] == LastWins(map[], fs)[k]
    {
      FramedAgree(fs, k);
    }
    SameDecision(LastWins(map[], Framed(fs)), LastWins(map[], fs), id);
  }

  /** Every message built from any list of fields, by what the last field of each tag says: another
      message type, a missing field or an unreadable number rejects it for its own reason, and only
      otherwise it becomes an order. An order id is taken exactly if type and fields are right. */
  lemma ParseOfFields(fs: seq<Field>, id: nat)
    requires AllPrintable(fs)
    ensures
      var f, r := LastWins(map[], fs), ParseOrder(Build(Print(fs)), id);
      && (OtherType(f) ==> r == Rejected("unsupported_msgtype"))
      && (!OtherType(f) && Incomplete(f) ==> r == Rejected("malformed_message"))
      && (!OtherType(f) && !Incomplete(f) && !AllNumbers(f) ==> r == Rejected("malformed_message"))
      && (!OtherType(f) && !Incomplete(f) && AllNumbers(f) ==> r.Parsed? && AsksFor(f, id, r.o))
    ensures NextId(Build(Print(fs)), id)
         == if OtherType(LastWins(map[], fs)) || Incomplete(LastWins(map[], fs)) then id else (id + 1) % TWO_64
  {
    DecisionOnFields(fs, id);
    DecideCases(LastWins(map[], fs), id);
  }

  /** Any text: it is rejected for its checksum exactly when the checksum does not verify, and then
      takes no id. */
  lemma BadChecksumIff(raw: string, id: nat)
    ensures ParseOrder(raw, id) == Rejected("bad_checksum") <==> !VerifyChecksum(raw)
    ensures !VerifyChecksum(raw) ==> NextId(raw, id) == id
  {
    assert |"bad_checksum"| == 12 && |"unsupported_msgtype"| == 19 && |"malformed_message"| == 17;
  }

  /** Change one byte before the checksum field of the client's message to another byte: it is
      rejected for its checksum. */
  lemma CorruptOrderRejected(account: nat, symbol: string, side: char, qty: nat, micros: int, clOrdId: string,
                             id: nat, i: nat, c: char)
    requires
      var raw := NewOrderSingle(account, symbol, side, qty, micros, clOrdId);
      i < |raw| - TRAILER_LENGTH && Byte(c) != Byte(raw[i])
    ensures ParseOrder(NewOrderSingle(account, symbol, side, qty, micros, clOrdId)[i := c], id)
         == Rejected("bad_checksum")
  {
    var body := Print(OrderFields(account, symbol, side, qty, micros, clOrdId));
    BodyIsPrinted(account, symbol, side, qty, micros, clOrdId);
    CorruptBuilt(body, i, c, id);
  }

  lemma CorruptBuilt(body: string, i: nat, c: char, id: nat)
    requires i < |Build(body)| - TRAILER_LENGTH && Byte(c) != Byte(Build(body)[i])
    ensures ParseOrder(Build(body)[i := c], id) == Rejected("bad_checksum")
  {
    CorruptionDetected(body, i, c);
  }

  // ------------------------------------------------------------------ a whole session

  datatype Request = Request(account: nat, symbol: string, side: char, qty: nat, micros: int, clOrdId: string)

  function Wire(q: Request): string { NewOrderSingle(q.account, q.symbol, q.side, q.qty, q.micros, q.clOrdId) }

  /** The order that request `q` asks for, under the id the server gives it. */
  function Meant(q: Request, id: nat): Risk.Order {
    Risk.Order(id, q.account, q.symbol, if q.side == '1' then Risk.Buy else Risk.Sell, q.qty,
               q.micros as real / 1_000_000.0)
  }

  /** The widths of the client's integers, and text that the separator does not occur in. */
  predicate Sendable(q: Request) {
    && SohFree(q.symbol) && SohFree(q.clOrdId) && q.side != SOH && q.account < TWO_64 && q.qty < TWO_32
    && |Wire(q)| < TWO_64
  }

  function WireAll(qs: seq<Request>): (m: seq<string>)
    ensures |m| == |qs|
  { seq(|qs|, i requires 0 <= i < |qs| => Wire(qs[i])) }

  lemma WireFrame(q: Request)
    requires Sendable(q)
    ensures TryExtract64(Wire(q)) == Some(Wire(q))
  {
    BodyIsPrinted(q.account, q.symbol, q.side, q.qty, q.micros, q.clOrdId);
    BuiltFrame64(Print(OrderFields(q.account, q.symbol, q.side, q.qty, q.micros, q.clOrdId)));
  }

  /** A whole session: any list of requests, sent in any pieces, is framed by the code's own loops
      and parsed back into the orders the client meant, in order, with nothing left over, whatever
      ids the workers draw. */
  lemma SessionRoundTrip(qs: seq<Request>, chunks: seq<string>, ids: seq<nat>)
    requires |ids| == |qs| && Join(chunks) == Join(WireAll(qs))
    requires forall i :: 0 <= i < |qs| ==> Sendable(qs[i])
    ensures Names(TryExtract64) && AllEnd(TryExtract64, "", chunks)
    ensures
      var z := Receive(TryExtract64, "", chunks);
      && z.rest == "" && |z.messages| == |qs|
      && forall i :: 0 <= i < |qs| ==> ParseOrder(z.messages[i], ids[i]) == Parsed(Meant(qs[i], ids[i]))
  {
    var messages := WireAll(qs);
    forall i | 0 <= i < |messages| ensures TryExtract64(messages[i]) == Some(messages[i]) { WireFrame(qs[i]); }
    MessagesReceived64(messages, chunks);
    forall i | 0 <= i < |qs| ensures ParseOrder(messages[i], ids[i]) == Parsed(Meant(qs[i], ids[i])) {
      WireParsed(qs[i], ids[i]);
    }
  }

  lemma WireParsed(q: Request, id: nat)
    requires Sendable(q)
    ensures ParseOrder(Wire(q), id) == Parsed(Meant(q, id))
  {
    OrderRoundTrip(q.account, q.symbol, q.side, q.qty, q.micros, q.clOrdId, id);
  }
}
