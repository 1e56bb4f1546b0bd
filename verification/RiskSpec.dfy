/** The risk check one order at a time: the reference that every concurrent run is compared with.
    Amounts are exact reals. */
module RiskSpec {

  datatype Side = Buy | Sell

  datatype Order = Order(id: nat, account: nat, symbol: string, side: Side, qty: nat, price: real)

  datatype Result = Result(orderId: nat, accountId: nat, accepted: bool, reason: string)

  type Balances = map<nat, real>

  const ALLOWED_SYMBOLS: set<string> := {"BTC-USD", "ETH-USD", "SOL-USD"}

  function Cost(o: Order): real { o.qty as real * o.price }

  /** Only a BUY that passes the three static checks touches the account. */
  predicate ReachesDebit(o: Order) {
    o.qty != 0 && o.price > 0.0 && o.symbol in ALLOWED_SYMBOLS && o.side.Buy?
  }

  function Accept(o: Order): Result { Result(o.id, o.account, true, "") }

  function Reject(o: Order, reason: string): Result { Result(o.id, o.account, false, reason) }

  /** The decision on an order that does not reach the account. */
  function StaticResult(o: Order): Result
    requires !ReachesDebit(o)
  {
    if o.qty == 0 then Reject(o, "zero_quantity")
    else if o.price <= 0.0 then Reject(o, "invalid_price")
    else if o.symbol !in ALLOWED_SYMBOLS then Reject(o, "unknown_symbol")
    else Accept(o)
  }

  /** An order to validate, or money paid in. */
  datatype Call = Validate(o: Order) | Credit(account: nat, amount: real)

  predicate Debits(b: Balances, o: Order) {
    ReachesDebit(o) && o.account in b && b[o.account] >= Cost(o)
  }

  function ResultOf(b: Balances, c: Call): Result {
    match c
    case Credit(a, amount) => Result(0, a, true, "")
    case Validate(o) =>
      if !ReachesDebit(o) then StaticResult(o)
      else if Debits(b, o) then Accept(o)
      else Reject(o, "insufficient_balance")
  }

  function After(b: Balances, c: Call): Balances {
    match c
    case Credit(a, amount) => b[a := (if a in b then b[a] else 0.0) + amount]
    case Validate(o) => if Debits(b, o) then b[o.account := b[o.account] - Cost(o)] else b
  }

  /** The balances after a list of calls, one at a time. */
  function Final(b: Balances, calls: seq<Call>): Balances
    decreases |calls|
  {
    if calls == [] then b else After(Final(b, calls[..|calls| - 1]), calls[|calls| - 1])
  }

  /** The results of a list of calls, one at a time. */
  function Results(b: Balances, calls: seq<Call>): (r: seq<Result>)
    ensures |r| == |calls|
    decreases |calls|
  {
    if calls == [] then []
    else Results(b, calls[..|calls| - 1]) + [ResultOf(Final(b, calls[..|calls| - 1]), calls[|calls| - 1])]
  }

  lemma FinalAppend(b: Balances, calls: seq<Call>, c: Call)
    ensures Final(b, calls + [c]) == After(Final(b, calls), c)
    ensures Results(b, calls + [c]) == Results(b, calls) + [ResultOf(Final(b, calls), c)]
  {
    assert (calls + [c])[..|calls|] == calls;
  }

  // ------------------------------------------------------------------ what is accepted, and why not

  /** The whole risk check in the terms of an order: quantity and price positive, one of the three
      symbols, and for a BUY a known account with at least quantity times price. */
  lemma AcceptedIff(b: Balances, o: Order)
    ensures ResultOf(b, Validate(o)).accepted <==>
              && o.qty > 0 && o.price > 0.0
              && (o.symbol == "BTC-USD" || o.symbol == "ETH-USD" || o.symbol == "SOL-USD")
              && (o.side == Sell || (o.account in b && b[o.account] >= o.qty as real * o.price))
  {}

  /** Each reason is given exactly on its own guard, in the order of the checks. */
  lemma ReasonIff(b: Balances, o: Order)
    ensures
      var r := ResultOf(b, Validate(o));
      var known := o.symbol == "BTC-USD" || o.symbol == "ETH-USD" || o.symbol == "SOL-USD";
      && r.orderId == o.id && r.accountId == o.account
      && (r.reason == "" <==> r.accepted)
      && (r.reason == "zero_quantity" <==> o.qty == 0)
      && (r.reason == "invalid_price" <==> o.qty > 0 && o.price <= 0.0)
      && (r.reason == "unknown_symbol" <==> o.qty > 0 && o.price > 0.0 && !known)
      && (r.reason == "insufficient_balance" <==>
            && o.qty > 0 && o.price > 0.0 && known && o.side == Buy
            && !(o.account in b && b[o.account] >= o.qty as real * o.price))
  {
    ReasonsDiffer();
  }

  lemma ReasonsDiffer()
    ensures |"zero_quantity"| == |"invalid_price"| == 13 && "zero_quantity"[0] != "invalid_price"[0]
    ensures |"unknown_symbol"| == 14 && |"insufficient_balance"| == 20
  {}

  /** An accepted BUY takes quantity times price from its account; nothing else changes any balance. */
  lemma BalanceAfter(b: Balances, o: Order, a: nat)
    requires a in b
    ensures
      var z := After(b, Validate(o));
      && z.Keys == b.Keys
      && z[a] == b[a] - (if ResultOf(b, Validate(o)).accepted && o.side == Buy && o.account == a
                         then o.qty as real * o.price else 0.0)
  {}

  lemma AcceptedBuy(b: Balances, o: Order, c: real)
    requires o.side == Buy && ResultOf(b, Validate(o)).accepted && c == o.qty as real * o.price
    ensures o.account in b && After(b, Validate(o)) == b[o.account := b[o.account] - c]
  {
    assert Cost(o) == c;
  }

  lemma Distribute(m: nat, n: nat, price: real)
    requires m > 0 && n > 0 && price > 0.0
    ensures (m + n) as real * price == m as real * price + n as real * price
    ensures m as real * price > 0.0 && n as real * price > 0.0
  {}

  lemma TwoDebits(b: Balances, a: nat, c1: real, c2: real, c3: real)
    requires a in b && c3 == c1 + c2
    ensures
      var between := b[a := b[a] - c1];
      between[a := between[a] - c2] == b[a := b[a] - c3]
  {}

  /** Splitting an order changes nothing: orders of m and n units are both accepted exactly when one
      order of m + n units is. */
  lemma SplitAccepted(b: Balances, o: Order, m: nat, n: nat)
    requires m > 0 && n > 0 && o.side == Buy && o.price > 0.0
    ensures
      var first, second, whole := Validate(o.(qty := m)), Validate(o.(qty := n)), Validate(o.(qty := m + n));
      ResultOf(b, whole).accepted <==> ResultOf(b, first).accepted && ResultOf(After(b, first), second).accepted
  {
    var o1 := o.(qty := m);
    Distribute(m, n, o.price);
    AcceptedIff(b, o1);
    AcceptedIff(After(b, Validate(o1)), o.(qty := n));
    AcceptedIff(b, o.(qty := m + n));
    if ResultOf(b, Validate(o1)).accepted { AcceptedBuy(b, o1, m as real * o.price); }
  }

  /** And then they leave what that one order leaves. */
  lemma SplitOrder(b: Balances, o: Order, m: nat, n: nat)
    requires m > 0 && n > 0 && o.side == Buy && o.price > 0.0
    requires ResultOf(b, Validate(o.(qty := m + n))).accepted
    ensures After(After(b, Validate(o.(qty := m))), Validate(o.(qty := n))) == After(b, Validate(o.(qty := m + n)))
  {
    var c1, c2, c3 := m as real * o.price, n as real * o.price, (m + n) as real * o.price;
    var between := After(b, Validate(o.(qty := m)));
    SplitAccepted(b, o, m, n);
    Distribute(m, n, o.price);
    AcceptedBuy(b, o.(qty := m), c1);
    AcceptedBuy(between, o.(qty := n), c2);
    AcceptedBuy(b, o.(qty := m + n), c3);
    TwoDebits(b, o.account, c1, c2, c3);
  }

  /** One unit costs its price. */
  lemma OneUnit(b: Balances, o: Order)
    requires o.qty == 1 && o.side == Buy && o.account in b && ResultOf(b, Validate(o)).accepted
    ensures After(b, Validate(o)) == b[o.account := b[o.account] - o.price]
  {}

  /** What `getBalance` shows for an account. */
  function Shown(b: Balances, a: nat): real { if a in b then b[a] else 0.0 }

  /** A credit adds its amount to what its account shows, known or not, and changes no other. */
  lemma CreditAdds(b: Balances, c: Call, a: nat)
    requires c.Credit?
    ensures c.account in After(b, c)
    ensures Shown(After(b, c), a) == Shown(b, a) + (if a == c.account then c.amount else 0.0)
  {}

  // ------------------------------------------------------------------ conservation

  /** Money paid into account `a`. */
  function PaidIn(calls: seq<Call>, a: nat): real
    decreases |calls|
  {
    if calls == [] then 0.0
    else
      var c := calls[|calls| - 1];
      PaidIn(calls[..|calls| - 1], a) + if c.Credit? && c.account == a then c.amount else 0.0
  }

  /** Quantity times price, over the BUY orders on account `a` that were accepted. */
  function Spent(calls: seq<Call>, results: seq<Result>, a: nat): real
    requires |calls| == |results|
    decreases |calls|
  {
    if calls == [] then 0.0
    else
      var n := |calls| - 1;
      var c := calls[n];
      Spent(calls[..n], results[..n], a)
      + if c.Validate? && c.o.account == a && c.o.side == Buy && results[n].accepted
        then c.o.qty as real * c.o.price else 0.0
  }

  /** Every balance is its start plus what was paid in minus what was spent. */
  lemma {:induction false} Conservation(b: Balances, calls: seq<Call>, a: nat)
    requires a in b && forall i :: 0 <= i < |calls| && calls[i].Credit? ==> calls[i].account in b
    ensures b.Keys == Final(b, calls).Keys
    ensures Final(b, calls)[a] == b[a] + PaidIn(calls, a) - Spent(calls, Results(b, calls), a)
    decreases |calls|
  {
    if calls != [] {
      var n := |calls| - 1;
      Conservation(b, calls[..n], a);
      assert Results(b, calls)[..n] == Results(b, calls[..n]);
    }
  }

  lemma {:induction false} NeverNegative(b: Balances, calls: seq<Call>, a: nat)
    requires forall x :: x in b ==> b[x] >= 0.0
    requires forall i :: 0 <= i < |calls| && calls[i].Credit? ==> calls[i].account in b && calls[i].amount >= 0.0
    requires a in b
    ensures b.Keys == Final(b, calls).Keys && Final(b, calls)[a] >= 0.0
    decreases |calls|
  {
    if calls != [] { NeverNegative(b, calls[..|calls| - 1], a); }
  }

  lemma {:induction false} SpentNonNegative(calls: seq<Call>, results: seq<Result>, a: nat)
    requires |calls| == |results|
    requires forall i :: 0 <= i < |calls| && results[i].accepted && calls[i].Validate? ==> calls[i].o.price > 0.0
    ensures Spent(calls, results, a) >= 0.0
    decreases |calls|
  {
    if calls != [] { SpentNonNegative(calls[..|calls| - 1], results[..|calls| - 1], a); }
  }

  /** What was spent includes the cost of any two accepted BUY orders. */
  lemma {:induction false} SpentOnTwo(calls: seq<Call>, results: seq<Result>, a: nat, i: nat, k: nat)
    requires |calls| == |results| && i < k < |calls|
    requires forall j :: 0 <= j < |calls| && results[j].accepted && calls[j].Validate? ==> calls[j].o.price > 0.0
    requires calls[i].Validate? && calls[i].o.account == a && calls[i].o.side == Buy && results[i].accepted
    requires calls[k].Validate? && calls[k].o.account == a && calls[k].o.side == Buy && results[k].accepted
    ensures Spent(calls, results, a)
         >= calls[i].o.qty as real * calls[i].o.price + calls[k].o.qty as real * calls[k].o.price
    decreases |calls|
  {
    var n := |calls| - 1;
    if k < n {
      SpentOnTwo(calls[..n], results[..n], a, i, k);
    } else {
      SpentOnOne(calls[..n], results[..n], a, i);
    }
  }

  lemma {:induction false} SpentOnOne(calls: seq<Call>, results: seq<Result>, a: nat, i: nat)
    requires |calls| == |results| && i < |calls|
    requires forall j :: 0 <= j < |calls| && results[j].accepted && calls[j].Validate? ==> calls[j].o.price > 0.0
    requires calls[i].Validate? && calls[i].o.account == a && calls[i].o.side == Buy && results[i].accepted
    ensures Spent(calls, results, a) >= calls[i].o.qty as real * calls[i].o.price
    decreases |calls|
  {
    var n := |calls| - 1;
    if i < n {
      SpentOnOne(calls[..n], results[..n], a, i);
    } else {
      SpentNonNegative(calls[..n], results[..n], a);
    }
  }

  lemma {:induction false} AcceptedPrices(b: Balances, calls: seq<Call>)
    ensures forall i :: 0 <= i < |calls| && Results(b, calls)[i].accepted && calls[i].Validate? ==>
              calls[i].o.price > 0.0
    decreases |calls|
  {
    if calls != [] {
      AcceptedPrices(b, calls[..|calls| - 1]);
      assert forall i :: 0 <= i < |calls| - 1 ==> Results(b, calls)[i] == Results(b, calls[..|calls| - 1])[i];
    }
  }

  lemma {:induction false} NothingPaidIn(calls: seq<Call>, a: nat)
    requires forall i :: 0 <= i < |calls| ==> calls[i].Validate?
    ensures PaidIn(calls, a) == 0.0
    decreases |calls|
  {
    if calls != [] { NothingPaidIn(calls[..|calls| - 1], a); }
  }

  // ------------------------------------------------------------------ independent orders

  /** No two of the orders that reach an account reach the same one. */
  predicate Independent(calls: seq<Call>) {
    && (forall i :: 0 <= i < |calls| ==> calls[i].Validate?)
    && forall i, k :: 0 <= i < k < |calls| && ReachesDebit(calls[i].o) && ReachesDebit(calls[k].o) ==>
         calls[i].o.account != calls[k].o.account
  }

  lemma {:induction false} UntouchedBalance(b: Balances, calls: seq<Call>, a: nat)
    requires forall i :: 0 <= i < |calls| ==>
               calls[i].Validate? && (ReachesDebit(calls[i].o) ==> calls[i].o.account != a)
    ensures a in b <==> a in Final(b, calls)
    ensures a in b ==> Final(b, calls)[a] == b[a]
    decreases |calls|
  {
    if calls != [] { UntouchedBalance(b, calls[..|calls| - 1], a); }
  }

  /** With independent orders every decision is the one the order would get alone. */
  lemma {:induction false} IndependentResults(b: Balances, calls: seq<Call>, i: nat)
    requires Independent(calls) && i < |calls|
    ensures Results(b, calls)[i] == ResultOf(b, calls[i])
    decreases |calls|
  {
    var n := |calls| - 1;
    if i < n {
      IndependentResults(b, calls[..n], i);
    } else {
      if ReachesDebit(calls[n].o) { UntouchedBalance(b, calls[..n], calls[n].o.account); }
    }
  }
}
