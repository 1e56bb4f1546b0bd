/** `RiskValidator::validate` and `AccountStore::credit` called by any number of threads on one
    store (include/RiskValidator.hpp, include/AccountStore.hpp): one atomic operation per step, a
    weak compare-and-swap that may fail spuriously, all accounts registered before trading.

    `hist` is a history variable: each call is recorded at the operation that decides it. */
module RiskMachine {
  import opened RiskSpec

  /** One decided call: what was asked, what was answered, and by which thread. */
  datatype Decided = Decided(call: Call, result: Result, who: nat)

  /** The next operation of a thread. `since` is the number of calls decided when this call began. */
  datatype Thread =
    | Idle
    | Begin(call: Call, since: nat)                   // static checks and map lookup
    | Load(call: Call, since: nat)                    // load the balance
    | Cas(call: Call, since: nat, cur: real)          // compare-and-swap the balance from cur
    | Returned(call: Call, since: nat, result: Result, at: nat)

  datatype State = State(balances: Balances, threads: seq<Thread>, hist: seq<Decided>)

  /** Thread `t` starts `call` if it is not inside one, or performs its next operation. */
  datatype Move = Move(t: nat, call: Call, spurious: bool)

  function Account(c: Call): nat { if c.Validate? then c.o.account else c.account }

  /** How a successful compare-and-swap changes the balance. */
  function Change(c: Call): real { if c.Validate? then -Cost(c.o) else c.amount }

  /** The check before every compare-and-swap of a debit. */
  predicate Short(c: Call, cur: real) { c.Validate? && cur < Cost(c.o) }

  /** Thread `t` decides its call now. */
  function Decide(s: State, t: nat, call: Call, since: nat, result: Result): State
    requires t < |s.threads|
  {
    s.(threads := s.threads[t := Returned(call, since, result, |s.hist|)],
       hist := s.hist + [Decided(call, result, t)])
  }

  /** Go on with the balance just read: give up if it is too small, else try to swap it. */
  function Consider(s: State, t: nat, call: Call, since: nat, cur: real): State
    requires t < |s.threads|
  {
    if Short(call, cur) then Decide(s, t, call, since, Reject(call.o, "insufficient_balance"))
    else s.(threads := s.threads[t := Cas(call, since, cur)])
  }

  /** A call on an unregistered account is refused for an order; a credit must not be made. */
  function BeginStep(s: State, t: nat, call: Call, since: nat): State
    requires t < |s.threads|
  {
    if call.Validate? && !ReachesDebit(call.o) then Decide(s, t, call, since, StaticResult(call.o))
    else if Account(call) in s.balances then s.(threads := s.threads[t := Load(call, since)])
    else if call.Validate? then Decide(s, t, call, since, Reject(call.o, "insufficient_balance"))
    else s
  }

  function Step(s: State, m: Move): (z: State)
    ensures |z.threads| == |s.threads|
  {
    if m.t >= |s.threads| then s
    else match s.threads[m.t]
      case Idle => Start(s, m)
      case Returned(_, _, _, _) => Start(s, m)
      case Begin(call, since) => BeginStep(s, m.t, call, since)
      case Load(call, since) =>
        if Account(call) in s.balances then Consider(s, m.t, call, since, s.balances[Account(call)]) else s
      case Cas(call, since, cur) =>
        var a := Account(call);
        if a !in s.balances then s
        else if s.balances[a] == cur && !m.spurious then
          Decide(s.(balances := s.balances[a := cur + Change(call)]), m.t, call, since,
                 if call.Validate? then Accept(call.o) else Result(0, a, true, ""))
        else Consider(s, m.t, call, since, s.balances[a])
  }

  function Start(s: State, m: Move): State
    requires m.t < |s.threads|
  {
    if m.call.Credit? && m.call.account !in s.balances then s
    else s.(threads := s.threads[m.t := Begin(m.call, |s.hist|)])
  }

  function Init(b: Balances, n: nat): State { State(b, seq(n, _ => Idle), []) }

  function Run(s: State, moves: seq<Move>): (z: State)
    ensures |z.threads| == |s.threads|
    decreases |moves|
  {
    if moves == [] then s else Step(Run(s, moves[..|moves| - 1]), moves[|moves| - 1])
  }

  function Calls(hist: seq<Decided>): (c: seq<Call>)
    ensures |c| == |hist|
  { seq(|hist|, i requires 0 <= i < |hist| => hist[i].call) }

  function Answers(hist: seq<Decided>): (r: seq<Result>)
    ensures |r| == |hist|
  { seq(|hist|, i requires 0 <= i < |hist| => hist[i].result) }

  // ------------------------------------------------------------------ invariant

  ghost predicate ThreadOk(b: Balances, s: State, t: nat)
    requires t < |s.threads|
  {
    match s.threads[t]
    case Idle => true
    case Begin(call, since) => since <= |s.hist| && (call.Credit? ==> call.account in b)
    case Load(call, since) =>
      since <= |s.hist| && Account(call) in b && (call.Validate? ==> ReachesDebit(call.o))
    case Cas(call, since, cur) =>
      && since <= |s.hist| && Account(call) in b
      && (call.Validate? ==> ReachesDebit(call.o) && cur >= Cost(call.o))
    case Returned(call, since, result, at) =>
      since <= at < |s.hist| && s.hist[at] == Decided(call, result, t)
  }

  /** The run so far is the serial run of its history. */
  ghost predicate Inv(b: Balances, s: State) {
    && s.balances == Final(b, Calls(s.hist))
    && Answers(s.hist) == Results(b, Calls(s.hist))
    && s.balances.Keys == b.Keys
    && (forall i :: 0 <= i < |s.hist| && s.hist[i].call.Credit? ==> s.hist[i].call.account in b)
    && (forall t :: 0 <= t < |s.threads| ==> ThreadOk(b, s, t))
  }

  /** A decision is right if it is what the serial check would decide on the balances before it,
      and changes them in the same way. */
  lemma DecideInv(b: Balances, s: State, balances: Balances, t: nat, call: Call, since: nat, result: Result)
    requires Inv(b, s) && t < |s.threads| && since <= |s.hist|
    requires balances == After(s.balances, call) && result == ResultOf(s.balances, call)
    requires call.Credit? ==> call.account in b
    ensures Inv(b, Decide(s.(balances := balances), t, call, since, result))
  {
    var z := Decide(s.(balances := balances), t, call, since, result);
    FinalAppend(b, Calls(s.hist), call);
    assert Calls(z.hist) == Calls(s.hist) + [call];
    assert Answers(z.hist) == Answers(s.hist) + [result];
    forall u | 0 <= u < |z.threads| ensures ThreadOk(b, z, u) { assert ThreadOk(b, s, u); }
  }

  lemma GotoInv(b: Balances, s: State, t: nat, th: Thread)
    requires Inv(b, s) && t < |s.threads| && ThreadOk(b, s.(threads := s.threads[t := th]), t)
    ensures Inv(b, s.(threads := s.threads[t := th]))
  {
    var z := s.(threads := s.threads[t := th]);
    forall u | 0 <= u < |z.threads| ensures ThreadOk(b, z, u) { assert ThreadOk(b, s, u) || u == t; }
  }

  lemma ConsiderInv(b: Balances, s: State, t: nat, call: Call, since: nat)
    requires Inv(b, s) && t < |s.threads| && since <= |s.hist| && Account(call) in b
    requires call.Validate? ==> ReachesDebit(call.o)
    ensures Inv(b, Consider(s, t, call, since, s.balances[Account(call)]))
  {
    var cur := s.balances[Account(call)];
    if Short(call, cur) {
      DecideInv(b, s, s.balances, t, call, since, Reject(call.o, "insufficient_balance"));
      assert s.(balances := s.balances) == s;
    } else {
      GotoInv(b, s, t, Cas(call, since, cur));
    }
  }

  lemma StepInv(b: Balances, s: State, m: Move)
    requires Inv(b, s)
    ensures Inv(b, Step(s, m))
  {
    if m.t < |s.threads| {
      assert ThreadOk(b, s, m.t);
      match s.threads[m.t]
      case Begin(call, since) => BeginInv(b, s, m.t, call, since);
      case Load(call, since) => ConsiderInv(b, s, m.t, call, since);
      case Cas(call, since, cur) => CasInv(b, s, m);
      case _ =>
        if !(m.call.Credit? && m.call.account !in s.balances) { GotoInv(b, s, m.t, Begin(m.call, |s.hist|)); }
    }
  }

  lemma BeginInv(b: Balances, s: State, t: nat, call: Call, since: nat)
    requires Inv(b, s) && t < |s.threads| && s.threads[t] == Begin(call, since)
    ensures Inv(b, BeginStep(s, t, call, since))
  {
    assert ThreadOk(b, s, t);
    assert s.(balances := s.balances) == s;
    if call.Validate? && !ReachesDebit(call.o) {
      DecideInv(b, s, s.balances, t, call, since, StaticResult(call.o));
    } else if Account(call) in s.balances {
      GotoInv(b, s, t, Load(call, since));
    } else if call.Validate? {
      DecideInv(b, s, s.balances, t, call, since, Reject(call.o, "insufficient_balance"));
    }
  }

  lemma CasInv(b: Balances, s: State, m: Move)
    requires Inv(b, s) && m.t < |s.threads| && s.threads[m.t].Cas?
    ensures Inv(b, Step(s, m))
  {
    var Cas(call, since, cur) := s.threads[m.t];
    var a := Account(call);
    assert ThreadOk(b, s, m.t);
    if s.balances[a] == cur && !m.spurious {
      DecideInv(b, s, s.balances[a := cur + Change(call)], m.t, call, since,
                if call.Validate? then Accept(call.o) else Result(0, a, true, ""));
    } else {
      ConsiderInv(b, s, m.t, call, since);
    }
  }

  lemma {:induction false} RunInv(b: Balances, n: nat, moves: seq<Move>)
    ensures Inv(b, Run(Init(b, n), moves))
    decreases |moves|
  {
    if moves != [] {
      RunInv(b, n, moves[..|moves| - 1]);
      StepInv(b, Run(Init(b, n), moves[..|moves| - 1]), moves[|moves| - 1]);
    }
  }

  // ------------------------------------------------------------------ theorems

  /** Serialisability, for every interleaving of any calls by any number of threads: running the
      calls one at a time in the order of their deciding operations gives the same answers and
      the same balances; every call that returned got the answer recorded for it, and its
      deciding operation lies between its start and its return. */
  lemma Serialisable(b: Balances, n: nat, moves: seq<Move>)
    ensures
      var s := Run(Init(b, n), moves);
      && s.balances == Final(b, Calls(s.hist))
      && Answers(s.hist) == Results(b, Calls(s.hist))
      && forall t :: 0 <= t < n && s.threads[t].Returned? ==>
           && s.threads[t].since <= s.threads[t].at < |s.hist|
           && s.hist[s.threads[t].at] == Decided(s.threads[t].call, s.threads[t].result, t)
  {
    RunInv(b, n, moves);
    var s := Run(Init(b, n), moves);
    forall t | 0 <= t < n && s.threads[t].Returned?
      ensures s.threads[t].since <= s.threads[t].at < |s.hist|
      ensures s.hist[s.threads[t].at] == Decided(s.threads[t].call, s.threads[t].result, t)
    {
      assert ThreadOk(b, s, t);
    }
  }

  /** In every reachable state each balance is its start plus the credits minus the cost of the
      accepted BUY orders, and is not negative if the starts and the credits are not. */
  lemma MoneyConserved(b: Balances, n: nat, moves: seq<Move>, a: nat)
    requires a in b
    ensures
      var s := Run(Init(b, n), moves);
      && a in s.balances
      && s.balances[a] == b[a] + PaidIn(Calls(s.hist), a) - Spent(Calls(s.hist), Answers(s.hist), a)
      && ((forall x :: x in b ==> b[x] >= 0.0)
          && (forall i :: 0 <= i < |s.hist| && s.hist[i].call.Credit? ==> s.hist[i].call.amount >= 0.0)
          ==> s.balances[a] >= 0.0)
  {
    RunInv(b, n, moves);
    var s := Run(Init(b, n), moves);
    Conservation(b, Calls(s.hist), a);
    if (forall x :: x in b ==> b[x] >= 0.0)
       && (forall i :: 0 <= i < |s.hist| && s.hist[i].call.Credit? ==> s.hist[i].call.amount >= 0.0) {
      NeverNegative(b, Calls(s.hist), a);
    }
  }

  /** No double spend: without credits the accepted BUY cost on an account never exceeds its
      starting balance. */
  lemma NoDoubleSpend(b: Balances, n: nat, moves: seq<Move>, a: nat)
    requires a in b && forall x :: x in b ==> b[x] >= 0.0
    requires forall i :: 0 <= i < |Run(Init(b, n), moves).hist| ==> Run(Init(b, n), moves).hist[i].call.Validate?
    ensures
      var s := Run(Init(b, n), moves);
      Spent(Calls(s.hist), Answers(s.hist), a) <= b[a]
  {
    MoneyConserved(b, n, moves, a);
    NothingPaidIn(Calls(Run(Init(b, n), moves).hist), a);
  }

  /** Decision `j` accepted a BUY order on account `a`. */
  ghost predicate Bought(s: State, a: nat, j: nat) {
    && j < |s.hist| && s.hist[j].call.Validate? && s.hist[j].call.o.account == a
    && s.hist[j].call.o.side == Buy && s.hist[j].result.accepted
  }

  function Paid(s: State, j: nat): real
    requires j < |s.hist| && s.hist[j].call.Validate?
  { s.hist[j].call.o.qty as real * s.hist[j].call.o.price }

  predicate OnlyOrders(s: State) { forall j :: 0 <= j < |s.hist| ==> s.hist[j].call.Validate? }

  /** Two accepted BUY orders on one account together cost at most its starting balance: of two orders
      that it cannot pay for both, at most one is ever accepted, whatever the race. */
  lemma NeverBoth(b: Balances, n: nat, moves: seq<Move>, a: nat, i: nat, k: nat)
    requires a in b && (forall x :: x in b ==> b[x] >= 0.0) && i < k
    requires OnlyOrders(Run(Init(b, n), moves))
    requires Bought(Run(Init(b, n), moves), a, i) && Bought(Run(Init(b, n), moves), a, k)
    ensures Paid(Run(Init(b, n), moves), i) + Paid(Run(Init(b, n), moves), k) <= b[a]
  {
    RunInv(b, n, moves);
    PaidForBoth(b, Run(Init(b, n), moves), a, i, k);
  }

  lemma PaidForBoth(b: Balances, s: State, a: nat, i: nat, k: nat)
    requires Inv(b, s) && a in b && (forall x :: x in b ==> b[x] >= 0.0)
    requires OnlyOrders(s) && i < k && Bought(s, a, i) && Bought(s, a, k)
    ensures Paid(s, i) + Paid(s, k) <= b[a]
  {
    var calls := Calls(s.hist);
    AcceptedPrices(b, calls);
    SpentOnTwo(calls, Answers(s.hist), a, i, k);
    SpentWithin(b, calls, a);
  }

  lemma SpentWithin(b: Balances, calls: seq<Call>, a: nat)
    requires a in b && (forall x :: x in b ==> b[x] >= 0.0) && forall i :: 0 <= i < |calls| ==> calls[i].Validate?
    ensures Spent(calls, Results(b, calls), a) <= b[a]
  {
    Conservation(b, calls, a);
    NeverNegative(b, calls, a);
    NothingPaidIn(calls, a);
  }

  // ------------------------------------------------------------------ every call can return

  predicate Inside(th: Thread) { th.Begin? || th.Load? || th.Cas? }

  /** How many operations a thread needs to return if it runs alone. */
  function Needs(s: State, t: nat): nat
    requires t < |s.threads|
  {
    match s.threads[t]
    case Begin(_, _) => 3
    case Load(_, _) => 2
    case Cas(call, _, cur) =>
      if Account(call) in s.balances && s.balances[Account(call)] == cur then 1 else 2
    case _ => 0
  }

  lemma SoloStep(b: Balances, s: State, t: nat, call: Call)
    requires Inv(b, s) && t < |s.threads| && Inside(s.threads[t])
    ensures
      var th := Step(s, Move(t, call, false)).threads[t];
      && (Inside(th) || th.Returned?) && th.call == s.threads[t].call && th.since == s.threads[t].since
      && Needs(Step(s, Move(t, call, false)), t) < Needs(s, t)
  {
    assert ThreadOk(b, s, t);
  }

  /** No call can be held up for ever by what others have done: from every reachable state a thread
      inside a call returns from it in at most three operations of its own. */
  lemma {:induction false} CallCanReturn(b: Balances, n: nat, moves: seq<Move>, t: nat) returns (more: seq<Move>)
    requires t < n && Inside(Run(Init(b, n), moves).threads[t])
    ensures moves <= more && |more| <= |moves| + Needs(Run(Init(b, n), moves), t) <= |moves| + 3
    ensures
      var th := Run(Init(b, n), more).threads[t];
      && th.Returned? && th.call == Run(Init(b, n), moves).threads[t].call
      && th.since == Run(Init(b, n), moves).threads[t].since
    decreases Needs(Run(Init(b, n), moves), t)
  {
    var s := Run(Init(b, n), moves);
    var m := Move(t, s.threads[t].call, false);
    RunInv(b, n, moves);
    SoloStep(b, s, t, m.call);
    more := moves + [m];
    assert more[..|moves|] == moves;
    assert Run(Init(b, n), more) == Step(s, m);
    if Inside(Step(s, m).threads[t]) { more := CallCanReturn(b, n, more, t); }
  }

  // ------------------------------------------------------------------ schedule independence

  lemma {:induction false} TwiceInMultiset(calls: seq<Call>, c: Call)
    ensures multiset(calls)[c] >= 2 ==> exists i, k :: 0 <= i < k < |calls| && calls[i] == c && calls[k] == c
    decreases |calls|
  {
    if calls != [] {
      var n := |calls| - 1;
      assert calls == calls[..n] + [calls[n]];
      TwiceInMultiset(calls[..n], c);
      if multiset(calls)[c] >= 2 {
        if multiset(calls[..n])[c] >= 2 {
          var i, k :| 0 <= i < k < n && calls[..n][i] == c && calls[..n][k] == c;
          assert calls[i] == c && calls[k] == c;
        } else {
          assert calls[n] == c && c in calls[..n];
          var i :| 0 <= i < n && calls[..n][i] == c;
          assert calls[i] == c && calls[n] == c;
        }
      }
    }
  }

  lemma TwoInMultiset(calls: seq<Call>, i: nat, k: nat)
    requires i < k < |calls| && calls[i] == calls[k]
    ensures multiset(calls)[calls[i]] >= 2
  {
    assert calls == calls[..k] + calls[k..];
    assert calls[..k][i] in multiset(calls[..k]) && calls[k..][0] in multiset(calls[k..]);
  }

  /** Independence does not depend on the order of the list. */
  lemma IndependentPermutation(orders: seq<Call>, calls: seq<Call>)
    requires Independent(orders) && multiset(orders) == multiset(calls)
    ensures Independent(calls)
  {
    forall i | 0 <= i < |calls| ensures calls[i].Validate? {
      assert calls[i] in multiset(calls);
      assert calls[i] in orders;
    }
    forall i, k | 0 <= i < k < |calls| && ReachesDebit(calls[i].o) && ReachesDebit(calls[k].o)
      ensures calls[i].o.account != calls[k].o.account
    {
      if calls[i] == calls[k] {
        TwoInMultiset(calls, i, k);
        TwiceInMultiset(orders, calls[i]);
      } else {
        assert calls[i] in multiset(calls) && calls[k] in multiset(calls);
        assert calls[i] in orders && calls[k] in orders;
      }
    }
  }

  /** The orders of a list that were accepted. */
  ghost function Accepted(calls: seq<Call>, results: seq<Result>): set<Call>
    requires |calls| == |results|
  { set i | 0 <= i < |calls| && results[i].accepted :: calls[i] }

  /** When the orders that reach an account reach pairwise distinct ones, every concurrent run
      that has decided all of them accepts exactly the orders of the sequential baseline. */
  lemma ScheduleIndependence(b: Balances, n: nat, moves: seq<Move>, orders: seq<Call>)
    requires Independent(orders)
    requires multiset(Calls(Run(Init(b, n), moves).hist)) == multiset(orders)
    ensures
      var s := Run(Init(b, n), moves);
      Accepted(Calls(s.hist), Answers(s.hist)) == Accepted(orders, Results(b, orders))
  {
    var s := Run(Init(b, n), moves);
    var calls := Calls(s.hist);
    RunInv(b, n, moves);
    IndependentPermutation(orders, calls);
    AcceptedAlone(b, orders);
    AcceptedAlone(b, calls);
    forall c ensures c in calls <==> c in orders {
      assert c in calls <==> c in multiset(calls);
      assert c in orders <==> c in multiset(orders);
    }
  }

  lemma AcceptedAlone(b: Balances, calls: seq<Call>)
    requires Independent(calls)
    ensures forall c :: c in Accepted(calls, Results(b, calls)) <==> c in calls && ResultOf(b, c).accepted
  {
    forall i | 0 <= i < |calls| ensures Results(b, calls)[i] == ResultOf(b, calls[i]) {
      IndependentResults(b, calls, i);
    }
  }
}
