/** The store and the validator as objects: the loops of `tryDebit` and `credit`, with what other
    threads do to the balance between their steps, and the branch chain of `validate`, against the
    serial reference. */
module AccountStore {
  import opened Options
  import opened RiskSpec

  class Store {
    var balances: Balances

    constructor ()
      ensures balances == map[]
    {
      balances := map[];
    }

    method SetBalance(account: nat, balance: real)
      modifies this
      ensures balances == old(balances)[account := balance]
    {
      balances := balances[account := balance];
    }

    method GetBalance(account: nat) returns (r: real)
      ensures account in balances ==> r == balances[account]
      ensures account !in balances ==> r == 0.0
    {
      r := if account in balances then balances[account] else 0.0;
    }

    /** A weak compare-and-swap: `fail` makes it fail although the value matches. */
    method CompareExchange(account: nat, expected: real, desired: real, fail: bool) returns (ok: bool, actual: real)
      requires account in balances
      modifies this
      ensures ok <==> old(balances[account]) == expected && !fail
      ensures balances == if ok then old(balances)[account := desired] else old(balances)
      ensures actual == old(balances[account])
    {
      actual := balances[account];
      ok := actual == expected && !fail;
      if ok { balances := balances[account := desired]; }
    }

    /** What other threads do to the account before a compare-and-swap of this call. */
    method Interfere(account: nat, turn: Turn)
      requires account in balances
      modifies this
      ensures balances == old(balances)[account := Seen(old(balances[account]), [turn])]
    {
      if turn.other.Some? { balances := balances[account := turn.other.value]; }
    }

    /** Check and debit in one step: at some moment `at`, after whatever other threads have done to
        the balance until then, it is found too small and left alone, or found sufficient and the
        amount is taken from exactly that balance. */
    method TryDebit(account: nat, amount: real, turns: seq<Turn>) returns (ok: bool, ghost at: nat)
      modifies this
      ensures at <= |turns|
      ensures account !in old(balances) ==> !ok && balances == old(balances)
      ensures account in old(balances) ==>
                var b := Seen(old(balances[account]), turns[..at]);
                (ok <==> b >= amount) && balances == old(balances)[account := if ok then b - amount else b]
    {
      at := 0;
      if account !in balances { return false, at; }
      var cur := balances[account];
      var i := 0;
      while true
        invariant i == at <= |turns| && account in old(balances)
        invariant cur == Seen(old(balances[account]), turns[..i]) && balances == old(balances)[account := cur]
        decreases |turns| - i
      {
        if cur < amount { return false, at; }
        var fail := false;
        if i < |turns| {
          SeenNext(old(balances[account]), turns, i);
          Interfere(account, turns[i]);
          fail, i, at := turns[i].spurious, i + 1, at + 1;
        }
        var seen;
        ok, seen := CompareExchange(account, cur, cur - amount, fail);
        if ok { return; }
        cur := seen;
      }
      ok := false;
    }

    /** The amount is added to what the balance is when the swap succeeds. */
    method AddCredit(account: nat, amount: real, turns: seq<Turn>) returns (ghost at: nat)
      modifies this
      ensures at <= |turns|
      ensures balances == After(Met(old(balances), account, turns[..at]), Credit(account, amount))
    {
      at := 0;
      if account !in balances { balances := balances[account := amount]; return; }
      var cur := balances[account];
      var i := 0;
      while true
        invariant i == at <= |turns| && account in old(balances)
        invariant cur == Seen(old(balances[account]), turns[..i]) && balances == old(balances)[account := cur]
        decreases |turns| - i
      {
        var fail := false;
        if i < |turns| {
          SeenNext(old(balances[account]), turns, i);
          Interfere(account, turns[i]);
          fail, i, at := turns[i].spurious, i + 1, at + 1;
        }
        var ok, seen := CompareExchange(account, cur, cur + amount, fail);
        if ok { return; }
        cur := seen;
      }
    }
  }

  /** Before one compare-and-swap of a call, another thread may store a new balance, and the swap
      may fail although the balance is unchanged. */
  datatype Turn = Turn(other: Option<real>, spurious: bool)

  /** A balance `b` after what other threads have stored in `turns`. */
  function Seen(b: real, turns: seq<Turn>): real {
    if turns == [] then b
    else
      var last := turns[|turns| - 1];
      if last.other.Some? then last.other.value else Seen(b, turns[..|turns| - 1])
  }

  lemma SeenNext(b: real, turns: seq<Turn>, i: nat)
    requires i < |turns|
    ensures Seen(b, turns[..i + 1]) == Seen(Seen(b, turns[..i]), [turns[i]])
  {
    assert turns[..i + 1][..i] == turns[..i];
  }

  /** The balances that a call meets at its deciding operation. */
  function Met(balances: Balances, account: nat, turns: seq<Turn>): Balances {
    if account in balances then balances[account := Seen(balances[account], turns)] else balances
  }

  class Validator {
    const store: Store

    constructor (store: Store)
      ensures this.store == store
    {
      this.store := store;
    }

    /** `validate` is the serial reference on the balances that it meets at its deciding operation:
        same answer, same balances. */
    method Validate(o: Order, turns: seq<Turn>) returns (r: Result, ghost at: nat)
      modifies store
      ensures at <= |turns|
      ensures
        var b := Met(old(store.balances), o.account, turns[..at]);
        && r == ResultOf(b, RiskSpec.Validate(o)) && store.balances == After(b, RiskSpec.Validate(o))
        && (!r.accepted ==> store.balances == b && r.reason != "")
      ensures !ReachesDebit(o) ==> store.balances == old(store.balances)
      ensures r.orderId == o.id && r.accountId == o.account
    {
      var accepted, reason := true, "";
      at := 0;
      if o.qty == 0 {
        accepted, reason := false, "zero_quantity";
      } else if o.price <= 0.0 {
        accepted, reason := false, "invalid_price";
      } else if o.symbol !in ALLOWED_SYMBOLS {
        accepted, reason := false, "unknown_symbol";
      } else if o.side.Buy? {
        var cost := o.qty as real * o.price;
        accepted, at := store.TryDebit(o.account, cost, turns);
        ghost var b := Met(old(store.balances), o.account, turns[..at]);
        assert accepted ==> Debits(b, o) && store.balances == b[o.account := b[o.account] - Cost(o)];
        assert !accepted ==> !Debits(b, o) && store.balances == b;
        if !accepted { reason := "insufficient_balance"; }
      }
      r := Result(o.id, o.account, accepted, reason);
      assert !ReachesDebit(o) ==> Met(old(store.balances), o.account, turns[..at]) == old(store.balances);
    }

    /** The single-threaded baseline of the test program: a loop over the orders. */
    method ValidateAll(orders: seq<Order>) returns (results: seq<Result>)
      modifies store
      ensures results == Results(old(store.balances), AsCalls(orders))
      ensures store.balances == Final(old(store.balances), AsCalls(orders))
    {
      results := [];
      for i := 0 to |orders|
        invariant results == Results(old(store.balances), AsCalls(orders[..i]))
        invariant store.balances == Final(old(store.balances), AsCalls(orders[..i]))
      {
        FinalAppend(old(store.balances), AsCalls(orders[..i]), RiskSpec.Validate(orders[i]));
        assert AsCalls(orders[..i + 1]) == AsCalls(orders[..i]) + [RiskSpec.Validate(orders[i])];
        ghost var before := store.balances;
        var r, _ := Validate(orders[i], []);
        assert Met(before, orders[i].account, []) == before;
        results := results + [r];
      }
      assert orders[..|orders|] == orders;
    }
  }

  function AsCalls(orders: seq<Order>): (c: seq<Call>)
    ensures |c| == |orders|
  { seq(|orders|, i requires 0 <= i < |orders| => RiskSpec.Validate(orders[i])) }
}
