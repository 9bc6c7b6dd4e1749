/** The batcher's private ledger: 64-bit balances per trader and symbol, additions wrapping. */
module Ledger {
  import opened Types

  type Account = (Id, string)

  type Balances = map<Account, u64>

  function BalanceOf(l: Balances, a: Account): u64 {
    if a in l then l[a] else 0
  }

  function Deposit(l: Balances, a: Account, v: u64): Balances {
    l[a := (BalanceOf(l, a) + v) % TWO_64]
  }

  function Debit(l: Balances, a: Account, v: u64): Option<Balances> {
    if BalanceOf(l, a) < v then None else Some(l[a := BalanceOf(l, a) - v])
  }

  class BalanceLedger {
    var balances: Balances

    constructor ()
      ensures balances == map[]
    {
      balances := map[];
    }

    method DepositTo(a: Account, v: u64)
      modifies this
      ensures balances == Deposit(old(balances), a, v)
      ensures old(BalanceOf(balances, a)) + v < TWO_64 ==>
                BalanceOf(balances, a) == old(BalanceOf(balances, a)) + v
      ensures forall b :: b != a ==> BalanceOf(balances, b) == BalanceOf(old(balances), b)
    {
      balances := balances[a := (BalanceOf(balances, a) + v) % TWO_64];
    }

    method DebitFrom(a: Account, v: u64) returns (ok: bool)
      modifies this
      ensures ok <==> v <= old(BalanceOf(balances, a))
      ensures ok ==> Debit(old(balances), a, v) == Some(balances)
      ensures !ok ==> balances == old(balances)
    {
      var balance := BalanceOf(balances, a);
      ok := balance >= v;
      if ok {
        balances := balances[a := balance - v];
      }
    }
  }

  // ---- Totals ----

  /** The sum over all traders of one symbol's balances. */
  ghost function Total(l: Balances, symbol: string): nat {
    if l == map[] then 0
    else
      var a :| a in l;
      (if a.1 == symbol then l[a] else 0) + Total(l - {a}, symbol)
  }

  lemma {:induction false} TotalRemove(l: Balances, symbol: string, a: Account)
    requires a in l
    ensures Total(l, symbol) == (if a.1 == symbol then l[a] else 0) + Total(l - {a}, symbol)
    decreases |l|
  {
    var b :| b in l && Total(l, symbol) == (if b.1 == symbol then l[b] else 0) + Total(l - {b}, symbol);
    if b != a {
      TotalRemove(l - {b}, symbol, a);
      TotalRemove(l - {a}, symbol, b);
      assert (l - {b}) - {a} == (l - {a}) - {b};
    }
  }

  /** Setting one balance moves the total of its symbol by the difference. */
  lemma TotalUpdate(l: Balances, a: Account, v: u64, symbol: string)
    ensures Total(l[a := v], symbol) == Total(l, symbol) + (if a.1 == symbol then v - BalanceOf(l, a) else 0)
    ensures a.1 == symbol ==> BalanceOf(l, a) <= Total(l, symbol)
  {
    var l' := l[a := v];
    TotalRemove(l', symbol, a);
    assert l' - {a} == l - {a};
    if a in l {
      TotalRemove(l, symbol, a);
    } else {
      assert l - {a} == l;
    }
  }

  /** Every symbol's total is the same. */
  ghost predicate SameTotals(l: Balances, l': Balances) {
    forall s :: Total(l, s) == Total(l', s)
  }

  /** No symbol's total is higher. */
  ghost predicate NoHigher(l: Balances, l': Balances) {
    forall s :: Total(l, s) <= Total(l', s)
  }

  /** Totals that only fall are the same at the end if and only if they were at every step. */
  lemma SandwichTotals(before: Balances, mid: Balances, after: Balances)
    requires NoHigher(mid, before) && NoHigher(after, mid)
    ensures NoHigher(after, before)
    ensures SameTotals(after, before) <==> (SameTotals(mid, before) && SameTotals(after, mid))
  {
    hide Total;
    forall s ensures Total(after, s) <= Total(mid, s) <= Total(before, s) {
    }
    if SameTotals(after, before) {
      forall s ensures Total(mid, s) == Total(before, s) && Total(after, s) == Total(mid, s) {
        assert Total(after, s) == Total(before, s);
      }
    }
  }

  lemma TotalsKept(l: Balances)
    ensures SameTotals(l, l) && NoHigher(l, l)
  {
  }
}
