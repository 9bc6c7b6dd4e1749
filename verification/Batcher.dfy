/** Settling chunks of trades against the ledger: the per-trade filter, the proof, the two-phase debit
    and credit with its rollback, and the batch that reports what settled. */
module Batcher {
  import opened Types
  import opened Ledger

  /** A trade's value as the batcher computes it, in 64-bit arithmetic. */
  function Value(m: Match): u64 {
    (m.price * m.amount) % TWO_64
  }

  function Taker(m: Match): Account {
    (m.takerTrader, m.symbol)
  }

  function Maker(m: Match): Account {
    (m.makerTrader, m.symbol)
  }

  /** What an account must pay as taker, and what it receives as maker. */
  function NeedBy(trades: seq<Match>, a: Account): nat {
    if trades == [] then 0
    else
      var m := trades[|trades| - 1];
      NeedBy(trades[..|trades| - 1], a) + (if Taker(m) == a then Value(m) else 0)
  }

  function OwedTo(trades: seq<Match>, a: Account): nat {
    if trades == [] then 0
    else
      var m := trades[|trades| - 1];
      OwedTo(trades[..|trades| - 1], a) + (if Maker(m) == a then Value(m) else 0)
  }

  datatype TradeBatch = TradeBatch(trades: seq<Match>, makerBalances: seq<u64>, takerBalances: seq<u64>,
      totalValue: u64)

  type Proof = seq<nat>

  /** Proof generation: an answer for every batch. */
  type Prover = TradeBatch -> Option<Proof>

  function SumValues(trades: seq<Match>): nat {
    if trades == [] then 0 else SumValues(trades[..|trades| - 1]) + Value(trades[|trades| - 1])
  }

  /** The trades of a chunk whose taker can pay them one by one. */
  function Solvent(l: Balances, chunk: seq<Match>): seq<Match> {
    if chunk == [] then []
    else
      var m := chunk[|chunk| - 1];
      Solvent(l, chunk[..|chunk| - 1]) + (if Value(m) > BalanceOf(l, Taker(m)) then [] else [m])
  }

  function BatchOf(l: Balances, trades: seq<Match>): TradeBatch {
    TradeBatch(trades,
               seq(|trades|, i requires 0 <= i < |trades| => BalanceOf(l, Maker(trades[i]))),
               seq(|trades|, i requires 0 <= i < |trades| => BalanceOf(l, Taker(trades[i]))),
               SumValues(trades) % TWO_64)
  }

  datatype Debits = Debits(ledger: Balances, done: nat)

  /** Debiting takers one trade at a time, stopping at the first that cannot pay. */
  function DebitAll(l: Balances, trades: seq<Match>): (d: Debits)
    ensures d.done <= |trades|
  {
    if trades == [] then Debits(l, 0)
    else
      var init, m := trades[..|trades| - 1], trades[|trades| - 1];
      var d := DebitAll(l, init);
      if d.done < |init| then d
      else match Debit(d.ledger, Taker(m), Value(m))
        case None => d
        case Some(l') => Debits(l', d.done + 1)
  }

  function CreditTakers(l: Balances, trades: seq<Match>): Balances {
    if trades == [] then l
    else
      var m := trades[|trades| - 1];
      Deposit(CreditTakers(l, trades[..|trades| - 1]), Taker(m), Value(m))
  }

  function CreditMakers(l: Balances, trades: seq<Match>): Balances {
    if trades == [] then l
    else
      var m := trades[|trades| - 1];
      Deposit(CreditMakers(l, trades[..|trades| - 1]), Maker(m), Value(m))
  }

  datatype Settled = Settled(batch: TradeBatch, proof: Proof)

  datatype Outcome = Outcome(ledger: Balances, settled: Option<Settled>)

  /** One chunk: filter, prove, debit all or roll back, then credit. */
  function SettleChunk(l: Balances, chunk: seq<Match>, prover: Prover): Outcome {
    var trades := Solvent(l, chunk);
    if trades == [] then Outcome(l, None)
    else
      var batch := BatchOf(l, trades);
      match prover(batch)
      case None => Outcome(l, None)
      case Some(proof) =>
        var d := DebitAll(l, trades);
        if d.done < |trades| then Outcome(CreditTakers(d.ledger, trades[..d.done]), None)
        else Outcome(CreditMakers(d.ledger, trades), Some(Settled(batch, proof)))
  }

  // ---- What the prover is given ----

  /** The trades of a chunk whose taker holds at least their value, wrapped to 64 bits. */
  function Payable(l: Balances, chunk: seq<Match>): set<nat> {
    set i: nat | i < |chunk|
                 && (chunk[i].price * chunk[i].amount) % TWO_64 <= BalanceOf(l, (chunk[i].takerTrader, chunk[i].symbol))
  }

  lemma SolventIs(l: Balances, chunk: seq<Match>)
    ensures Filters(Solvent(l, chunk), chunk, Payable(l, chunk))
  {
    SolventUpTo(l, chunk, |chunk|);
    assert chunk[..|chunk|] == chunk;
  }

  lemma {:induction false} SolventUpTo(l: Balances, chunk: seq<Match>, n: nat)
    requires n <= |chunk|
    ensures Filters(Solvent(l, chunk[..n]), chunk[..n], Payable(l, chunk))
  {
    hide Filters;
    if n == 0 {
      FiltersNone(chunk[..0], Payable(l, chunk));
    } else {
      SolventUpTo(l, chunk, n - 1);
      assert chunk[..n] == chunk[..n - 1] + [chunk[n - 1]] && chunk[..n][..n - 1] == chunk[..n - 1];
      assert n - 1 in Payable(l, chunk) <==> Value(chunk[n - 1]) <= BalanceOf(l, Taker(chunk[n - 1]));
      assert Solvent(l, chunk[..n - 1]) + [] == Solvent(l, chunk[..n - 1]);
      hide Value, Payable;
      FiltersNext(Solvent(l, chunk[..n - 1]), chunk[..n - 1], Payable(l, chunk), chunk[n - 1]);
    }
  }

  /** Each trade with what its two traders held when the chunk was started, and the sum of the values. */
  ghost predicate Describes(b: TradeBatch, l: Balances) {
    && |b.makerBalances| == |b.trades| == |b.takerBalances|
    && (forall i :: 0 <= i < |b.trades| ==>
          var m := b.trades[i];
          && b.makerBalances[i] == BalanceOf(l, (m.makerTrader, m.symbol))
          && b.takerBalances[i] == BalanceOf(l, (m.takerTrader, m.symbol)))
    && b.totalValue == SumValues(b.trades) % TWO_64
  }

  /** What is proved for a chunk: exactly its payable trades, in order, each with its maker's and its
      taker's balance at chunk start; the proof reported is the prover's answer to that. */
  lemma ProvenBatch(l: Balances, chunk: seq<Match>, prover: Prover)
    requires SettleChunk(l, chunk, prover).settled.Some?
    ensures var s := SettleChunk(l, chunk, prover).settled.value;
            && Filters(s.batch.trades, chunk, Payable(l, chunk))
            && Describes(s.batch, l) && prover(s.batch) == Some(s.proof)
  {
    SolventIs(l, chunk);
    hide Filters, Solvent, DebitAll, CreditMakers, CreditTakers, SumValues;
  }

  // ---- Debits succeed exactly when every taker can pay its sum ----

  ghost predicate CanPay(l: Balances, trades: seq<Match>) {
    forall a :: NeedBy(trades, a) <= BalanceOf(l, a)
  }

  lemma NeedSnoc(init: seq<Match>, m: Match, a: Account)
    ensures NeedBy(init + [m], a) == NeedBy(init, a) + (if Taker(m) == a then Value(m) else 0)
    ensures OwedTo(init + [m], a) == OwedTo(init, a) + (if Maker(m) == a then Value(m) else 0)
  {
    assert (init + [m])[..|init|] == init;
  }

  lemma DebitSnoc(l: Balances, init: seq<Match>, m: Match)
    ensures DebitAll(l, init + [m]) ==
            var d := DebitAll(l, init);
            if d.done < |init| then d
            else match Debit(d.ledger, Taker(m), Value(m))
              case None => d
              case Some(l') => Debits(l', d.done + 1)
  {
    assert (init + [m])[..|init|] == init;
  }

  /** The trades debited before a failure leave every balance reduced by exactly what was taken. */
  lemma {:induction false} DebitedBalances(l: Balances, trades: seq<Match>, a: Account)
    ensures var d := DebitAll(l, trades);
            BalanceOf(d.ledger, a) + NeedBy(trades[..d.done], a) == BalanceOf(l, a)
  {
    if trades == [] {
      assert trades[..0] == [];
    } else {
      var init, m := trades[..|trades| - 1], trades[|trades| - 1];
      assert trades == init + [m];
      DebitedBalances(l, init, a);
      DebitSnoc(l, init, m);
      hide DebitAll, NeedBy;
      var d := DebitAll(l, init);
      assert trades[..d.done] == init[..d.done];
      assert init[..|init|] == init && trades[..|trades|] == trades;
      NeedSnoc(init, m, a);
    }
  }

  lemma {:induction false} DebitsSucceedIff(l: Balances, trades: seq<Match>)
    ensures DebitAll(l, trades).done == |trades| <==> CanPay(l, trades)
  {
    if trades != [] {
      var init, m := trades[..|trades| - 1], trades[|trades| - 1];
      assert trades == init + [m];
      DebitsSucceedIff(l, init);
      DebitSnoc(l, init, m);
      var d := DebitAll(l, init);
      hide DebitAll, NeedBy, Value;
      forall a ensures NeedBy(trades, a) == NeedBy(init, a) + (if Taker(m) == a then Value(m) else 0) {
        NeedSnoc(init, m, a);
      }
      if d.done == |init| {
        DebitedBalances(l, init, Taker(m));
        assert init[..|init|] == init;
        LastPayer(l, init, m, d.ledger);
      } else {
        StillCannotPay(l, init, m);
      }
    }
  }

  lemma LastPayer(l: Balances, init: seq<Match>, m: Match, after: Balances)
    requires CanPay(l, init)
    requires BalanceOf(after, Taker(m)) + NeedBy(init, Taker(m)) == BalanceOf(l, Taker(m))
    ensures CanPay(l, init + [m]) <==> Value(m) <= BalanceOf(after, Taker(m))
  {
    hide NeedBy, Value;
    NeedSnoc(init, m, Taker(m));
    if Value(m) <= BalanceOf(after, Taker(m)) {
      forall a ensures NeedBy(init + [m], a) <= BalanceOf(l, a) { NeedSnoc(init, m, a); }
    }
  }

  lemma StillCannotPay(l: Balances, init: seq<Match>, m: Match)
    requires !CanPay(l, init)
    ensures !CanPay(l, init + [m])
  {
    hide NeedBy, Value;
    var a :| NeedBy(init, a) > BalanceOf(l, a);
    NeedSnoc(init, m, a);
  }

  // ---- Credits and the rollback ----

  lemma {:induction false} CreditedTakers(l: Balances, trades: seq<Match>, a: Account)
    requires BalanceOf(l, a) + NeedBy(trades, a) < TWO_64
    ensures BalanceOf(CreditTakers(l, trades), a) == BalanceOf(l, a) + NeedBy(trades, a)
  {
    if trades != [] { CreditedTakers(l, trades[..|trades| - 1], a); }
  }

  lemma {:induction false} CreditedMakers(l: Balances, trades: seq<Match>, a: Account)
    requires BalanceOf(l, a) + OwedTo(trades, a) < TWO_64
    ensures BalanceOf(CreditMakers(l, trades), a) == BalanceOf(l, a) + OwedTo(trades, a)
  {
    if trades != [] { CreditedMakers(l, trades[..|trades| - 1], a); }
  }

  ghost predicate SameBalances(l: Balances, l': Balances) {
    forall a :: BalanceOf(l, a) == BalanceOf(l', a)
  }

  /** Rolling back a failed chunk restores every balance. */
  lemma RollbackRestores(l: Balances, trades: seq<Match>)
    ensures var d := DebitAll(l, trades); SameBalances(CreditTakers(d.ledger, trades[..d.done]), l)
  {
    var d := DebitAll(l, trades);
    forall a ensures BalanceOf(CreditTakers(d.ledger, trades[..d.done]), a) == BalanceOf(l, a) {
      DebitedBalances(l, trades, a);
      CreditedTakers(d.ledger, trades[..d.done], a);
    }
  }

  // ---- The prover ----

  /** What the prover checks before proving, in 128-bit arithmetic. */
  ghost predicate Provable(b: TradeBatch, k: nat) {
    && 0 < |b.trades| <= k
    && |b.makerBalances| == |b.trades| == |b.takerBalances|
    && forall i :: 0 <= i < |b.trades| ==> b.trades[i].amount * b.trades[i].price <= b.takerBalances[i]
  }

  ghost predicate Succeeds(prover: Prover, k: nat) {
    forall b :: Provable(b, k) ==> prover(b).Some?
  }

  ghost predicate Bounded(trades: seq<Match>) {
    forall i :: 0 <= i < |trades| ==> trades[i].price * trades[i].amount < TWO_64
  }

  ghost predicate PaysEach(l: Balances, trades: seq<Match>) {
    forall i :: 0 <= i < |trades| ==> Value(trades[i]) <= BalanceOf(l, Taker(trades[i]))
  }

  lemma {:induction false} SolventPays(l: Balances, chunk: seq<Match>)
    ensures PaysEach(l, Solvent(l, chunk)) && |Solvent(l, chunk)| <= |chunk|
    ensures forall x :: x in Solvent(l, chunk) ==> x in chunk
    ensures PaysEach(l, chunk) ==> Solvent(l, chunk) == chunk
  {
    if chunk != [] {
      var init, m := chunk[..|chunk| - 1], chunk[|chunk| - 1];
      assert chunk == init + [m];
      SolventPays(l, init);
      if PaysEach(l, chunk) {
        assert Value(chunk[|chunk| - 1]) <= BalanceOf(l, Taker(chunk[|chunk| - 1]));
      }
    }
  }

  lemma ExactValue(m: Match)
    requires m.price * m.amount < TWO_64
    ensures Value(m) == m.amount * m.price
  {
  }

  lemma BatchProvable(l: Balances, trades: seq<Match>, k: nat)
    requires 0 < |trades| <= k && Bounded(trades) && PaysEach(l, trades)
    ensures Provable(BatchOf(l, trades), k)
  {
    var b := BatchOf(l, trades);
    forall i | 0 <= i < |trades| ensures trades[i].amount * trades[i].price <= b.takerBalances[i] {
      ExactValue(trades[i]);
      assert Value(trades[i]) <= BalanceOf(l, Taker(trades[i]));
    }
  }

  /** With a prover that succeeds, the chunk left after the per-trade filter settles if and only if
      each taker's sum within it is covered at the start; credits to makers in the same chunk never
      help. Otherwise every balance is as before. */
  lemma ChunkIsAtomic(l: Balances, chunk: seq<Match>, k: nat, prover: Prover)
    requires |chunk| <= k && Bounded(chunk) && Succeeds(prover, k)
    ensures var trades := Solvent(l, chunk);
            var o := SettleChunk(l, chunk, prover);
            && (o.settled.Some? <==> trades != [] && CanPay(l, trades))
            && (o.settled.Some? ==> o.settled.value.batch == BatchOf(l, trades))
            && (o.settled.None? ==> SameBalances(o.ledger, l))
  {
    var trades := Solvent(l, chunk);
    hide Solvent, BatchOf, CanPay, Succeeds, Bounded, DebitAll, CreditTakers, CreditMakers, SameBalances;
    ProverAccepts(l, chunk, k, prover);
    DebitsSucceedIff(l, trades);
    RollbackRestores(l, trades);
    SameAsItself(l);
  }

  lemma SameAsItself(l: Balances)
    ensures SameBalances(l, l)
  {
  }

  lemma ProverAccepts(l: Balances, chunk: seq<Match>, k: nat, prover: Prover)
    requires |chunk| <= k && Bounded(chunk) && Succeeds(prover, k)
    ensures Solvent(l, chunk) != [] ==> prover(BatchOf(l, Solvent(l, chunk))).Some?
  {
    var trades := Solvent(l, chunk);
    SolventPays(l, chunk);
    SolventBounded(l, chunk);
    hide Solvent, BatchOf, Bounded, PaysEach, Provable;
    if trades != [] { BatchProvable(l, trades, k); }
  }

  lemma SolventBounded(l: Balances, chunk: seq<Match>)
    requires Bounded(chunk)
    ensures Bounded(Solvent(l, chunk))
  {
    SolventPays(l, chunk);
    var s := Solvent(l, chunk);
    forall i | 0 <= i < |s| ensures s[i].price * s[i].amount < TWO_64 {
      assert s[i] in chunk;
    }
  }

  // ---- Conservation ----

  function SymbolValue(trades: seq<Match>, symbol: string): nat {
    if trades == [] then 0
    else
      var m := trades[|trades| - 1];
      SymbolValue(trades[..|trades| - 1], symbol) + (if m.symbol == symbol then Value(m) else 0)
  }

  lemma SymbolSnoc(init: seq<Match>, m: Match, symbol: string)
    ensures SymbolValue(init + [m], symbol) == SymbolValue(init, symbol) + (if m.symbol == symbol then Value(m) else 0)
  {
    assert (init + [m])[..|init|] == init;
  }

  lemma {:induction false} DebitedTotal(l: Balances, trades: seq<Match>, symbol: string)
    ensures var d := DebitAll(l, trades);
            Total(d.ledger, symbol) + SymbolValue(trades[..d.done], symbol) == Total(l, symbol)
  {
    hide DebitAll, SymbolValue, Total, Value;
    if trades == [] {
      NothingDebited(l, symbol);
      assert trades[..0] == [];
    } else {
      var init, m := trades[..|trades| - 1], trades[|trades| - 1];
      assert trades == init + [m];
      DebitedTotal(l, init, symbol);
      DebitSnoc(l, init, m);
      var d := DebitAll(l, init);
      if d.done == |init| && Value(m) <= BalanceOf(d.ledger, Taker(m)) {
        SymbolSnoc(init, m, symbol);
        assert init[..|init|] == init && trades[..|trades|] == trades;
        TotalUpdate(d.ledger, Taker(m), BalanceOf(d.ledger, Taker(m)) - Value(m), symbol);
      } else {
        assert trades[..d.done] == init[..d.done];
      }
    }
  }

  lemma NothingDebited(l: Balances, symbol: string)
    ensures DebitAll(l, []) == Debits(l, 0) && SymbolValue([], symbol) == 0
  {
  }

  /** A deposit adds its value to the symbol's total, or loses 2^64 when the balance wraps. */
  lemma DepositTotal(l: Balances, a: Account, v: u64, symbol: string)
    ensures var fits := BalanceOf(l, a) + v < TWO_64;
            && Total(Deposit(l, a, v), symbol)
               == Total(l, symbol) + (if a.1 != symbol then 0 else if fits then v else v - TWO_64)
            && BalanceOf(Deposit(l, a, v), a) == BalanceOf(l, a) + (if fits then v else v - TWO_64)
  {
    hide Total;
    TotalUpdate(l, a, (BalanceOf(l, a) + v) % TWO_64, symbol);
  }

  lemma CreditSnoc(l: Balances, init: seq<Match>, m: Match)
    ensures CreditMakers(l, init + [m]) == Deposit(CreditMakers(l, init), Maker(m), Value(m))
    ensures CreditTakers(l, init + [m]) == Deposit(CreditTakers(l, init), Taker(m), Value(m))
  {
    assert (init + [m])[..|init|] == init;
  }

  lemma NothingCredited(l: Balances, symbol: string, a: Account)
    ensures CreditMakers(l, []) == l && CreditTakers(l, []) == l
    ensures SymbolValue([], symbol) == 0 && OwedTo([], a) == 0 && NeedBy([], a) == 0
  {
  }

  /** No account that is credited exceeds 64 bits. */
  ghost predicate CreditFits(l: Balances, trades: seq<Match>) {
    forall a :: BalanceOf(l, a) + OwedTo(trades, a) < TWO_64
  }

  lemma CreditFitsInit(l: Balances, init: seq<Match>, m: Match)
    requires CreditFits(l, init + [m])
    ensures CreditFits(l, init)
    ensures BalanceOf(l, Maker(m)) + OwedTo(init, Maker(m)) + Value(m) < TWO_64
  {
    hide OwedTo, NeedBy, Value;
    forall a ensures BalanceOf(l, a) + OwedTo(init, a) < TWO_64 { NeedSnoc(init, m, a); }
    NeedSnoc(init, m, Maker(m));
  }

  /** Credits that fit add exactly the value of the trades to every symbol. */
  lemma {:induction false} CreditedTotal(l: Balances, trades: seq<Match>, symbol: string)
    requires CreditFits(l, trades)
    ensures Total(CreditMakers(l, trades), symbol) == Total(l, symbol) + SymbolValue(trades, symbol)
  {
    hide *;
    if trades == [] {
      NothingCredited(l, symbol, (0, symbol));
    } else {
      var init, m := trades[..|trades| - 1], trades[|trades| - 1];
      assert trades == init + [m];
      CreditFitsInit(l, init, m);
      CreditedTotal(l, init, symbol);
      CreditFitsAt(l, init, Maker(m));
      CreditedMakers(l, init, Maker(m));
      CreditSnoc(l, init, m);
      DepositTotal(CreditMakers(l, init), Maker(m), Value(m), symbol);
      SymbolSnoc(init, m, symbol);
      MakerSymbol(m);
    }
  }

  lemma CreditFitsAt(l: Balances, trades: seq<Match>, a: Account)
    requires CreditFits(l, trades)
    ensures BalanceOf(l, a) + OwedTo(trades, a) < TWO_64
  {
  }

  lemma MakerSymbol(m: Match)
    ensures Maker(m).1 == m.symbol && Taker(m).1 == m.symbol
  {
  }

  /** Credits never add more than that. */
  lemma {:induction false} CreditedAtMost(l: Balances, trades: seq<Match>, symbol: string)
    ensures Total(CreditMakers(l, trades), symbol) <= Total(l, symbol) + SymbolValue(trades, symbol)
  {
    hide *;
    if trades == [] {
      NothingCredited(l, symbol, (0, symbol));
    } else {
      var init, m := trades[..|trades| - 1], trades[|trades| - 1];
      assert trades == init + [m];
      CreditedAtMost(l, init, symbol);
      CreditSnoc(l, init, m);
      DepositTotal(CreditMakers(l, init), Maker(m), Value(m), symbol);
      SymbolSnoc(init, m, symbol);
      MakerSymbol(m);
    }
  }

  /** They add less as soon as one account wraps. */
  lemma {:induction false} CreditLoses(l: Balances, trades: seq<Match>, a: Account)
    requires BalanceOf(l, a) + OwedTo(trades, a) >= TWO_64
    ensures Total(CreditMakers(l, trades), a.1) < Total(l, a.1) + SymbolValue(trades, a.1)
  {
    hide *;
    if trades == [] {
      NothingCredited(l, a.1, a);
    } else {
      var init, m := trades[..|trades| - 1], trades[|trades| - 1];
      assert trades == init + [m];
      NeedSnoc(init, m, a);
      CreditSnoc(l, init, m);
      DepositTotal(CreditMakers(l, init), Maker(m), Value(m), a.1);
      SymbolSnoc(init, m, a.1);
      MakerSymbol(m);
      if BalanceOf(l, a) + OwedTo(init, a) >= TWO_64 {
        CreditLoses(l, init, a);
      } else {
        CreditedAtMost(l, init, a.1);
        CreditedMakers(l, init, a);
      }
    }
  }

  /** Credits add exactly the value of the trades to every symbol's total if and only if no credited
      account exceeds 64 bits. */
  lemma CreditsExactIff(l: Balances, trades: seq<Match>)
    ensures (forall s :: Total(CreditMakers(l, trades), s) == Total(l, s) + SymbolValue(trades, s))
            <==> CreditFits(l, trades)
  {
    hide Total, SymbolValue, CreditMakers, OwedTo;
    if CreditFits(l, trades) {
      forall s ensures Total(CreditMakers(l, trades), s) == Total(l, s) + SymbolValue(trades, s) {
        CreditedTotal(l, trades, s);
      }
    } else {
      var a :| BalanceOf(l, a) + OwedTo(trades, a) >= TWO_64;
      CreditLoses(l, trades, a);
    }
  }

  lemma {:induction false} CreditedBack(l: Balances, trades: seq<Match>, symbol: string)
    requires forall a :: BalanceOf(l, a) + NeedBy(trades, a) < TWO_64
    ensures Total(CreditTakers(l, trades), symbol) == Total(l, symbol) + SymbolValue(trades, symbol)
  {
    hide *;
    if trades == [] {
      NothingCredited(l, symbol, (0, symbol));
    } else {
      var init, m := trades[..|trades| - 1], trades[|trades| - 1];
      assert trades == init + [m];
      forall a ensures BalanceOf(l, a) + NeedBy(init, a) < TWO_64 { NeedSnoc(init, m, a); }
      NeedSnoc(init, m, Taker(m));
      CreditedBack(l, init, symbol);
      CreditedTakers(l, init, Taker(m));
      CreditSnoc(l, init, m);
      DepositTotal(CreditTakers(l, init), Taker(m), Value(m), symbol);
      SymbolSnoc(init, m, symbol);
      MakerSymbol(m);
    }
  }

  /** Rolling back needs no bound: what is put back was there. */
  lemma RollbackTotal(l: Balances, trades: seq<Match>, symbol: string)
    ensures var d := DebitAll(l, trades); Total(CreditTakers(d.ledger, trades[..d.done]), symbol) == Total(l, symbol)
  {
    hide *;
    var d := DebitAll(l, trades);
    forall a ensures BalanceOf(d.ledger, a) + NeedBy(trades[..d.done], a) < TWO_64 { DebitedBalances(l, trades, a); }
    DebitedTotal(l, trades, symbol);
    CreditedBack(d.ledger, trades[..d.done], symbol);
  }

  /** If the chunk settles, none of its credits wraps. */
  ghost predicate ChunkFits(l: Balances, chunk: seq<Match>, prover: Prover) {
    SettleChunk(l, chunk, prover).settled.Some? ==>
      CreditFits(DebitAll(l, Solvent(l, chunk)).ledger, Solvent(l, chunk))
  }

  /** In terms of the balances before the chunk: each account's net change fits. */
  lemma FitsByNet(l: Balances, trades: seq<Match>)
    requires DebitAll(l, trades).done == |trades|
    ensures CreditFits(DebitAll(l, trades).ledger, trades)
            <==> forall a :: BalanceOf(l, a) + OwedTo(trades, a) < TWO_64 + NeedBy(trades, a)
  {
    hide DebitAll, OwedTo, NeedBy;
    assert trades[..|trades|] == trades;
    forall a ensures BalanceOf(DebitAll(l, trades).ledger, a) + NeedBy(trades, a) == BalanceOf(l, a) {
      DebitedBalances(l, trades, a);
    }
  }

  lemma ChunkTotal(l: Balances, chunk: seq<Match>, prover: Prover, symbol: string)
    ensures var o := SettleChunk(l, chunk, prover);
            && Total(o.ledger, symbol) <= Total(l, symbol)
            && (o.settled.None? ==> Total(o.ledger, symbol) == Total(l, symbol))
            && (o.settled.Some? ==>
                  && DebitAll(l, Solvent(l, chunk)).done == |Solvent(l, chunk)|
                  && o.ledger == CreditMakers(DebitAll(l, Solvent(l, chunk)).ledger, Solvent(l, chunk))
                  && Total(DebitAll(l, Solvent(l, chunk)).ledger, symbol) + SymbolValue(Solvent(l, chunk), symbol)
                     == Total(l, symbol))
  {
    var trades := Solvent(l, chunk);
    var d := DebitAll(l, trades);
    hide Total, SymbolValue, Solvent, DebitAll, CreditTakers, CreditMakers, BatchOf;
    assert trades[..|trades|] == trades;
    RollbackTotal(l, trades, symbol);
    DebitedTotal(l, trades, symbol);
    CreditedAtMost(d.ledger, trades, symbol);
  }

  /** A chunk that is dropped, refused or rolled back changes no symbol's total. One that settles
      changes none if and only if no account it credits exceeds 64 bits; otherwise value is lost. */
  lemma ChunkConservesIff(l: Balances, chunk: seq<Match>, prover: Prover)
    ensures SameTotals(SettleChunk(l, chunk, prover).ledger, l) <==> ChunkFits(l, chunk, prover)
    ensures NoHigher(SettleChunk(l, chunk, prover).ledger, l)
  {
    var trades := Solvent(l, chunk);
    var d, o := DebitAll(l, trades).ledger, SettleChunk(l, chunk, prover);
    hide Total, SymbolValue, Solvent, DebitAll, CreditTakers, CreditMakers, SettleChunk, CreditFits;
    forall s
      ensures Total(o.ledger, s) <= Total(l, s)
      ensures o.settled.None? ==> Total(o.ledger, s) == Total(l, s)
      ensures o.settled.Some? ==>
                o.ledger == CreditMakers(d, trades) && Total(d, s) + SymbolValue(trades, s) == Total(l, s)
    {
      ChunkTotal(l, chunk, prover, s);
    }
    CreditsExactIff(d, trades);
    if o.settled.Some? && SameTotals(o.ledger, l) {
      forall s ensures Total(CreditMakers(d, trades), s) == Total(d, s) + SymbolValue(trades, s) {
        assert Total(o.ledger, s) == Total(l, s);
      }
    }
    if o.settled.Some? && CreditFits(d, trades) {
      forall s ensures Total(o.ledger, s) == Total(l, s) {
        assert Total(CreditMakers(d, trades), s) == Total(d, s) + SymbolValue(trades, s);
      }
    }
  }

  /** One unit paid to an account one short of 2^64: the account wraps to zero and the value is gone. */
  lemma WrapLosesValue(m: Match, prover: Prover)
    requires m.price == 1 && m.amount == 1 && m.makerTrader != m.takerTrader
    requires var l: Balances := map[Taker(m) := 1, Maker(m) := TWO_64 - 1]; prover(BatchOf(l, [m])).Some?
    ensures var l: Balances := map[Taker(m) := 1, Maker(m) := TWO_64 - 1];
            && !ChunkFits(l, [m], prover)
            && exists s :: Total(SettleChunk(l, [m], prover).ledger, s) < Total(l, s)
  {
    var l: Balances := map[Taker(m) := 1, Maker(m) := TWO_64 - 1];
    assert [m][..0] == [] && [] + [m] == [m];
    assert Value(m) == 1;
    assert Solvent(l, [m]) == [m];
    DebitSnoc(l, [], m);
    assert DebitAll(l, [m]).done == 1;
    var d := DebitAll(l, [m]).ledger;
    assert BalanceOf(d, Maker(m)) == TWO_64 - 1;
    NeedSnoc([], m, Maker(m));
    assert OwedTo([m], Maker(m)) == 1;
    assert !CreditFits(d, [m]);
    ChunkConservesIff(l, [m], prover);
  }
}
