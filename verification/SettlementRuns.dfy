/** Whole runs of the batcher: trades confirmed with the deposit that covers them, flushes, and trades
    withdrawn because the chain already settled them. */
module SettlementRuns {
  import opened Types
  import opened Ledger
  import opened Chunks
  import opened Batcher
  import opened Settlement

  datatype Pool = Pool(queues: Queues, ledger: Balances)

  datatype Flushed = Flushed(pool: Pool, batches: seq<SettlementBatch>)

  function FlushInstant(p: Pool, k: nat, prover: Prover): Flushed
    requires k > 0
  {
    if p.queues.instant == [] then Flushed(p, [])
    else
      var built := BuildBatch(p.ledger, p.queues.instant[..1], k, prover);
      Flushed(Pool(p.queues.(instant := p.queues.instant[1..]), built.ledger), [built.batch])
  }

  function FlushExpress(p: Pool, due: bool, k: nat, prover: Prover): Flushed
    requires k > 0
  {
    if !due || p.queues.express == [] then Flushed(p, [])
    else
      var built := BuildBatch(p.ledger, p.queues.express, k, prover);
      Flushed(Pool(p.queues.(express := []), built.ledger), [built.batch])
  }

  function FlushStandard(p: Pool, due: bool, k: nat, prover: Prover): Flushed
    requires k > 0
  {
    if !due || p.queues.standard == [] then Flushed(p, [])
    else
      var built := BuildBatch(p.ledger, p.queues.standard, k, prover);
      Flushed(Pool(p.queues.(standard := []), built.ledger), [built.batch])
  }

  /** Instant takes one trade; express and standard are drained when full or due. */
  function ProcessBatches(p: Pool, express: bool, standard: bool, k: nat, prover: Prover): Flushed
    requires k > 0
  {
    var a := FlushInstant(p, k, prover);
    var b := FlushExpress(a.pool, express, k, prover);
    var c := FlushStandard(b.pool, standard, k, prover);
    Flushed(c.pool, a.batches + b.batches + c.batches)
  }

  /** Confirming a trade credits its taker with exactly the trade's value and queues it. */
  function Confirm(p: Pool, m: Match): Pool {
    Pool(Enqueue(p.queues, m), Deposit(p.ledger, Taker(m), Value(m)))
  }

  function BatchTrades(bs: seq<SettlementBatch>): seq<Match> {
    if bs == [] then [] else BatchTrades(bs[..|bs| - 1]) + bs[|bs| - 1].trades
  }

  /** The ledger can pay every queued trade at once. */
  ghost predicate Covered(p: Pool) {
    Bounded(QueuedTrades(p.queues)) && CanPay(p.ledger, QueuedTrades(p.queues))
  }

  /** No credit of a flush of these trades wraps. */
  ghost predicate FlushFits(l: Balances, trades: seq<Match>, k: nat, prover: Prover)
    requires k > 0
  {
    ChunksFit(l, ChunksOf(trades, k), prover)
  }

  ghost predicate InstantFits(p: Pool, k: nat, prover: Prover)
    requires k > 0
  {
    p.queues.instant != [] ==> FlushFits(p.ledger, p.queues.instant[..1], k, prover)
  }

  ghost predicate ExpressFits(p: Pool, due: bool, k: nat, prover: Prover)
    requires k > 0
  {
    due && p.queues.express != [] ==> FlushFits(p.ledger, p.queues.express, k, prover)
  }

  ghost predicate StandardFits(p: Pool, due: bool, k: nat, prover: Prover)
    requires k > 0
  {
    due && p.queues.standard != [] ==> FlushFits(p.ledger, p.queues.standard, k, prover)
  }

  /** No credit of the three flushes wraps. */
  ghost predicate ProcessFits(p: Pool, express: bool, standard: bool, k: nat, prover: Prover)
    requires k > 0
  {
    var a := FlushInstant(p, k, prover).pool;
    var b := FlushExpress(a, express, k, prover).pool;
    InstantFits(p, k, prover) && ExpressFits(a, express, k, prover) && StandardFits(b, standard, k, prover)
  }

  lemma CanPayBag(l: Balances, a: seq<Match>, b: seq<Match>)
    requires CanPay(l, a) && multiset(a) == multiset(b)
    ensures CanPay(l, b)
  {
    hide NeedBy;
    forall x ensures NeedBy(b, x) <= BalanceOf(l, x) { NeedByBag(a, b, x); }
  }

  /** Draining part of a covered pool settles exactly what was drained and leaves the rest covered. */
  lemma FlushKeepsCovered(p: Pool, drained: seq<Match>, rest: Queues, k: nat, prover: Prover)
    requires Covered(p) && k > 0 && Succeeds(prover, k) && FlushFits(p.ledger, drained, k, prover)
    requires multiset(QueuedTrades(p.queues)) == multiset(drained + QueuedTrades(rest))
    ensures var built := BuildBatch(p.ledger, drained, k, prover);
            && Covered(Pool(rest, built.ledger))
            && multiset(QueuedTrades(p.queues)) == multiset(QueuedTrades(rest)) + multiset(built.batch.trades)
            && multiset(built.batch.trades) == multiset(drained)
  {
    var all := drained + QueuedTrades(rest);
    CanPayBag(p.ledger, QueuedTrades(p.queues), all);
    BoundedBag(QueuedTrades(p.queues), all);
    BoundedParts(drained, QueuedTrades(rest));
    hide BuildBatch, CanPay, Bounded, Succeeds, ChunksFit, QueuedTrades, ChunksOf;
    CoveredFlush(p.ledger, drained, QueuedTrades(rest), k, prover);
  }

  /** What one flush of a tier does to a covered pool. */
  ghost predicate FlushOk(p: Pool, f: Flushed) {
    && Covered(f.pool)
    && multiset(QueuedTrades(p.queues)) == multiset(QueuedTrades(f.pool.queues)) + multiset(BatchTrades(f.batches))
  }

  lemma OneBatch(b: SettlementBatch)
    ensures BatchTrades([]) == [] && BatchTrades([b]) == b.trades
  {
    assert [b][..0] == [];
  }

  lemma Idle(p: Pool)
    requires Covered(p)
    ensures FlushOk(p, Flushed(p, []))
  {
    hide Covered, QueuedTrades;
  }

  lemma InstantOk(p: Pool, k: nat, prover: Prover)
    requires Covered(p) && k > 0 && Succeeds(prover, k) && InstantFits(p, k, prover)
    ensures FlushOk(p, FlushInstant(p, k, prover))
  {
    Idle(p);
    var q := p.queues;
    if q.instant != [] {
      var rest := q.(instant := q.instant[1..]);
      assert QueuedTrades(q) == q.instant[..1] + QueuedTrades(rest);
      hide Covered, BuildBatch, Succeeds, QueuedTrades, FlushFits;
      FlushKeepsCovered(p, q.instant[..1], rest, k, prover);
      OneBatch(BuildBatch(p.ledger, q.instant[..1], k, prover).batch);
    }
  }

  lemma SwapBag<T>(a: seq<T>, b: seq<T>, c: seq<T>)
    ensures multiset(a + b + c) == multiset(b + (a + [] + c))
    ensures multiset(a + b + c) == multiset(c + (a + b + []))
  {
  }

  lemma ExpressOk(p: Pool, due: bool, k: nat, prover: Prover)
    requires Covered(p) && k > 0 && Succeeds(prover, k) && ExpressFits(p, due, k, prover)
    ensures FlushOk(p, FlushExpress(p, due, k, prover))
  {
    Idle(p);
    var q := p.queues;
    SwapBag(q.instant, q.express, q.standard);
    hide Covered, BuildBatch, Succeeds, FlushFits;
    if due && q.express != [] {
      FlushKeepsCovered(p, q.express, q.(express := []), k, prover);
      OneBatch(BuildBatch(p.ledger, q.express, k, prover).batch);
    }
  }

  lemma StandardOk(p: Pool, due: bool, k: nat, prover: Prover)
    requires Covered(p) && k > 0 && Succeeds(prover, k) && StandardFits(p, due, k, prover)
    ensures FlushOk(p, FlushStandard(p, due, k, prover))
  {
    Idle(p);
    var q := p.queues;
    SwapBag(q.instant, q.express, q.standard);
    hide Covered, BuildBatch, Succeeds, FlushFits;
    if due && q.standard != [] {
      FlushKeepsCovered(p, q.standard, q.(standard := []), k, prover);
      OneBatch(BuildBatch(p.ledger, q.standard, k, prover).batch);
    }
  }

  lemma {:induction false} BatchTradesConcat(a: seq<SettlementBatch>, b: seq<SettlementBatch>)
    ensures BatchTrades(a + b) == BatchTrades(a) + BatchTrades(b)
  {
    if b == [] {
      assert a + b == a;
    } else {
      assert (a + b)[..|a + b| - 1] == a + b[..|b| - 1];
      BatchTradesConcat(a, b[..|b| - 1]);
      ConcatAssociates(BatchTrades(a), BatchTrades(b[..|b| - 1]), b[|b| - 1].trades);
    }
  }

  /** Flushing a covered pool without wrapping loses no trade and settles none twice, and keeps the pool
      covered. */
  lemma ProcessOk(p: Pool, express: bool, standard: bool, k: nat, prover: Prover)
    requires Covered(p) && k > 0 && Succeeds(prover, k) && ProcessFits(p, express, standard, k, prover)
    ensures FlushOk(p, ProcessBatches(p, express, standard, k, prover))
  {
    hide Covered, FlushInstant, FlushExpress, FlushStandard, Succeeds, BatchTrades, QueuedTrades, InstantFits,
         ExpressFits, StandardFits;
    InstantOk(p, k, prover);
    var a := FlushInstant(p, k, prover);
    ExpressOk(a.pool, express, k, prover);
    var b := FlushExpress(a.pool, express, k, prover);
    StandardOk(b.pool, standard, k, prover);
    var c := FlushStandard(b.pool, standard, k, prover);
    BatchTradesConcat(a.batches, b.batches);
    BatchTradesConcat(a.batches + b.batches, c.batches);
  }

  // ---- Confirming and withdrawing ----

  lemma EnqueueBag(q: Queues, m: Match)
    ensures multiset(QueuedTrades(Enqueue(q, m))) == multiset(QueuedTrades(q)) + multiset{m}
  {
    var s := QueuedTrades(q);
    match m.tier
    case Instant => BagAround(q.instant, m, q.express + q.standard);
      assert QueuedTrades(Enqueue(q, m)) == q.instant + [m] + (q.express + q.standard);
      assert s == q.instant + (q.express + q.standard);
    case Express => BagAround(q.instant + q.express, m, q.standard);
      assert QueuedTrades(Enqueue(q, m)) == (q.instant + q.express) + [m] + q.standard;
    case Standard => BagAround(s, m, []);
      assert QueuedTrades(Enqueue(q, m)) == s + [m] + [];
      assert s == s + [];
  }

  lemma DepositCovers(l: Balances, trades: seq<Match>, m: Match)
    requires CanPay(l, trades) && BalanceOf(l, Taker(m)) + Value(m) < TWO_64
    ensures CanPay(Deposit(l, Taker(m), Value(m)), trades + [m])
  {
    hide NeedBy, Value;
    forall a ensures NeedBy(trades + [m], a) <= BalanceOf(Deposit(l, Taker(m), Value(m)), a) {
      NeedSnoc(trades, m, a);
    }
  }

  lemma BoundedSnoc(trades: seq<Match>, m: Match)
    requires Bounded(trades) && m.price * m.amount < TWO_64
    ensures Bounded(trades + [m])
  {
  }

  lemma ConfirmKeepsCovered(p: Pool, m: Match)
    requires Covered(p) && m.price * m.amount < TWO_64 && BalanceOf(p.ledger, Taker(m)) + Value(m) < TWO_64
    ensures Covered(Confirm(p, m))
  {
    hide CanPay, Bounded, Value, QueuedTrades, Deposit, Enqueue;
    var trades := QueuedTrades(p.queues);
    EnqueueBag(p.queues, m);
    BoundedSnoc(trades, m);
    BoundedBag(trades + [m], QueuedTrades(Enqueue(p.queues, m)));
    DepositCovers(p.ledger, trades, m);
    CanPayBag(Deposit(p.ledger, Taker(m), Value(m)), trades + [m], QueuedTrades(Enqueue(p.queues, m)));
  }

  /** The trades a withdrawal takes out of a queue. */
  function Removed(ms: seq<Match>, dropped: set<Key>): seq<Match> {
    if ms == [] then []
    else
      Removed(ms[..|ms| - 1], dropped) + (if KeyOf(ms[|ms| - 1]) in dropped then [ms[|ms| - 1]] else [])
  }

  /** A withdrawal drops exactly the trades it names and keeps the order of the others. */
  lemma {:induction false} KeepSplits(ms: seq<Match>, dropped: set<Key>)
    ensures multiset(ms) == multiset(Keep(ms, dropped)) + multiset(Removed(ms, dropped))
    ensures forall m :: m in Keep(ms, dropped) ==> KeyOf(m) !in dropped
    ensures forall m :: m in Removed(ms, dropped) ==> KeyOf(m) in dropped
  {
    if ms != [] {
      KeepSplits(ms[..|ms| - 1], dropped);
      assert ms == ms[..|ms| - 1] + [ms[|ms| - 1]];
    }
  }

  function RemovedTrades(q: Queues, dropped: set<Key>): seq<Match> {
    Removed(q.instant, dropped) + Removed(q.express, dropped) + Removed(q.standard, dropped)
  }

  lemma RetainSplits(q: Queues, dropped: set<Key>)
    ensures multiset(QueuedTrades(q)) ==
            multiset(RemovedTrades(q, dropped)) + multiset(QueuedTrades(RetainPending(q, dropped)))
    ensures forall m :: m in QueuedTrades(RetainPending(q, dropped)) ==> KeyOf(m) !in dropped
    ensures forall m :: m in RemovedTrades(q, dropped) ==> KeyOf(m) in dropped
  {
    hide Keep, Removed;
    KeepSplits(q.instant, dropped);
    KeepSplits(q.express, dropped);
    KeepSplits(q.standard, dropped);
  }

  lemma CanPayPart(l: Balances, a: seq<Match>, b: seq<Match>)
    requires CanPay(l, a + b)
    ensures CanPay(l, b)
  {
    hide NeedBy;
    forall x ensures NeedBy(b, x) <= BalanceOf(l, x) { NeedConcat(a, b, x); }
  }

  lemma RetainKeepsCovered(p: Pool, dropped: set<Key>)
    requires Covered(p)
    ensures Covered(Pool(RetainPending(p.queues, dropped), p.ledger))
  {
    var out, kept := RemovedTrades(p.queues, dropped), QueuedTrades(RetainPending(p.queues, dropped));
    RetainSplits(p.queues, dropped);
    hide CanPay, Bounded, RemovedTrades, QueuedTrades, RetainPending;
    assert multiset(out + kept) == multiset(out) + multiset(kept);
    CanPayBag(p.ledger, QueuedTrades(p.queues), out + kept);
    BoundedBag(QueuedTrades(p.queues), out + kept);
    CanPayPart(p.ledger, out, kept);
    BoundedParts(out, kept);
  }

  // ---- Runs ----

  datatype Step =
    | ConfirmStep(m: Match)
    | ProcessStep(express: bool, standard: bool)
    | RetainStep(dropped: set<Key>)

  /** The pool together with everything ever confirmed, settled and withdrawn. */
  datatype Record = Record(pool: Pool, confirmed: seq<Match>, settled: seq<Match>, withdrawn: seq<Match>)

  const EMPTY_RECORD := Record(Pool(EMPTY_QUEUES, map[]), [], [], [])

  function Do(r: Record, s: Step, k: nat, prover: Prover): Record
    requires k > 0
  {
    match s
    case ConfirmStep(m) => r.(pool := Confirm(r.pool, m), confirmed := r.confirmed + [m])
    case ProcessStep(express, standard) =>
      var f := ProcessBatches(r.pool, express, standard, k, prover);
      r.(pool := f.pool, settled := r.settled + BatchTrades(f.batches))
    case RetainStep(dropped) =>
      r.(pool := Pool(RetainPending(r.pool.queues, dropped), r.pool.ledger),
         withdrawn := r.withdrawn + RemovedTrades(r.pool.queues, dropped))
  }

  function Run(steps: seq<Step>, k: nat, prover: Prover): Record
    requires k > 0
    decreases |steps|
  {
    if steps == [] then EMPTY_RECORD else Do(Run(steps[..|steps| - 1], k, prover), steps[|steps| - 1], k, prover)
  }

  function ConfirmedBy(steps: seq<Step>): seq<Match> {
    if steps == [] then []
    else
      ConfirmedBy(steps[..|steps| - 1])
      + (if steps[|steps| - 1].ConfirmStep? then [steps[|steps| - 1].m] else [])
  }

  /** The step adds to no balance beyond 64 bits. */
  ghost predicate StepFits(p: Pool, s: Step, k: nat, prover: Prover)
    requires k > 0
  {
    match s
    case ConfirmStep(m) => BalanceOf(p.ledger, Taker(m)) + Value(m) < TWO_64
    case ProcessStep(express, standard) => ProcessFits(p, express, standard, k, prover)
    case RetainStep(_) => true
  }

  /** No addition of the run wraps. */
  ghost predicate NoWrap(steps: seq<Step>, k: nat, prover: Prover)
    requires k > 0
    decreases |steps|
  {
    steps == [] ||
    (var init, s := steps[..|steps| - 1], steps[|steps| - 1];
     NoWrap(init, k, prover) && StepFits(Run(init, k, prover).pool, s, k, prover))
  }

  // ---- Conservation over runs ----

  lemma InstantTotals(p: Pool, k: nat, prover: Prover)
    requires k > 0
    ensures SameTotals(FlushInstant(p, k, prover).pool.ledger, p.ledger) <==> InstantFits(p, k, prover)
    ensures NoHigher(FlushInstant(p, k, prover).pool.ledger, p.ledger)
  {
    hide Total, SettleChunks, ChunksOf, ChunksFit, SameTotals, NoHigher;
    TotalsKept(p.ledger);
    if p.queues.instant != [] { FlushConservesIff(p.ledger, ChunksOf(p.queues.instant[..1], k), prover); }
  }

  lemma ExpressTotals(p: Pool, due: bool, k: nat, prover: Prover)
    requires k > 0
    ensures SameTotals(FlushExpress(p, due, k, prover).pool.ledger, p.ledger) <==> ExpressFits(p, due, k, prover)
    ensures NoHigher(FlushExpress(p, due, k, prover).pool.ledger, p.ledger)
  {
    hide Total, SettleChunks, ChunksOf, ChunksFit, SameTotals, NoHigher;
    TotalsKept(p.ledger);
    if due && p.queues.express != [] { FlushConservesIff(p.ledger, ChunksOf(p.queues.express, k), prover); }
  }

  lemma StandardTotals(p: Pool, due: bool, k: nat, prover: Prover)
    requires k > 0
    ensures SameTotals(FlushStandard(p, due, k, prover).pool.ledger, p.ledger) <==> StandardFits(p, due, k, prover)
    ensures NoHigher(FlushStandard(p, due, k, prover).pool.ledger, p.ledger)
  {
    hide Total, SettleChunks, ChunksOf, ChunksFit, SameTotals, NoHigher;
    TotalsKept(p.ledger);
    if due && p.queues.standard != [] { FlushConservesIff(p.ledger, ChunksOf(p.queues.standard, k), prover); }
  }

  /** Processing moves balances between traders and changes no symbol's total if and only if no credit
      wraps, whatever is dropped, refused or rolled back; it never adds to one. */
  lemma ProcessConservesIff(p: Pool, express: bool, standard: bool, k: nat, prover: Prover)
    requires k > 0
    ensures var l := ProcessBatches(p, express, standard, k, prover).pool.ledger;
            && (SameTotals(l, p.ledger) <==> ProcessFits(p, express, standard, k, prover))
            && NoHigher(l, p.ledger)
  {
    hide SameTotals, NoHigher, FlushInstant, FlushExpress, FlushStandard, InstantFits, ExpressFits, StandardFits;
    var a := FlushInstant(p, k, prover).pool;
    var b := FlushExpress(a, express, k, prover).pool;
    var c := FlushStandard(b, standard, k, prover).pool;
    InstantTotals(p, k, prover);
    ExpressTotals(a, express, k, prover);
    StandardTotals(b, standard, k, prover);
    SandwichTotals(p.ledger, a.ledger, b.ledger);
    SandwichTotals(p.ledger, b.ledger, c.ledger);
  }

  /** The totals hold exactly what was confirmed. */
  ghost predicate Conserved(r: Record) {
    forall s :: Total(r.pool.ledger, s) == SymbolValue(r.confirmed, s)
  }

  ghost predicate NeverMore(r: Record) {
    forall s :: Total(r.pool.ledger, s) <= SymbolValue(r.confirmed, s)
  }

  lemma ConfirmTotals(r: Record, m: Match)
    requires NeverMore(r)
    ensures var r' := r.(pool := Confirm(r.pool, m), confirmed := r.confirmed + [m]);
            && NeverMore(r')
            && (Conserved(r') <==> (Conserved(r) && BalanceOf(r.pool.ledger, Taker(m)) + Value(m) < TWO_64))
  {
    var r' := r.(pool := Confirm(r.pool, m), confirmed := r.confirmed + [m]);
    hide Total, SymbolValue, Value, Deposit, Enqueue;
    var fits := BalanceOf(r.pool.ledger, Taker(m)) + Value(m) < TWO_64;
    forall s
      ensures SymbolValue(r'.confirmed, s) == SymbolValue(r.confirmed, s) + (if m.symbol == s then Value(m) else 0)
      ensures Total(r'.pool.ledger, s) == Total(r.pool.ledger, s)
                + (if m.symbol != s then 0 else if fits then Value(m) else Value(m) - TWO_64)
    {
      SymbolSnoc(r.confirmed, m, s);
      DepositTotal(r.pool.ledger, Taker(m), Value(m), s);
    }
    if Conserved(r') {
      assert Total(r'.pool.ledger, m.symbol) == SymbolValue(r'.confirmed, m.symbol);
      assert Total(r.pool.ledger, m.symbol) <= SymbolValue(r.confirmed, m.symbol);
      forall s ensures Total(r.pool.ledger, s) == SymbolValue(r.confirmed, s) {
        assert Total(r'.pool.ledger, s) == SymbolValue(r'.confirmed, s);
      }
    }
  }

  lemma ProcessTotals(r: Record, r': Record)
    requires NeverMore(r) && r'.confirmed == r.confirmed && NoHigher(r'.pool.ledger, r.pool.ledger)
    ensures NeverMore(r') && (Conserved(r') <==> (Conserved(r) && SameTotals(r'.pool.ledger, r.pool.ledger)))
  {
    hide Total, SymbolValue;
    forall s ensures Total(r'.pool.ledger, s) <= Total(r.pool.ledger, s) <= SymbolValue(r.confirmed, s) {
    }
    if Conserved(r') {
      forall s ensures Total(r'.pool.ledger, s) == Total(r.pool.ledger, s) == SymbolValue(r.confirmed, s) {
        assert Total(r'.pool.ledger, s) == SymbolValue(r'.confirmed, s);
      }
    }
  }

  lemma ProcessStepTotals(r: Record, express: bool, standard: bool, k: nat, prover: Prover)
    requires k > 0 && NeverMore(r)
    ensures var r' := Do(r, ProcessStep(express, standard), k, prover);
            NeverMore(r') && (Conserved(r') <==> (Conserved(r) && ProcessFits(r.pool, express, standard, k, prover)))
  {
    hide SameTotals, NoHigher, ProcessBatches, ProcessFits, NeverMore, Conserved, BatchTrades;
    ProcessConservesIff(r.pool, express, standard, k, prover);
    ProcessTotals(r, Do(r, ProcessStep(express, standard), k, prover));
  }

  lemma RetainTotals(r: Record, r': Record)
    requires r'.confirmed == r.confirmed && r'.pool.ledger == r.pool.ledger
    ensures (NeverMore(r') <==> NeverMore(r)) && (Conserved(r') <==> Conserved(r))
  {
    hide Total, SymbolValue;
  }

  lemma StepTotals(r: Record, s: Step, k: nat, prover: Prover)
    requires k > 0 && NeverMore(r)
    ensures NeverMore(Do(r, s, k, prover))
    ensures Conserved(Do(r, s, k, prover)) <==> (Conserved(r) && StepFits(r.pool, s, k, prover))
  {
    hide NeverMore, Conserved, Confirm, Value, ProcessFits, ProcessBatches, RetainPending, RemovedTrades, BatchTrades;
    match s
    case ConfirmStep(m) => ConfirmTotals(r, m);
    case ProcessStep(express, standard) => ProcessStepTotals(r, express, standard, k, prover);
    case RetainStep(dropped) => RetainTotals(r, Do(r, s, k, prover));
  }

  /** Over every run, with any prover: each symbol's total over all traders is the value confirmed for it
      if and only if no addition of the run exceeded 64 bits; it is never more. */
  lemma {:induction false} RunConservesIff(steps: seq<Step>, k: nat, prover: Prover)
    requires k > 0
    ensures NeverMore(Run(steps, k, prover))
    ensures Conserved(Run(steps, k, prover)) <==> NoWrap(steps, k, prover)
    decreases |steps|
  {
    if steps == [] {
      EmptyTotals();
    } else {
      var init, s := steps[..|steps| - 1], steps[|steps| - 1];
      RunConservesIff(init, k, prover);
      hide NeverMore, Conserved, StepFits, Do;
      StepTotals(Run(init, k, prover), s, k, prover);
    }
  }

  lemma EmptyTotals()
    ensures NeverMore(EMPTY_RECORD) && Conserved(EMPTY_RECORD)
  {
    var none: Balances := map[];
    assert forall s :: Total(none, s) == 0;
  }

  // ---- Coverage over runs ----

  /** Confirmed trades are exactly those queued, settled and withdrawn. */
  ghost predicate Accounted(r: Record) {
    multiset(r.confirmed) == multiset(QueuedTrades(r.pool.queues)) + multiset(r.settled) + multiset(r.withdrawn)
  }

  lemma ConfirmAccounted(r: Record, m: Match)
    requires Accounted(r)
    ensures Accounted(r.(pool := Confirm(r.pool, m), confirmed := r.confirmed + [m]))
  {
    hide QueuedTrades, Deposit, Enqueue;
    EnqueueBag(r.pool.queues, m);
  }

  lemma ProcessAccounted(r: Record, f: Flushed)
    requires Accounted(r) && FlushOk(r.pool, f)
    ensures Accounted(r.(pool := f.pool, settled := r.settled + BatchTrades(f.batches)))
  {
    hide Covered, QueuedTrades, BatchTrades;
  }

  lemma RetainAccounted(r: Record, dropped: set<Key>)
    requires Accounted(r)
    ensures Accounted(r.(pool := Pool(RetainPending(r.pool.queues, dropped), r.pool.ledger),
                         withdrawn := r.withdrawn + RemovedTrades(r.pool.queues, dropped)))
  {
    hide QueuedTrades, RetainPending, RemovedTrades;
    RetainSplits(r.pool.queues, dropped);
  }

  lemma StepAccounted(r: Record, s: Step, k: nat, prover: Prover)
    requires Covered(r.pool) && Accounted(r) && k > 0 && Succeeds(prover, k) && StepFits(r.pool, s, k, prover)
    requires s.ConfirmStep? ==> s.m.price * s.m.amount < TWO_64
    ensures Covered(Do(r, s, k, prover).pool) && Accounted(Do(r, s, k, prover))
  {
    hide Covered, Accounted, ProcessBatches, ProcessFits, RetainPending, RemovedTrades, Confirm, BatchTrades,
        Succeeds, Value;
    match s
    case ConfirmStep(m) =>
      ConfirmKeepsCovered(r.pool, m);
      ConfirmAccounted(r, m);
    case ProcessStep(express, standard) =>
      ProcessOk(r.pool, express, standard, k, prover);
      ProcessAccounted(r, ProcessBatches(r.pool, express, standard, k, prover));
    case RetainStep(dropped) =>
      RetainKeepsCovered(r.pool, dropped);
      RetainAccounted(r, dropped);
  }

  lemma EmptyAccounted()
    ensures Covered(EMPTY_RECORD.pool) && Accounted(EMPTY_RECORD)
  {
    assert QueuedTrades(EMPTY_QUEUES) == [];
    assert forall a :: NeedBy([], a) == 0;
  }

  lemma ConfirmedSnoc(steps: seq<Step>, s: Step)
    ensures ConfirmedBy(steps + [s]) == ConfirmedBy(steps) + (if s.ConfirmStep? then [s.m] else [])
  {
    assert (steps + [s])[..|steps|] == steps;
  }

  /** In every run from an empty batcher in which no addition wraps: the ledger always covers the whole
      queue, so no confirmed trade is ever dropped as insolvent or rolled back, and confirmed trades are
      exactly those queued, settled and withdrawn. */
  lemma {:induction false} EveryRunCovered(steps: seq<Step>, k: nat, prover: Prover)
    requires k > 0 && Succeeds(prover, k) && Bounded(ConfirmedBy(steps)) && NoWrap(steps, k, prover)
    ensures var r := Run(steps, k, prover);
            r.confirmed == ConfirmedBy(steps) && Covered(r.pool) && Accounted(r)
    decreases |steps|
  {
    if steps == [] {
      EmptyAccounted();
    } else {
      var init, s := steps[..|steps| - 1], steps[|steps| - 1];
      assert steps == init + [s];
      ConfirmedSnoc(init, s);
      BoundedParts(ConfirmedBy(init), if s.ConfirmStep? then [s.m] else []);
      if s.ConfirmStep? { assert [s.m][0] == s.m; }
      EveryRunCovered(init, k, prover);
      assert ConfirmedBy(init) + [] == ConfirmedBy(init);
      hide Covered, Accounted, Succeeds, ConfirmedBy, StepFits;
      StepAccounted(Run(init, k, prover), s, k, prover);
    }
  }

  // ---- A bound on each account that rules wrapping out ----

  /** What an account could ever be given: as taker when its trades are confirmed, as maker when they
      settle. */
  ghost predicate AccountsFit(confirmed: seq<Match>) {
    forall a :: NeedBy(confirmed, a) + OwedTo(confirmed, a) < TWO_64
  }

  /** What an account holds and is still owed is at most what it could ever be given. */
  ghost predicate WorthBounded(r: Record) {
    forall a :: Worth(r.pool, a) <= NeedBy(r.confirmed, a) + OwedTo(r.confirmed, a)
  }

  function Worth(p: Pool, a: Account): nat {
    BalanceOf(p.ledger, a) + OwedTo(QueuedTrades(p.queues), a)
  }

  /** What flushing these trades adds to an account is at most what they owe it. */
  ghost predicate FlushBounds(l: Balances, trades: seq<Match>, after: Balances) {
    forall a :: BalanceOf(after, a) <= BalanceOf(l, a) + OwedTo(trades, a)
  }

  lemma SmallFlush(l: Balances, trades: seq<Match>, k: nat, prover: Prover)
    requires k > 0 && forall a :: BalanceOf(l, a) + OwedTo(trades, a) < TWO_64
    ensures FlushFits(l, trades, k, prover) && FlushBounds(l, trades, BuildBatch(l, trades, k, prover).ledger)
  {
    var chunks := ChunksOf(trades, k);
    ChunksPartition(trades, k, 0);
    hide ChunksOf, OwedTo, SettleChunks, ChunksFit, ForNode, ChunksOk, Concat;
    forall a ensures OwedTo(Concat(chunks), a) == OwedTo(trades, a) { OwedByBag(Concat(chunks), trades, a); }
    SmallFlushFits(l, chunks, prover);
  }

  lemma OwedParts(i: seq<Match>, e: seq<Match>, s: seq<Match>, a: Account)
    ensures OwedTo(i + e + s, a) == OwedTo(i, a) + OwedTo(e, a) + OwedTo(s, a) && OwedTo([], a) == 0
  {
    hide OwedTo;
    OwedConcat(i + e, s, a);
    OwedConcat(i, e, a);
    NothingCredited(map[], a.1, a);
  }

  ghost predicate WorthFits(p: Pool) {
    forall a :: Worth(p, a) < TWO_64
  }

  ghost predicate WorthKept(p: Pool, p': Pool) {
    forall a :: Worth(p', a) <= Worth(p, a)
  }

  lemma SmallInstant(p: Pool, k: nat, prover: Prover)
    requires k > 0 && WorthFits(p)
    ensures InstantFits(p, k, prover) && WorthKept(p, FlushInstant(p, k, prover).pool)
  {
    var q := p.queues;
    if q.instant != [] {
      var first, rest := q.instant[..1], q.instant[1..];
      assert q.instant == first + rest;
      hide OwedTo, FlushFits, BuildBatch;
      forall a
        ensures Worth(p, a) == BalanceOf(p.ledger, a) + OwedTo(first, a) + OwedTo(rest, a)
                               + OwedTo(q.express, a) + OwedTo(q.standard, a)
        ensures OwedTo(rest + q.express + q.standard, a)
                == OwedTo(rest, a) + OwedTo(q.express, a) + OwedTo(q.standard, a)
      {
        OwedParts(q.instant, q.express, q.standard, a);
        OwedParts(rest, q.express, q.standard, a);
        OwedConcat(first, rest, a);
      }
      SmallFlush(p.ledger, first, k, prover);
    }
  }

  lemma SmallExpress(p: Pool, due: bool, k: nat, prover: Prover)
    requires k > 0 && WorthFits(p)
    ensures ExpressFits(p, due, k, prover) && WorthKept(p, FlushExpress(p, due, k, prover).pool)
  {
    var q := p.queues;
    if due && q.express != [] {
      hide OwedTo, FlushFits, BuildBatch;
      forall a
        ensures Worth(p, a) == BalanceOf(p.ledger, a) + OwedTo(q.instant, a)
                               + OwedTo(q.express, a) + OwedTo(q.standard, a)
        ensures OwedTo(q.instant + [] + q.standard, a) == OwedTo(q.instant, a) + OwedTo(q.standard, a)
      {
        OwedParts(q.instant, q.express, q.standard, a);
        OwedParts(q.instant, [], q.standard, a);
      }
      SmallFlush(p.ledger, q.express, k, prover);
    }
  }

  lemma SmallStandard(p: Pool, due: bool, k: nat, prover: Prover)
    requires k > 0 && WorthFits(p)
    ensures StandardFits(p, due, k, prover) && WorthKept(p, FlushStandard(p, due, k, prover).pool)
  {
    var q := p.queues;
    if due && q.standard != [] {
      hide OwedTo, FlushFits, BuildBatch;
      forall a
        ensures Worth(p, a) == BalanceOf(p.ledger, a) + OwedTo(q.instant, a)
                               + OwedTo(q.express, a) + OwedTo(q.standard, a)
        ensures OwedTo(q.instant + q.express + [], a) == OwedTo(q.instant, a) + OwedTo(q.express, a)
      {
        OwedParts(q.instant, q.express, q.standard, a);
        OwedParts(q.instant, q.express, [], a);
      }
      SmallFlush(p.ledger, q.standard, k, prover);
    }
  }

  lemma WorthChain(p: Pool, p': Pool, p'': Pool)
    requires WorthKept(p, p') && WorthKept(p', p'')
    ensures WorthKept(p, p'') && (WorthFits(p) ==> WorthFits(p'))
  {
    hide Worth;
    forall a ensures Worth(p'', a) <= Worth(p', a) <= Worth(p, a) {
    }
  }

  /** A pool in which each account's balance fits together with all it is owed flushes without
      wrapping, and stays so. */
  lemma SmallProcess(p: Pool, express: bool, standard: bool, k: nat, prover: Prover)
    requires k > 0 && WorthFits(p)
    ensures ProcessFits(p, express, standard, k, prover)
    ensures WorthKept(p, ProcessBatches(p, express, standard, k, prover).pool)
  {
    hide WorthFits, WorthKept, FlushInstant, FlushExpress, FlushStandard, InstantFits, ExpressFits, StandardFits;
    var a := FlushInstant(p, k, prover).pool;
    SmallInstant(p, k, prover);
    WorthItself(a);
    WorthChain(p, a, a);
    var b := FlushExpress(a, express, k, prover).pool;
    SmallExpress(a, express, k, prover);
    WorthItself(b);
    WorthChain(a, b, b);
    SmallStandard(b, standard, k, prover);
    WorthChain(p, a, b);
    WorthChain(p, b, FlushStandard(b, standard, k, prover).pool);
  }

  lemma WorthItself(p: Pool)
    ensures WorthKept(p, p)
  {
  }

  lemma ConfirmWorth(r: Record, m: Match)
    requires WorthBounded(r)
    ensures WorthBounded(r.(pool := Confirm(r.pool, m), confirmed := r.confirmed + [m]))
  {
    var q := QueuedTrades(r.pool.queues);
    var q' := QueuedTrades(Enqueue(r.pool.queues, m));
    hide OwedTo, NeedBy, Value, QueuedTrades, Enqueue;
    EnqueueBag(r.pool.queues, m);
    forall a ensures Worth(Confirm(r.pool, m), a) <= NeedBy(r.confirmed + [m], a) + OwedTo(r.confirmed + [m], a) {
      OwedByBag(q', q + [m], a);
      NeedSnoc(q, m, a);
      NeedSnoc(r.confirmed, m, a);
      DepositTotal(r.pool.ledger, Taker(m), Value(m), a.1);
      assert Worth(r.pool, a) <= NeedBy(r.confirmed, a) + OwedTo(r.confirmed, a);
    }
  }

  lemma RetainWorth(p: Pool, dropped: set<Key>)
    ensures WorthKept(p, Pool(RetainPending(p.queues, dropped), p.ledger))
  {
    var out, kept := RemovedTrades(p.queues, dropped), QueuedTrades(RetainPending(p.queues, dropped));
    RetainSplits(p.queues, dropped);
    assert multiset(out + kept) == multiset(QueuedTrades(p.queues));
    hide OwedTo, RemovedTrades, QueuedTrades, RetainPending;
    forall a ensures OwedTo(kept, a) <= OwedTo(QueuedTrades(p.queues), a) {
      OwedByBag(out + kept, QueuedTrades(p.queues), a);
      OwedConcat(out, kept, a);
    }
  }

  lemma WorthDown(r: Record, r': Record)
    requires WorthBounded(r) && WorthKept(r.pool, r'.pool) && r'.confirmed == r.confirmed
    ensures WorthBounded(r')
  {
    hide Worth, NeedBy, OwedTo;
    forall a ensures Worth(r'.pool, a) <= NeedBy(r.confirmed, a) + OwedTo(r.confirmed, a) {
      assert Worth(r'.pool, a) <= Worth(r.pool, a);
    }
  }

  lemma BoundedWorthFits(r: Record)
    requires WorthBounded(r) && AccountsFit(r.confirmed)
    ensures WorthFits(r.pool)
  {
    hide Worth, NeedBy, OwedTo;
    forall a ensures Worth(r.pool, a) < TWO_64 {
      assert Worth(r.pool, a) <= NeedBy(r.confirmed, a) + OwedTo(r.confirmed, a);
    }
  }

  lemma StepWorth(r: Record, s: Step, k: nat, prover: Prover)
    requires k > 0 && WorthBounded(r) && AccountsFit(Do(r, s, k, prover).confirmed) && AccountsFit(r.confirmed)
    ensures StepFits(r.pool, s, k, prover) && WorthBounded(Do(r, s, k, prover))
  {
    match s
    case ConfirmStep(m) =>
      ConfirmWorth(r, m);
      ConfirmFits(r, m);
    case ProcessStep(express, standard) =>
      hide WorthBounded, AccountsFit, WorthFits, WorthKept, ProcessBatches, ProcessFits, BatchTrades;
      BoundedWorthFits(r);
      SmallProcess(r.pool, express, standard, k, prover);
      WorthDown(r, Do(r, s, k, prover));
    case RetainStep(dropped) =>
      hide WorthBounded, AccountsFit, WorthKept, RetainPending, RemovedTrades;
      RetainWorth(r.pool, dropped);
      WorthDown(r, Do(r, s, k, prover));
  }

  lemma ConfirmFits(r: Record, m: Match)
    requires WorthBounded(r) && AccountsFit(r.confirmed + [m])
    ensures BalanceOf(r.pool.ledger, Taker(m)) + Value(m) < TWO_64
  {
    hide OwedTo, NeedBy, Value, QueuedTrades;
    var a := Taker(m);
    NeedSnoc(r.confirmed, m, a);
    assert Worth(r.pool, a) <= NeedBy(r.confirmed, a) + OwedTo(r.confirmed, a);
    assert NeedBy(r.confirmed + [m], a) + OwedTo(r.confirmed + [m], a) < TWO_64;
  }

  lemma AccountsFitInit(a: seq<Match>, m: Match)
    requires AccountsFit(a + [m])
    ensures AccountsFit(a)
  {
    hide OwedTo, NeedBy, Value;
    forall x ensures NeedBy(a, x) + OwedTo(a, x) < TWO_64 { NeedSnoc(a, m, x); }
  }

  /** If no account is ever given 2^64 or more over the run, nothing wraps: then totals are conserved
      and, with a succeeding prover, everything queued stays covered. */
  lemma {:induction false} AccountsFitNoWrap(steps: seq<Step>, k: nat, prover: Prover)
    requires k > 0 && AccountsFit(ConfirmedBy(steps))
    ensures NoWrap(steps, k, prover)
    ensures WorthBounded(Run(steps, k, prover)) && Run(steps, k, prover).confirmed == ConfirmedBy(steps)
    decreases |steps|
  {
    if steps == [] {
      EmptyWorth();
    } else {
      var init, s := steps[..|steps| - 1], steps[|steps| - 1];
      assert steps == init + [s];
      ConfirmedSnoc(init, s);
      if s.ConfirmStep? { AccountsFitInit(ConfirmedBy(init), s.m); }
      assert ConfirmedBy(init) + [] == ConfirmedBy(init);
      hide WorthBounded, AccountsFit, StepFits, ConfirmedBy;
      AccountsFitNoWrap(init, k, prover);
      StepWorth(Run(init, k, prover), s, k, prover);
    }
  }

  lemma EmptyWorth()
    ensures WorthBounded(EMPTY_RECORD)
  {
    assert QueuedTrades(EMPTY_QUEUES) == [];
  }

  // ---- What a restored snapshot lacks ----

  ghost predicate Broke(l: Balances) {
    forall s :: Total(l, s) == 0
  }

  lemma BrokeBalances(l: Balances, a: Account)
    requires Broke(l)
    ensures BalanceOf(l, a) == 0
  {
    TotalUpdate(l, a, 0, a.1);
  }

  ghost predicate Worthless(trades: seq<Match>) {
    forall i :: 0 <= i < |trades| ==> Value(trades[i]) == 0
  }

  lemma BrokeSettlesWorthless(l: Balances, chunk: seq<Match>, prover: Prover)
    requires Broke(l)
    ensures var o := SettleChunk(l, chunk, prover);
            Broke(o.ledger) && (o.settled.Some? ==> Worthless(o.settled.value.batch.trades))
  {
    var trades := Solvent(l, chunk);
    SolventPays(l, chunk);
    hide Solvent, Total, Value;
    forall i | 0 <= i < |trades| ensures Value(trades[i]) == 0 { BrokeBalances(l, Taker(trades[i])); }
    ChunkConservesIff(l, chunk, prover);
    forall s ensures Total(SettleChunk(l, chunk, prover).ledger, s) == 0 {
      assert Total(SettleChunk(l, chunk, prover).ledger, s) <= Total(l, s);
    }
  }

  /** A batch built while the ledger is empty reports only trades worth nothing: everything else in
      the queue is drained and dropped. */
  lemma {:induction false} EmptyLedgerDropsTrades(l: Balances, chunks: seq<seq<Match>>, prover: Prover)
    requires Broke(l)
    ensures var b := SettleChunks(l, chunks, prover); Broke(b.ledger) && Worthless(b.batch.trades)
  {
    if chunks != [] {
      EmptyLedgerDropsTrades(l, chunks[..|chunks| - 1], prover);
      hide SettleChunk, Broke, Value;
      BrokeSettlesWorthless(SettleChunks(l, chunks[..|chunks| - 1], prover).ledger, chunks[|chunks| - 1], prover);
    }
  }

  /** A snapshot restores the queue but not the ledger, so a restored trade is payable from the
      empty ledger exactly when it is worth nothing. */
  lemma RestoredQueueCoveredIff(q: Queues)
    ensures CanPay(map[], QueuedTrades(q)) <==> forall m :: m in QueuedTrades(q) ==> Value(m) == 0
  {
    var trades := QueuedTrades(q);
    var none: Balances := map[];
    hide Value, QueuedTrades;
    if CanPay(none, trades) {
      forall m | m in trades ensures Value(m) == 0 {
        var i :| 0 <= i < |trades| && trades[i] == m;
        ValueWithinNeed(trades, i);
        assert NeedBy(trades, Taker(m)) <= BalanceOf(none, Taker(m));
      }
    } else {
      var a :| NeedBy(trades, a) > BalanceOf(none, a);
      var m := NeedHasSource(trades, a);
    }
  }

  lemma {:induction false} NeedHasSource(trades: seq<Match>, a: Account) returns (m: Match)
    requires NeedBy(trades, a) > 0
    ensures m in trades && Value(m) > 0
  {
    hide Value;
    var last := trades[|trades| - 1];
    if Taker(last) == a && Value(last) > 0 {
      m := last;
    } else {
      m := NeedHasSource(trades[..|trades| - 1], a);
    }
  }
}
