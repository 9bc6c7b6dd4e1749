/** Exactly when the ledger keeps covering the queue, wrapping balances included: for a confirmation, a
    chunk, a flush of all tiers, a whole run, and for a chunk queued again after a failed submission. */
module Coverage {
  import opened Types
  import opened Ledger
  import opened Chunks
  import opened Batcher
  import opened Settlement
  import opened SettlementRuns

  // ---- Balances after settling ----

  /** What an account holds once these trades have settled on a ledger. */
  function Wrapped(l: Balances, done: seq<Match>, a: Account): nat {
    (BalanceOf(l, a) - NeedBy(done, a) + OwedTo(done, a)) % TWO_64
  }

  /** Each account, as it then stands, covers its part of the next trades. */
  ghost predicate PaysNext(l: Balances, done: seq<Match>, next: seq<Match>) {
    forall a :: NeedBy(next, a) <= Wrapped(l, done, a)
  }

  lemma WrapAdd(x: int, y: int)
    ensures (x % TWO_64 + y) % TWO_64 == (x + y) % TWO_64
  {
  }

  lemma {:induction false} CreditedWrapped(l: Balances, trades: seq<Match>, a: Account)
    ensures BalanceOf(CreditMakers(l, trades), a) == (BalanceOf(l, a) + OwedTo(trades, a)) % TWO_64
  {
    hide *;
    if trades == [] {
      NothingCreditedAt(l, a);
    } else {
      var init, m := trades[..|trades| - 1], trades[|trades| - 1];
      assert trades == init + [m];
      CreditedWrapped(l, init, a);
      CreditSnoc(l, init, m);
      DepositedAt(CreditMakers(l, init), Maker(m), Value(m), a);
      NeedSnoc(init, m, a);
      WrapAdd(BalanceOf(l, a) + OwedTo(init, a), Value(m));
    }
  }

  lemma NothingCreditedAt(l: Balances, a: Account)
    ensures CreditMakers(l, []) == l && BalanceOf(l, a) == (BalanceOf(l, a) + OwedTo([], a)) % TWO_64
  {
  }

  lemma DepositedAt(l: Balances, to: Account, v: u64, a: Account)
    ensures BalanceOf(Deposit(l, to, v), a) == if to == a then (BalanceOf(l, a) + v) % TWO_64 else BalanceOf(l, a)
  {
  }

  lemma WrappedMore(l: Balances, done: seq<Match>, c: seq<Match>, a: Account)
    ensures Wrapped(l, done + c, a) == (Wrapped(l, done, a) - NeedBy(c, a) + OwedTo(c, a)) % TWO_64
  {
    hide NeedBy, OwedTo;
    NeedConcat(done, c, a);
    OwedConcat(done, c, a);
    WrapAdd(BalanceOf(l, a) - NeedBy(done, a) + OwedTo(done, a), OwedTo(c, a) - NeedBy(c, a));
  }

  lemma WrappedNone(l: Balances, a: Account)
    ensures Wrapped(l, [], a) == BalanceOf(l, a)
  {
  }

  // ---- One confirmation ----

  lemma DepositLoses(l: Balances, trades: seq<Match>, m: Match)
    requires BalanceOf(l, Taker(m)) + Value(m) >= TWO_64
    ensures !CanPay(Deposit(l, Taker(m), Value(m)), trades + [m])
  {
    hide NeedBy, Value, Deposit, BalanceOf;
    NeedSnoc(trades, m, Taker(m));
    DepositWraps(l, Taker(m), Value(m));
    assert NeedBy(trades + [m], Taker(m)) >= Value(m);
  }

  lemma DepositWraps(l: Balances, a: Account, v: u64)
    requires BalanceOf(l, a) + v >= TWO_64
    ensures BalanceOf(Deposit(l, a, v), a) == BalanceOf(l, a) + v - TWO_64 < v
  {
  }

  lemma BoundedLast(trades: seq<Match>, m: Match)
    requires Bounded(trades + [m])
    ensures m.price * m.amount < TWO_64
  {
    assert (trades + [m])[|trades|] == m;
  }

  /** Confirming a trade keeps the queue covered if and only if its value and its deposit fit. */
  lemma ConfirmCoveredIff(p: Pool, m: Match)
    requires Covered(p)
    ensures Covered(Confirm(p, m))
            <==> m.price * m.amount < TWO_64 && BalanceOf(p.ledger, Taker(m)) + Value(m) < TWO_64
  {
    hide CanPay, Bounded, Value, QueuedTrades, Deposit, Enqueue;
    var trades, after := QueuedTrades(p.queues), QueuedTrades(Enqueue(p.queues, m));
    EnqueueBag(p.queues, m);
    if m.price * m.amount < TWO_64 && BalanceOf(p.ledger, Taker(m)) + Value(m) < TWO_64 { ConfirmKeepsCovered(p, m); }
    if Covered(Confirm(p, m)) {
      BoundedBag(after, trades + [m]);
      BoundedLast(trades, m);
      CanPayBag(Deposit(p.ledger, Taker(m), Value(m)), after, trades + [m]);
      if BalanceOf(p.ledger, Taker(m)) + Value(m) >= TWO_64 { DepositLoses(p.ledger, trades, m); }
    }
  }

  // ---- One chunk ----

  lemma {:induction false} SolventWhole(l: Balances, chunk: seq<Match>)
    ensures |Solvent(l, chunk)| <= |chunk| && (|Solvent(l, chunk)| == |chunk| ==> Solvent(l, chunk) == chunk)
  {
    if chunk != [] {
      SolventWhole(l, chunk[..|chunk| - 1]);
      assert chunk == chunk[..|chunk| - 1] + [chunk[|chunk| - 1]];
    }
  }

  /** How many of a chunk's trades settle. */
  function SettledCount(l: Balances, chunk: seq<Match>, prover: Prover): nat {
    var s := SettleChunk(l, chunk, prover).settled;
    if s.None? then 0 else |s.value.batch.trades|
  }

  lemma SettledLedger(l: Balances, chunk: seq<Match>, prover: Prover, a: Account)
    requires SettleChunk(l, chunk, prover).settled.Some? && Solvent(l, chunk) == chunk
    ensures BalanceOf(SettleChunk(l, chunk, prover).ledger, a) == Wrapped(l, chunk, a)
  {
    var d := DebitAll(l, chunk);
    hide Solvent, DebitAll, CreditMakers, CreditTakers, BatchOf, NeedBy, OwedTo;
    assert d.done == |chunk| && chunk[..|chunk|] == chunk;
    DebitedBalances(l, chunk, a);
    CreditedWrapped(d.ledger, chunk, a);
  }

  /** A chunk settles whole if and only if every taker's sum in it is covered; each balance is then the
      wrapped one. */
  lemma ChunkSettlesIff(l: Balances, chunk: seq<Match>, k: nat, prover: Prover)
    requires 0 < |chunk| <= k && Bounded(chunk) && Succeeds(prover, k)
    ensures SettledCount(l, chunk, prover) <= |chunk|
    ensures SettledCount(l, chunk, prover) == |chunk| <==> CanPay(l, chunk)
    ensures CanPay(l, chunk) ==>
              var o := SettleChunk(l, chunk, prover);
              o.settled.Some? && o.settled.value.batch.trades == chunk
              && forall a :: BalanceOf(o.ledger, a) == Wrapped(l, chunk, a)
  {
    var o := SettleChunk(l, chunk, prover);
    ChunkIsAtomic(l, chunk, k, prover);
    SolventWhole(l, chunk);
    BatchTradesAre(l, Solvent(l, chunk));
    hide Solvent, CanPay, SettleChunk, Succeeds, Bounded, BatchOf, Wrapped;
    if CanPay(l, chunk) {
      assert chunk + [] == chunk;
      CoveredChunkSettles(l, chunk, [], k, prover);
      forall a ensures BalanceOf(o.ledger, a) == Wrapped(l, chunk, a) { SettledLedger(l, chunk, prover, a); }
    }
  }

  lemma BatchTradesAre(l: Balances, trades: seq<Match>)
    ensures BatchOf(l, trades).trades == trades
  {
  }

  // ---- A flush ----

  /** Chunk after chunk, each account as it stands covers its part of the next one. */
  ghost predicate PaysInTurn(l: Balances, chunks: seq<seq<Match>>) {
    chunks == [] ||
    (PaysInTurn(l, chunks[..|chunks| - 1]) && PaysNext(l, Concat(chunks[..|chunks| - 1]), chunks[|chunks| - 1]))
  }

  lemma InTurnSnoc(l: Balances, init: seq<seq<Match>>, c: seq<Match>)
    ensures PaysInTurn(l, init + [c]) <==> PaysInTurn(l, init) && PaysNext(l, Concat(init), c)
  {
    assert (init + [c])[..|init|] == init;
  }

  ghost predicate Stands(l: Balances, done: seq<Match>, after: Balances) {
    forall a :: BalanceOf(after, a) == Wrapped(l, done, a)
  }

  lemma PaysNextIff(l: Balances, done: seq<Match>, after: Balances, next: seq<Match>)
    requires Stands(l, done, after)
    ensures CanPay(after, next) <==> PaysNext(l, done, next)
  {
    hide NeedBy, Wrapped;
  }

  lemma StandsNext(l: Balances, done: seq<Match>, mid: Balances, c: seq<Match>, after: Balances)
    requires Stands(l, done, mid) && forall a :: BalanceOf(after, a) == Wrapped(mid, c, a)
    ensures Stands(l, done + c, after)
  {
    forall a ensures BalanceOf(after, a) == Wrapped(l, done + c, a) {
      WrappedMore(l, done, c, a);
      hide NeedBy, OwedTo;
      assert BalanceOf(mid, a) == Wrapped(l, done, a);
    }
  }

  lemma CountSnoc(l: Balances, init: seq<seq<Match>>, c: seq<Match>, prover: Prover)
    ensures |SettleChunks(l, init + [c], prover).batch.trades| ==
            |SettleChunks(l, init, prover).batch.trades| + SettledCount(SettleChunks(l, init, prover).ledger, c, prover)
  {
    hide SettleChunks, SettleChunk;
    SettleSnoc(l, init, c, prover);
  }

  /** A flush settles everything it drained if and only if its chunks are paid in turn; each balance is
      then the wrapped one. */
  lemma {:induction false} FlushSettlesIff(l: Balances, chunks: seq<seq<Match>>, k: nat, prover: Prover)
    requires ChunksOk(chunks, k) && Bounded(Concat(chunks)) && Succeeds(prover, k)
    ensures var built := SettleChunks(l, chunks, prover);
            && |built.batch.trades| <= |Concat(chunks)|
            && (|built.batch.trades| == |Concat(chunks)| <==> PaysInTurn(l, chunks))
            && (PaysInTurn(l, chunks) ==> built.batch.trades == Concat(chunks) && Stands(l, Concat(chunks),
                built.ledger))
  {
    hide *;
    if chunks == [] {
      NothingSettled(l, prover);
      NothingDue(l);
    } else {
      var init, c := chunks[..|chunks| - 1], chunks[|chunks| - 1];
      assert chunks == init + [c];
      OkSnoc(init, c, k);
      LastChunk(init, c);
      BoundedParts(Concat(init), c);
      FlushSettlesIff(l, init, k, prover);
      var mid := SettleChunks(l, init, prover).ledger;
      ChunkSettlesIff(mid, c, k, prover);
      CountSnoc(l, init, c, prover);
      InTurnSnoc(l, init, c);
      if PaysInTurn(l, init) {
        PaysNextIff(l, Concat(init), mid, c);
        if CanPay(mid, c) {
          AfterSettling(l, init, c, prover);
          StandsNext(l, Concat(init), mid, c, SettleChunk(mid, c, prover).ledger);
        }
      }
    }
  }

  lemma NothingDue(l: Balances)
    ensures PaysInTurn(l, []) && Stands(l, [], l)
  {
    forall a ensures BalanceOf(l, a) == Wrapped(l, [], a) { WrappedNone(l, a); }
  }

  // ---- The three tiers at once ----

  /** A tier's chunks, if it is flushed and holds anything. */
  function TierChunks(trades: seq<Match>, due: bool, k: nat): seq<seq<Match>>
    requires k > 0
  {
    if !due || trades == [] then [] else ChunksOf(trades, k)
  }

  /** Instant gives up its first trade. */
  function First(q: Queues): seq<Match> {
    q.instant[..Min(1, |q.instant|)]
  }

  /** The chunks one interval drains, and what it leaves queued. */
  function Drained(q: Queues, express: bool, standard: bool, k: nat): seq<seq<Match>>
    requires k > 0
  {
    TierChunks(First(q), true, k) + TierChunks(q.express, express, k) + TierChunks(q.standard, standard, k)
  }

  function Remaining(q: Queues, express: bool, standard: bool): Queues {
    Queues(q.instant[Min(1, |q.instant|)..], if express then [] else q.express, if standard then [] else q.standard)
  }

  lemma {:induction false} SettleConcat(l: Balances, a: seq<seq<Match>>, b: seq<seq<Match>>, prover: Prover)
    ensures var first := SettleChunks(l, a, prover);
            var second, both := SettleChunks(first.ledger, b, prover), SettleChunks(l, a + b, prover);
            both.ledger == second.ledger && both.batch.trades == first.batch.trades + second.batch.trades
    decreases |b|
  {
    hide *;
    if b == [] {
      assert a + b == a;
      NothingSettled(SettleChunks(l, a, prover).ledger, prover);
    } else {
      var init, c := b[..|b| - 1], b[|b| - 1];
      assert a + b == (a + init) + [c] && b == init + [c];
      SettleConcat(l, a, init, prover);
      var mid := SettleChunks(l, a + init, prover);
      TradesSnoc(l, a + init, c, prover);
      TradesSnoc(SettleChunks(l, a, prover).ledger, init, c, prover);
    }
  }

  lemma TradesSnoc(l: Balances, init: seq<seq<Match>>, c: seq<Match>, prover: Prover)
    ensures var prev, both := SettleChunks(l, init, prover), SettleChunks(l, init + [c], prover);
            var o := SettleChunk(prev.ledger, c, prover);
            && both.ledger == o.ledger
            && both.batch.trades == prev.batch.trades + (if o.settled.None? then [] else o.settled.value.batch.trades)
  {
    hide SettleChunks, SettleChunk;
    SettleSnoc(l, init, c, prover);
  }

  /** What one flush of a tier adds, as a list of chunks. */
  ghost predicate IsSettling(p: Pool, f: Flushed, chunks: seq<seq<Match>>, prover: Prover) {
    var built := SettleChunks(p.ledger, chunks, prover);
    f.pool.ledger == built.ledger && BatchTrades(f.batches) == built.batch.trades
  }

  lemma IdleSettling(p: Pool, prover: Prover)
    ensures IsSettling(p, Flushed(p, []), [], prover)
  {
  }

  lemma OneSettling(p: Pool, rest: Queues, trades: seq<Match>, k: nat, prover: Prover)
    requires k > 0
    ensures var built := BuildBatch(p.ledger, trades, k, prover);
            IsSettling(p, Flushed(Pool(rest, built.ledger), [built.batch]), ChunksOf(trades, k), prover)
  {
    hide SettleChunks, ChunksOf;
    OneBatch(BuildBatch(p.ledger, trades, k, prover).batch);
  }

  lemma SettlingThen(p: Pool, f: Flushed, a: seq<seq<Match>>, g: Flushed, b: seq<seq<Match>>, prover: Prover)
    requires IsSettling(p, f, a, prover) && IsSettling(f.pool, g, b, prover)
    ensures IsSettling(p, Flushed(g.pool, f.batches + g.batches), a + b, prover)
  {
    hide SettleChunks, BatchTrades;
    SettleConcat(p.ledger, a, b, prover);
    BatchTradesConcat(f.batches, g.batches);
  }

  lemma ProcessIsSettling(p: Pool, express: bool, standard: bool, k: nat, prover: Prover)
    requires k > 0
    ensures var f := ProcessBatches(p, express, standard, k, prover);
            IsSettling(p, f, Drained(p.queues, express, standard, k), prover)
            && f.pool.queues == Remaining(p.queues, express, standard)
  {
    var q := p.queues;
    var a := FlushInstant(p, k, prover);
    var b := FlushExpress(a.pool, express, k, prover);
    var c := FlushStandard(b.pool, standard, k, prover);
    IdleSettling(p, prover);
    IdleSettling(a.pool, prover);
    IdleSettling(b.pool, prover);
    hide IsSettling, BuildBatch, ChunksOf;
    OneSettling(p, q.(instant := q.instant[Min(1, |q.instant|)..]), First(q), k, prover);
    OneSettling(a.pool, a.pool.queues.(express := []), q.express, k, prover);
    OneSettling(b.pool, b.pool.queues.(standard := []), q.standard, k, prover);
    var x, y := TierChunks(First(q), true, k), TierChunks(q.express, express, k);
    SettlingThen(p, a, x, b, y, prover);
    SettlingThen(p, Flushed(b.pool, a.batches + b.batches), x + y, c, TierChunks(q.standard, standard, k), prover);
  }

  lemma TierOk(trades: seq<Match>, due: bool, k: nat)
    requires k > 0
    ensures ChunksOk(TierChunks(trades, due, k), k)
    ensures multiset(trades) ==
            multiset(if due then [] else trades) + multiset(Concat(TierChunks(trades, due, k)))
    ensures due ==> multiset(trades) == multiset(Concat(TierChunks(trades, due, k)))
  {
    ChunksPartition(trades, k, 0);
    hide ChunksOf;
  }

  lemma ConcatOk(a: seq<seq<Match>>, b: seq<seq<Match>>, k: nat)
    requires ChunksOk(a, k) && ChunksOk(b, k)
    ensures ChunksOk(a + b, k) && Concat(a + b) == Concat(a) + Concat(b)
  {
    hide ChunkOk;
    ConcatAppend(a, b);
  }

  /** The drained chunks and the rest are the queue, each trade as often. */
  lemma DrainedPartition(q: Queues, express: bool, standard: bool, k: nat)
    requires k > 0
    ensures var chunks := Drained(q, express, standard, k);
            && ChunksOk(chunks, k)
            && multiset(QueuedTrades(q)) ==
               multiset(QueuedTrades(Remaining(q, express, standard))) + multiset(Concat(chunks))
  {
    hide *;
    var x, y := TierChunks(First(q), true, k), TierChunks(q.express, express, k);
    var z := TierChunks(q.standard, standard, k);
    var rest := Remaining(q, express, standard);
    TierOk(First(q), true, k);
    TierOk(q.express, express, k);
    TierOk(q.standard, standard, k);
    ConcatOk(x, y, k);
    ConcatOk(x + y, z, k);
    DrainedIs(q, express, standard, k);
    FirstAndRest(q);
    QueuedBag(q);
    QueuedBag(rest);
    ThreeBags(Concat(x), Concat(y), Concat(z));
    Regroup(multiset(q.instant), multiset(rest.instant), multiset(Concat(x)), multiset(q.express),
        multiset(rest.express),
            multiset(Concat(y)), multiset(q.standard), multiset(rest.standard), multiset(Concat(z)));
  }

  lemma DrainedIs(q: Queues, express: bool, standard: bool, k: nat)
    requires k > 0
    ensures Drained(q, express, standard, k) ==
            TierChunks(First(q), true, k) + TierChunks(q.express, express, k) + TierChunks(q.standard, standard, k)
    ensures Remaining(q, express, standard) ==
            Queues(q.instant[Min(1, |q.instant|)..], if express then [] else q.express,
                if standard then [] else q.standard)
  {
    hide TierChunks, First;
  }

  lemma QueuedBag(q: Queues)
    ensures multiset(QueuedTrades(q)) == multiset(q.instant) + multiset(q.express) + multiset(q.standard)
  {
  }

  lemma ThreeBags(a: seq<Match>, b: seq<Match>, c: seq<Match>)
    ensures multiset(a + b + c) == multiset(a) + multiset(b) + multiset(c)
  {
  }

  lemma Regroup<T>(a: multiset<T>, a': multiset<T>, x: multiset<T>, b: multiset<T>, b': multiset<T>, y: multiset<T>,
      c: multiset<T>, c': multiset<T>, z: multiset<T>)
    requires a == a' + x && b == b' + y && c == c' + z
    ensures a + b + c == (a' + b' + c') + (x + y + z)
  {
  }

  lemma FirstAndRest(q: Queues)
    ensures multiset(q.instant) == multiset(q.instant[Min(1, |q.instant|)..]) + multiset(First(q))
  {
    assert q.instant == First(q) + q.instant[Min(1, |q.instant|)..];
  }

  /** Flushing the tiers of a covered pool loses no trade, settles none twice and leaves it covered if and
      only if the drained chunks are paid in turn and the accounts then cover what stays queued. */
  lemma ProcessCoveredIff(p: Pool, express: bool, standard: bool, k: nat, prover: Prover)
    requires Covered(p) && k > 0 && Succeeds(prover, k)
    ensures var chunks := Drained(p.queues, express, standard, k);
            FlushOk(p, ProcessBatches(p, express, standard, k, prover))
            <==> PaysInTurn(p.ledger, chunks)
                 && PaysNext(p.ledger, Concat(chunks), QueuedTrades(Remaining(p.queues, express, standard)))
  {
    var chunks := Drained(p.queues, express, standard, k);
    var rest := QueuedTrades(Remaining(p.queues, express, standard));
    var f := ProcessBatches(p, express, standard, k, prover);
    ProcessIsSettling(p, express, standard, k, prover);
    DrainedPartition(p.queues, express, standard, k);
    assert multiset(QueuedTrades(p.queues)) == multiset(rest + Concat(chunks));
    assert Bounded(QueuedTrades(p.queues));
    var built := SettleChunks(p.ledger, chunks, prover);
    hide *;
    BoundedBag(QueuedTrades(p.queues), rest + Concat(chunks));
    BoundedParts(rest, Concat(chunks));
    FlushSettlesIff(p.ledger, chunks, k, prover);
    SettlingIs(p, f, chunks, prover);
    FlushOkIs(p, f);
    assert multiset(rest + Concat(chunks)) == multiset(rest) + multiset(Concat(chunks));
    SameRemainder(multiset(QueuedTrades(p.queues)), multiset(rest), BatchTrades(f.batches), Concat(chunks));
    if PaysInTurn(p.ledger, chunks) {
      PaysNextIff(p.ledger, Concat(chunks), built.ledger, rest);
    }
  }

  lemma SettlingIs(p: Pool, f: Flushed, chunks: seq<seq<Match>>, prover: Prover)
    requires IsSettling(p, f, chunks, prover)
    ensures f.pool.ledger == SettleChunks(p.ledger, chunks, prover).ledger
    ensures BatchTrades(f.batches) == SettleChunks(p.ledger, chunks, prover).batch.trades
  {
  }

  lemma FlushOkIs(p: Pool, f: Flushed)
    ensures FlushOk(p, f) <==>
            && Bounded(QueuedTrades(f.pool.queues)) && CanPay(f.pool.ledger, QueuedTrades(f.pool.queues))
            && multiset(QueuedTrades(p.queues)) ==
               multiset(QueuedTrades(f.pool.queues)) + multiset(BatchTrades(f.batches))
  {
    hide Bounded, CanPay, QueuedTrades, BatchTrades;
  }

  lemma SameRemainder(all: multiset<Match>, rest: multiset<Match>, x: seq<Match>, y: seq<Match>)
    requires all == rest + multiset(y)
    ensures all == rest + multiset(x) ==> |x| == |y|
  {
    if all == rest + multiset(x) {
      assert |multiset(x)| == |all| - |rest| == |multiset(y)|;
    }
  }

  // ---- Whole runs ----

  /** At every moment the queue is covered and every confirmed trade accounted for. */
  ghost predicate AlwaysCovered(steps: seq<Step>, k: nat, prover: Prover)
    requires k > 0
    decreases |steps|
  {
    var r := Run(steps, k, prover);
    Covered(r.pool) && Accounted(r) && (steps == [] || AlwaysCovered(steps[..|steps| - 1], k, prover))
  }

  /** What each step asks of the ledger it meets. */
  ghost predicate StepCovers(p: Pool, s: Step, k: nat)
    requires k > 0
  {
    match s
    case ConfirmStep(m) => m.price * m.amount < TWO_64 && BalanceOf(p.ledger, Taker(m)) + Value(m) < TWO_64
    case ProcessStep(express, standard) =>
      var chunks := Drained(p.queues, express, standard, k);
      && PaysInTurn(p.ledger, chunks)
      && PaysNext(p.ledger, Concat(chunks), QueuedTrades(Remaining(p.queues, express, standard)))
    case RetainStep(_) => true
  }

  ghost predicate CoversAlong(steps: seq<Step>, k: nat, prover: Prover)
    requires k > 0
    decreases |steps|
  {
    steps == [] ||
    (CoversAlong(steps[..|steps| - 1], k, prover)
     && StepCovers(Run(steps[..|steps| - 1], k, prover).pool, steps[|steps| - 1], k))
  }

  lemma ProcessAccountedIff(r: Record, f: Flushed)
    requires Accounted(r)
    ensures Accounted(r.(pool := f.pool, settled := r.settled + BatchTrades(f.batches)))
            <==> multiset(QueuedTrades(r.pool.queues)) ==
                 multiset(QueuedTrades(f.pool.queues)) + multiset(BatchTrades(f.batches))
  {
    hide QueuedTrades, BatchTrades;
    var q, q', x := multiset(QueuedTrades(r.pool.queues)), multiset(QueuedTrades(f.pool.queues)),
        multiset(BatchTrades(f.batches));
    var s, w := multiset(r.settled), multiset(r.withdrawn);
    assert multiset(r.settled + BatchTrades(f.batches)) == s + x;
    CancelBag(q, q' + x, s + w);
    assert q + s + w == q + (s + w) && q' + (s + x) + w == (q' + x) + (s + w);
  }

  lemma StepCoveredIff(r: Record, s: Step, k: nat, prover: Prover)
    requires Covered(r.pool) && Accounted(r) && k > 0 && Succeeds(prover, k)
    ensures var r' := Do(r, s, k, prover); Covered(r'.pool) && Accounted(r') <==> StepCovers(r.pool, s, k)
  {
    hide Covered, Accounted, ProcessBatches, RetainPending, RemovedTrades, Confirm, BatchTrades, Succeeds, Value,
        Drained,
         Remaining, PaysInTurn, PaysNext, Concat, QueuedTrades;
    match s
    case ConfirmStep(m) =>
      ConfirmCoveredIff(r.pool, m);
      ConfirmAccounted(r, m);
    case ProcessStep(express, standard) =>
      var f := ProcessBatches(r.pool, express, standard, k, prover);
      ProcessCoveredIff(r.pool, express, standard, k, prover);
      ProcessAccountedIff(r, f);
    case RetainStep(dropped) =>
      RetainKeepsCovered(r.pool, dropped);
      RetainAccounted(r, dropped);
  }

  /** Over every run from an empty batcher, with a prover that succeeds: the queue is covered and every
      confirmed trade queued, settled or withdrawn throughout if and only if each deposit fits and each
      flush meets accounts that, wrapped as they are, pay its chunks in turn and cover what stays. */
  lemma {:induction false} RunCoveredIff(steps: seq<Step>, k: nat, prover: Prover)
    requires k > 0 && Succeeds(prover, k)
    ensures AlwaysCovered(steps, k, prover) <==> CoversAlong(steps, k, prover)
    decreases |steps|
  {
    if steps == [] {
      EmptyAccounted();
    } else {
      var init := steps[..|steps| - 1];
      RunCoveredIff(init, k, prover);
      hide Covered, Accounted, Succeeds, StepCovers, Do;
      if AlwaysCovered(init, k, prover) {
        StepCoveredIff(Run(init, k, prover), steps[|steps| - 1], k, prover);
      }
    }
  }

  // ---- A chunk queued again after its submission failed ----

  /** A failed submission queues its chunk again but leaves the ledger as the chunk's settlement left it.
      The queue is still payable if and only if each account, as it then stands, covers the chunk a second
      time. */
  lemma RequeuedPayableIff(l: Balances, chunk: seq<Match>, rest: seq<Match>, k: nat, prover: Prover)
    requires 0 < |chunk| <= k && Bounded(chunk) && Succeeds(prover, k) && CanPay(l, chunk)
    ensures CanPay(SettleChunk(l, chunk, prover).ledger, rest + chunk) <==> PaysNext(l, chunk, rest + chunk)
  {
    hide *;
    ChunkSettlesIff(l, chunk, k, prover);
    StandsAre(l, chunk, SettleChunk(l, chunk, prover).ledger);
    PaysNextIff(l, chunk, SettleChunk(l, chunk, prover).ledger, rest + chunk);
  }

  lemma StandsAre(l: Balances, done: seq<Match>, after: Balances)
    requires forall a :: BalanceOf(after, a) == Wrapped(l, done, a)
    ensures Stands(l, done, after)
  {
  }

  /** A taker funded for exactly its trades, and credited by none in the chunk, cannot pay it again. */
  lemma ExactlyFundedCannotRepeat(l: Balances, chunk: seq<Match>, rest: seq<Match>, k: nat, prover: Prover, a: Account)
    requires 0 < |chunk| <= k && Bounded(chunk) && Succeeds(prover, k) && CanPay(l, chunk)
    requires BalanceOf(l, a) == NeedBy(chunk, a) + NeedBy(rest, a) && OwedTo(chunk, a) == 0 && NeedBy(chunk, a) > 0
    ensures !CanPay(SettleChunk(l, chunk, prover).ledger, rest + chunk)
  {
    hide *;
    RequeuedPayableIff(l, chunk, rest, k, prover);
    NeedConcat(rest, chunk, a);
    SpentExactly(l, chunk, rest, a);
    if PaysNext(l, chunk, rest + chunk) { PaysNextAt(l, chunk, rest + chunk, a); }
  }

  lemma SpentExactly(l: Balances, chunk: seq<Match>, rest: seq<Match>, a: Account)
    requires BalanceOf(l, a) == NeedBy(chunk, a) + NeedBy(rest, a) && OwedTo(chunk, a) == 0
    ensures Wrapped(l, chunk, a) == NeedBy(rest, a)
  {
    hide NeedBy, OwedTo;
  }

  lemma PaysNextAt(l: Balances, done: seq<Match>, next: seq<Match>, a: Account)
    requires PaysNext(l, done, next)
    ensures NeedBy(next, a) <= Wrapped(l, done, a)
  {
  }
}
