/** The batcher as it runs: tier queues updated in place, loops over groups, chunks and trades, and a
    ledger object debited and credited trade by trade. */
module MutableBatcher {
  import opened Types
  import opened Ledger
  import opened Chunks
  import opened Batcher
  import opened Settlement
  import opened SettlementRuns

  method GroupTrades(trades: seq<Match>) returns (gs: seq<Group>)
    ensures gs == GroupByNode(trades)
  {
    gs := [];
    assert trades[..0] == [];
    for i := 0 to |trades|
      invariant gs == GroupByNode(trades[..i])
    {
      assert trades[..i + 1][..i] == trades[..i];
      gs := PushTo(gs, trades[i]);
    }
    assert trades[..|trades|] == trades;
  }

  method CutTrades(trades: seq<Match>, k: nat) returns (chunks: seq<seq<Match>>)
    requires k > 0
    ensures chunks == Cut(trades, k)
  {
    chunks := [];
    var rest := trades;
    while rest != []
      invariant chunks + Cut(rest, k) == Cut(trades, k)
      decreases |rest|
    {
      var n := Min(k, |rest|);
      ConcatAssociates(chunks, [rest[..n]], Cut(rest[n..], k));
      chunks, rest := chunks + [rest[..n]], rest[n..];
    }
  }

  method CutGroups(gs: seq<Group>, k: nat) returns (chunks: seq<seq<Match>>)
    requires k > 0
    ensures chunks == CutAll(gs, k)
    ensures GroupsOk(gs) ==> ChunksOk(chunks, k) && Packed(chunks, k) && Concat(chunks) == Members(gs)
  {
    if GroupsOk(gs) {
      CutAllIsOk(gs, k);
      CutAllPacked(gs, k, 0);
    }
    hide GroupsOk, ChunksOk, Packed, Concat, Members, Cut;
    chunks := [];
    assert gs[0..] == gs;
    for i := 0 to |gs|
      invariant chunks + CutAll(gs[i..], k) == CutAll(gs, k)
    {
      assert gs[i..][1..] == gs[i + 1..];
      var cut := CutTrades(gs[i].trades, k);
      ConcatAssociates(chunks, cut, CutAll(gs[i + 1..], k));
      chunks := chunks + cut;
    }
  }

  /** The per-trade filter with the balances it read. */
  method FilterChunk(l: Balances, chunk: seq<Match>) returns (batch: TradeBatch)
    ensures batch == BatchOf(l, Solvent(l, chunk))
    ensures Filters(batch.trades, chunk, Payable(l, chunk)) && Describes(batch, l)
  {
    SolventIs(l, chunk);
    hide Filters, Payable;
    var trades, makers, takers := [], [], [];
    assert chunk[..0] == [];
    for i := 0 to |chunk|
      invariant trades == Solvent(l, chunk[..i])
      invariant makers == BatchOf(l, trades).makerBalances && takers == BatchOf(l, trades).takerBalances
    {
      assert chunk[..i + 1][..i] == chunk[..i];
      var m := chunk[i];
      if Value(m) <= BalanceOf(l, Taker(m)) {
        trades, makers, takers := trades + [m], makers + [BalanceOf(l, Maker(m))], takers + [BalanceOf(l, Taker(m))];
      }
    }
    assert chunk[..|chunk|] == chunk;
    var total := TotalOf(trades);
    batch := TradeBatch(trades, makers, takers, total);
  }

  method TotalOf(trades: seq<Match>) returns (total: u64)
    ensures total == SumValues(trades) % TWO_64
  {
    hide Value;
    total := 0;
    assert trades[..0] == [];
    for i := 0 to |trades|
      invariant total == SumValues(trades[..i]) % TWO_64
    {
      assert trades[..i + 1][..i] == trades[..i];
      WrapSum(SumValues(trades[..i]), Value(trades[i]));
      total := (total + Value(trades[i])) % TWO_64;
    }
    assert trades[..|trades|] == trades;
  }

  class SettlementBatcher {
    var instant: seq<Match>
    var express: seq<Match>
    var standard: seq<Match>
    const expressBatchSize: nat
    const standardBatchSize: nat
    const ledger: BalanceLedger

    function View(): Pool
      reads this, ledger
    {
      Pool(Queues(instant, express, standard), ledger.balances)
    }

    constructor (expressBatchSize: nat, standardBatchSize: nat, ledger: BalanceLedger)
      ensures this.expressBatchSize == expressBatchSize && this.standardBatchSize == standardBatchSize
      ensures this.ledger == ledger && View() == Pool(EMPTY_QUEUES, ledger.balances)
    {
      instant, express, standard := [], [], [];
      this.expressBatchSize, this.standardBatchSize, this.ledger := expressBatchSize, standardBatchSize, ledger;
    }

    method EnqueueTrade(m: Match)
      modifies this
      ensures View() == old(View()).(queues := Enqueue(old(View()).queues, m))
    {
      match m.tier
      case Instant => instant := instant + [m];
      case Express => express := express + [m];
      case Standard => standard := standard + [m];
    }

    /** The effect of a confirmed commitment on the batcher. */
    method ConfirmTrade(m: Match)
      modifies this, ledger
      ensures View() == Confirm(old(View()), m)
    {
      ledger.DepositTo(Taker(m), Value(m));
      EnqueueTrade(m);
    }

    static method KeepIn(queue: seq<Match>, dropped: set<Key>) returns (kept: seq<Match>)
      ensures kept == Keep(queue, dropped)
    {
      kept := [];
      assert queue[..0] == [];
      for i := 0 to |queue|
        invariant kept == Keep(queue[..i], dropped)
      {
        assert queue[..i + 1][..i] == queue[..i];
        if KeyOf(queue[i]) !in dropped {
          kept := kept + [queue[i]];
        }
      }
      assert queue[..|queue|] == queue;
    }

    method Retain(dropped: set<Key>)
      modifies this
      ensures View() == old(View()).(queues := RetainPending(old(View()).queues, dropped))
    {
      instant := KeepIn(instant, dropped);
      express := KeepIn(express, dropped);
      standard := KeepIn(standard, dropped);
    }

    /** First phase: debit every taker, stopping at the first that cannot pay. */
    method DebitTakers(trades: seq<Match>) returns (done: nat)
      modifies ledger
      ensures Debits(ledger.balances, done) == DebitAll(old(ledger.balances), trades)
    {
      done := 0;
      assert trades[..0] == [];
      while done < |trades|
        invariant done <= |trades|
        invariant Debits(ledger.balances, done) == DebitAll(old(ledger.balances), trades[..done])
      {
        assert trades[..done + 1] == trades[..done] + [trades[done]];
        DebitSnoc(old(ledger.balances), trades[..done], trades[done]);
        var ok := ledger.DebitFrom(Taker(trades[done]), Value(trades[done]));
        if !ok {
          StuckDebits(old(ledger.balances), trades, done + 1);
          return;
        }
        done := done + 1;
      }
      assert trades[..|trades|] == trades;
    }

    method CreditEach(trades: seq<Match>, toMakers: bool)
      modifies ledger
      ensures ledger.balances == if toMakers then CreditMakers(old(ledger.balances), trades)
                                 else CreditTakers(old(ledger.balances), trades)
    {
      assert trades[..0] == [];
      for i := 0 to |trades|
        invariant ledger.balances == if toMakers then CreditMakers(old(ledger.balances), trades[..i])
                                     else CreditTakers(old(ledger.balances), trades[..i])
      {
        assert trades[..i + 1][..i] == trades[..i];
        ledger.DepositTo(if toMakers then Maker(trades[i]) else Taker(trades[i]), Value(trades[i]));
      }
      assert trades[..|trades|] == trades;
    }

    /** One chunk, two phases: all debits, then all credits, or a full rollback. */
    method SettleOne(chunk: seq<Match>, prover: Prover) returns (settled: Option<Settled>)
      modifies ledger
      ensures Outcome(ledger.balances, settled) == SettleChunk(old(ledger.balances), chunk, prover)
    {
      hide Solvent, DebitAll, CreditMakers, CreditTakers;
      var batch := FilterChunk(ledger.balances, chunk);
      if batch.trades == [] { return None; }
      match prover(batch) {
        case None => return None;
        case Some(proof) =>
          var done := DebitTakers(batch.trades);
          if done < |batch.trades| {
            CreditEach(batch.trades[..done], false);
            return None;
          }
          CreditEach(batch.trades, true);
          return Some(Settled(batch, proof));
      }
    }

    method Build(trades: seq<Match>, k: nat, prover: Prover) returns (batch: SettlementBatch)
      requires k > 0
      modifies ledger
      ensures Built(ledger.balances, batch) == BuildBatch(old(ledger.balances), trades, k, prover)
    {
      hide SettleChunk, GroupByNode, CutAll;
      batch := EMPTY_BATCH;
      var gs := GroupTrades(trades);
      var chunks := CutGroups(gs, k);
      assert chunks[..0] == [];
      for i := 0 to |chunks|
        invariant Built(ledger.balances, batch) == SettleChunks(old(ledger.balances), chunks[..i], prover)
      {
        assert chunks[..i + 1][..i] == chunks[..i];
        var settled := SettleOne(chunks[i], prover);
        match settled
        case None =>
        case Some(s) => batch := AddSettled(batch, s);
      }
      assert chunks[..|chunks|] == chunks;
    }

    method Process(expressElapsed: bool, standardElapsed: bool, k: nat, prover: Prover)
      returns (batches: seq<SettlementBatch>)
      requires k > 0
      modifies this, ledger
      ensures Flushed(View(), batches) == ProcessBatches(old(View()),
                old(|express|) >= expressBatchSize || expressElapsed,
                old(|standard|) >= standardBatchSize || standardElapsed, k, prover)
    {
      hide BuildBatch;
      batches := [];
      if instant != [] {
        var first := instant[..1];
        instant := instant[1..];
        var b := Build(first, k, prover);
        batches := batches + [b];
      }
      if (|express| >= expressBatchSize || expressElapsed) && express != [] {
        var drained := express;
        express := [];
        var b := Build(drained, k, prover);
        batches := batches + [b];
      }
      if (|standard| >= standardBatchSize || standardElapsed) && standard != [] {
        var drained := standard;
        standard := [];
        var b := Build(drained, k, prover);
        batches := batches + [b];
      }
    }
  }

  lemma {:induction false} StuckDebits(l: Balances, trades: seq<Match>, n: nat)
    requires n <= |trades| && DebitAll(l, trades[..n]).done < n
    ensures DebitAll(l, trades) == DebitAll(l, trades[..n])
    decreases |trades|
  {
    if n == |trades| {
      assert trades[..n] == trades;
    } else {
      var init := trades[..|trades| - 1];
      assert init[..n] == trades[..n];
      StuckDebits(l, init, n);
    }
  }
}
