/** From a flush to the chain: the chunks it hands over, the hashes submitting one consumes, what a
    failed submission puts back, and what reconciliation with the chain removes. */
module SettlementLoop {
  import opened Types
  import opened Fees
  import opened Ledger
  import opened Chunks
  import opened Batcher
  import opened Settlement
  import opened SettlementRuns

  // ---- What a flush hands over ----

  /** The proven chunks of a flush, in the order they are submitted. */
  function ProvenChunks(bs: seq<SettlementBatch>): seq<seq<Match>> {
    if bs == [] then [] else ProvenChunks(bs[..|bs| - 1]) + TradesOf(bs[|bs| - 1].batches)
  }

  lemma {:induction false} SolventBag(l: Balances, chunk: seq<Match>)
    ensures multiset(Solvent(l, chunk)) <= multiset(chunk)
  {
    if chunk != [] {
      SolventBag(l, chunk[..|chunk| - 1]);
      assert chunk == chunk[..|chunk| - 1] + [chunk[|chunk| - 1]];
    }
  }

  lemma SettledTrades(l: Balances, chunk: seq<Match>, prover: Prover)
    ensures var s := SettleChunk(l, chunk, prover).settled;
            s.Some? ==> multiset(s.value.batch.trades) <= multiset(chunk)
  {
    SolventBag(l, chunk);
    hide Solvent, DebitAll, CreditMakers, CreditTakers;
  }

  lemma ConcatSnoc(chunks: seq<seq<Match>>, c: seq<Match>)
    ensures Concat(chunks + [c]) == Concat(chunks) + c
  {
    ConcatAppend(chunks, [c]);
    assert [c][1..] == [];
    assert Concat([c]) == c;
  }

  lemma {:induction false} SettledBag(l: Balances, chunks: seq<seq<Match>>, prover: Prover)
    ensures multiset(SettleChunks(l, chunks, prover).batch.trades) <= multiset(Concat(chunks))
  {
    if chunks != [] {
      var init, c := chunks[..|chunks| - 1], chunks[|chunks| - 1];
      assert chunks == init + [c];
      SettledBag(l, init, prover);
      hide SettleChunks, SettleChunk, Concat;
      SettleSnoc(l, init, c, prover);
      SettledTrades(SettleChunks(l, init, prover).ledger, c, prover);
      ConcatSnoc(init, c);
    }
  }

  /** A flush settles only trades it drained, each as often at most. */
  lemma BuiltBag(l: Balances, trades: seq<Match>, k: nat, prover: Prover)
    requires k > 0
    ensures var b := BuildBatch(l, trades, k, prover).batch;
            multiset(b.trades) <= multiset(trades) && Concat(ProvenChunks([b])) == b.trades
  {
    var b := BuildBatch(l, trades, k, prover).batch;
    ChunksPartition(trades, k, 0);
    SettledBag(l, ChunksOf(trades, k), prover);
    BatchLayout(l, trades, k, prover);
    assert [b][..0] == [];
    assert [] + TradesOf(b.batches) == TradesOf(b.batches);
    hide BuildBatch, SettleChunks, ChunksOf, Concat;
  }

  lemma {:induction false} ProvenConcat(a: seq<SettlementBatch>, b: seq<SettlementBatch>)
    ensures Concat(ProvenChunks(a + b)) == Concat(ProvenChunks(a)) + Concat(ProvenChunks(b))
  {
    if b == [] {
      assert a + b == a;
    } else {
      var init, x := b[..|b| - 1], b[|b| - 1];
      assert (a + b)[..|a + b| - 1] == a + init;
      ProvenConcat(a, init);
      ConcatAppend(ProvenChunks(a + init), TradesOf(x.batches));
      ConcatAppend(ProvenChunks(init), TradesOf(x.batches));
      hide Concat;
      ConcatAssociates(Concat(ProvenChunks(a)), Concat(ProvenChunks(init)), Concat(TradesOf(x.batches)));
    }
  }

  /** What stays queued and what is handed over was queued before, each as often at most. */
  ghost predicate Hands(p: Pool, f: Flushed) {
    multiset(QueuedTrades(f.pool.queues)) + multiset(Concat(ProvenChunks(f.batches)))
    <= multiset(QueuedTrades(p.queues))
  }

  lemma HandsNothing(p: Pool)
    ensures Hands(p, Flushed(p, []))
  {
  }

  lemma HandsOne(p: Pool, drained: seq<Match>, rest: Queues, k: nat, prover: Prover)
    requires k > 0 && multiset(QueuedTrades(p.queues)) == multiset(drained + QueuedTrades(rest))
    ensures var built := BuildBatch(p.ledger, drained, k, prover); Hands(p, Flushed(Pool(rest, built.ledger),
        [built.batch]))
  {
    hide BuildBatch, QueuedTrades, Concat, ProvenChunks;
    BuiltBag(p.ledger, drained, k, prover);
  }

  lemma HandsThen(p: Pool, f: Flushed, g: Flushed)
    requires Hands(p, f) && Hands(f.pool, g)
    ensures Hands(p, Flushed(g.pool, f.batches + g.batches))
  {
    hide QueuedTrades, Concat, ProvenChunks;
    ProvenConcat(f.batches, g.batches);
  }

  lemma InstantHands(p: Pool, k: nat, prover: Prover)
    requires k > 0
    ensures Hands(p, FlushInstant(p, k, prover))
  {
    HandsNothing(p);
    var q := p.queues;
    if q.instant != [] {
      var rest := q.(instant := q.instant[1..]);
      assert QueuedTrades(q) == q.instant[..1] + QueuedTrades(rest);
      hide BuildBatch, QueuedTrades, Hands;
      HandsOne(p, q.instant[..1], rest, k, prover);
    }
  }

  lemma ExpressHands(p: Pool, due: bool, k: nat, prover: Prover)
    requires k > 0
    ensures Hands(p, FlushExpress(p, due, k, prover))
  {
    HandsNothing(p);
    var q := p.queues;
    SwapBag(q.instant, q.express, q.standard);
    hide BuildBatch, Hands;
    if due && q.express != [] { HandsOne(p, q.express, q.(express := []), k, prover); }
  }

  lemma StandardHands(p: Pool, due: bool, k: nat, prover: Prover)
    requires k > 0
    ensures Hands(p, FlushStandard(p, due, k, prover))
  {
    HandsNothing(p);
    var q := p.queues;
    SwapBag(q.instant, q.express, q.standard);
    hide BuildBatch, Hands;
    if due && q.standard != [] { HandsOne(p, q.standard, q.(standard := []), k, prover); }
  }

  /** Whatever the ledger and the prover do, one interval hands the settlement loop only trades it took
      from the queues, and no trade more often than it was queued. */
  lemma ProcessHands(p: Pool, express: bool, standard: bool, k: nat, prover: Prover)
    requires k > 0
    ensures Hands(p, ProcessBatches(p, express, standard, k, prover))
  {
    hide FlushInstant, FlushExpress, FlushStandard, Hands;
    InstantHands(p, k, prover);
    var a := FlushInstant(p, k, prover);
    ExpressHands(a.pool, express, k, prover);
    var b := FlushExpress(a.pool, express, k, prover);
    StandardHands(b.pool, standard, k, prover);
    var c := FlushStandard(b.pool, standard, k, prover);
    HandsThen(p, a, b);
    HandsThen(p, Flushed(b.pool, a.batches + b.batches), c);
  }

  // ---- Submitting a chunk ----

  datatype SettlementTrade = SettlementTrade(
    makerId: Id, takerId: Id, trader: Id, counterparty: Id, amount: u64, fee: u64, deadline: nat,
    tradeHash: Id, assignedNode: Id)

  /** A trader's on-chain account, if it is known yet. */
  type Resolver = Id -> Option<Id>

  function Payer(m: Match): Id {
    if m.feePayer == m.makerTrader then m.makerTrader else m.takerTrader
  }

  function Counterparty(m: Match): Id {
    if m.feePayer == m.makerTrader then m.takerTrader else m.makerTrader
  }

  /** When the fee payer is one of the two traders, as matching guarantees, they are the account that
      pays and the other trader is the counterparty. */
  lemma FeePayerPays(m: Match)
    requires m.feePayer in {m.makerTrader, m.takerTrader} && m.makerTrader != m.takerTrader
    ensures Payer(m) == m.feePayer && Counterparty(m) != m.feePayer
    ensures {Payer(m), Counterparty(m)} == {m.makerTrader, m.takerTrader}
  {
  }

  predicate Resolvable(m: Match, resolve: Resolver) {
    resolve(Payer(m)).Some? && resolve(Counterparty(m)).Some?
  }

  function TradeFor(m: Match, resolve: Resolver, tradeHash: Id): SettlementTrade
    requires Resolvable(m, resolve)
  {
    SettlementTrade(m.makerId, m.takerId, resolve(Payer(m)).value, resolve(Counterparty(m)).value,
                    (m.price * m.amount) % TWO_64, SettlementFee(m.amount, m.price, m.feeBps), m.deadline,
                    tradeHash, m.assignedNode)
  }

  datatype Prepared = Prepared(hashes: map<Key, Id>, trades: seq<SettlementTrade>, ok: bool)

  /** Trade by trade: take its hash out, then resolve both accounts; stop at the first failure. */
  function Prepare(hashes: map<Key, Id>, chunk: seq<Match>, resolve: Resolver): Prepared
    decreases |chunk|
  {
    if chunk == [] then Prepared(hashes, [], true)
    else
      var prev, m := Prepare(hashes, chunk[..|chunk| - 1], resolve), chunk[|chunk| - 1];
      if !prev.ok then prev
      else if KeyOf(m) !in prev.hashes then prev.(ok := false)
      else if !Resolvable(m, resolve) then Prepared(prev.hashes - {KeyOf(m)}, prev.trades, false)
      else Prepared(prev.hashes - {KeyOf(m)}, prev.trades + [TradeFor(m, resolve, prev.hashes[KeyOf(m)])], true)
  }

  ghost predicate DistinctTrades(chunk: seq<Match>) {
    forall i, j :: 0 <= i < j < |chunk| ==> KeyOf(chunk[i]) != KeyOf(chunk[j])
  }

  function ChunkKeys(chunk: seq<Match>): set<Key> {
    set i | 0 <= i < |chunk| :: KeyOf(chunk[i])
  }

  /** Every hash is confirmed and both traders of every trade have a known account. */
  ghost predicate AllReady(hashes: map<Key, Id>, chunk: seq<Match>, resolve: Resolver) {
    forall i :: 0 <= i < |chunk| ==> Ready(hashes, chunk[i], resolve)
  }

  ghost predicate Ready(hashes: map<Key, Id>, m: Match, resolve: Resolver) {
    (m.makerId, m.takerId) in hashes && resolve(m.makerTrader).Some? && resolve(m.takerTrader).Some?
  }

  /** What the chain is given for a match, field by field. The fee payer's account is the trader's and the
      other trader's the counterparty's; amount and fee are the match's notional and its share in basis
      points, exact while they fit 64 bits and wrapped otherwise. */
  ghost predicate Submits(t: SettlementTrade, m: Match, resolve: Resolver, tradeHash: Id) {
    && t.makerId == m.makerId && t.takerId == m.takerId
    && (m.feePayer == m.makerTrader ==>
          resolve(m.makerTrader) == Some(t.trader) && resolve(m.takerTrader) == Some(t.counterparty))
    && (m.feePayer != m.makerTrader ==>
          resolve(m.takerTrader) == Some(t.trader) && resolve(m.makerTrader) == Some(t.counterparty))
    && (m.price * m.amount - t.amount) % TWO_64 == 0
    && (m.price * m.amount < TWO_64 ==> t.amount == m.price * m.amount)
    && (t.amount * m.feeBps < TWO_64 ==> t.fee * 10_000 <= t.amount * m.feeBps < (t.fee + 1) * 10_000)
    && t.fee * 10_000 <= (t.amount * m.feeBps) % TWO_64 < (t.fee + 1) * 10_000
    && t.deadline == m.deadline && t.assignedNode == m.assignedNode && t.tradeHash == tradeHash
  }

  lemma TradeSubmits(m: Match, resolve: Resolver, tradeHash: Id)
    requires Resolvable(m, resolve)
    ensures Submits(TradeFor(m, resolve, tradeHash), m, resolve, tradeHash)
  {
    hide SettlementFee;
    Wrapped(m.price * m.amount);
    FeeWhole(m.amount, m.price, m.feeBps);
  }

  lemma Wrapped(x: nat)
    ensures (x - x % TWO_64) % TWO_64 == 0 && (x < TWO_64 ==> x % TWO_64 == x)
  {
  }

  lemma FeeWhole(amount: u64, price: u64, bps: nat)
    ensures var w := (((price * amount) % TWO_64) * bps) % TWO_64;
            var fee := SettlementFee(amount, price, bps);
            fee * 10_000 <= w < (fee + 1) * 10_000
    ensures ((price * amount) % TWO_64) * bps < TWO_64 ==>
              (((price * amount) % TWO_64) * bps) % TWO_64 == ((price * amount) % TWO_64) * bps
  {
    Wrapped(((price * amount) % TWO_64) * bps);
  }

  ghost predicate TradesFor(trades: seq<SettlementTrade>, hashes: map<Key, Id>, chunk: seq<Match>, resolve: Resolver) {
    && |trades| == |chunk|
    && forall i :: 0 <= i < |chunk| ==>
         KeyOf(chunk[i]) in hashes && Submits(trades[i], chunk[i], resolve, hashes[KeyOf(chunk[i])])
  }

  lemma ChunkSnoc(init: seq<Match>, m: Match)
    ensures DistinctTrades(init + [m]) <==> DistinctTrades(init) && KeyOf(m) !in ChunkKeys(init)
    ensures ChunkKeys(init + [m]) == ChunkKeys(init) + {KeyOf(m)}
  {
    var chunk := init + [m];
    assert forall i :: 0 <= i < |init| ==> chunk[i] == init[i];
    assert chunk[|init|] == m;
    forall k | k in ChunkKeys(init) ensures k in ChunkKeys(chunk) {
      var i :| 0 <= i < |init| && KeyOf(init[i]) == k;
      assert KeyOf(chunk[i]) == k;
    }
    assert KeyOf(chunk[|init|]) in ChunkKeys(chunk);
    if DistinctTrades(chunk) {
      forall i, j | 0 <= i < j < |init| ensures KeyOf(init[i]) != KeyOf(init[j]) {
        assert KeyOf(chunk[i]) != KeyOf(chunk[j]);
      }
    }
  }

  /** A chunk is prepared if and only if its trades are distinct, every hash is there and every account is
      known; then exactly its hashes are consumed, each by its own trade, and the trades say what the
      matches say. */
  lemma {:induction false} PreparedIff(hashes: map<Key, Id>, chunk: seq<Match>, resolve: Resolver)
    ensures var p := Prepare(hashes, chunk, resolve);
            && (p.ok <==> DistinctTrades(chunk) && AllReady(hashes, chunk, resolve))
            && (p.ok ==> p.hashes == hashes - ChunkKeys(chunk) && TradesFor(p.trades, hashes, chunk, resolve))
    decreases |chunk|
  {
    hide *;
    if chunk == [] {
      NothingPrepared(hashes, resolve);
    } else {
      var init, m := chunk[..|chunk| - 1], chunk[|chunk| - 1];
      assert chunk == init + [m];
      ChunkSnoc(init, m);
      PreparedIff(hashes, init, resolve);
      PrepareSnoc(hashes, init, m, resolve);
      ReadySnoc(hashes, init, m, resolve);
      WithoutKeys(hashes, ChunkKeys(init), KeyOf(m));
      if Prepare(hashes, init, resolve).ok && KeyOf(m) in hashes && Resolvable(m, resolve) {
        TradesSnoc(Prepare(hashes, init, resolve).trades, hashes, init, m, resolve);
      }
    }
  }

  lemma NothingPrepared(hashes: map<Key, Id>, resolve: Resolver)
    ensures Prepare(hashes, [], resolve) == Prepared(hashes - ChunkKeys([]), [], true)
    ensures DistinctTrades([]) && AllReady(hashes, [], resolve) && TradesFor([], hashes, [], resolve)
  {
    assert hashes - ChunkKeys([]) == hashes;
  }

  lemma WithoutKeys(hashes: map<Key, Id>, ks: set<Key>, k: Key)
    ensures (hashes - ks) - {k} == hashes - (ks + {k})
    ensures k in hashes - ks <==> k in hashes && k !in ks
    ensures k in hashes - ks ==> (hashes - ks)[k] == hashes[k]
  {
  }

  lemma PrepareSnoc(hashes: map<Key, Id>, init: seq<Match>, m: Match, resolve: Resolver)
    ensures var prev, p := Prepare(hashes, init, resolve), Prepare(hashes, init + [m], resolve);
            && (p.ok <==> prev.ok && KeyOf(m) in prev.hashes && Resolvable(m, resolve))
            && (p.ok ==> p.hashes == prev.hashes - {KeyOf(m)}
                         && p.trades == prev.trades + [TradeFor(m, resolve, prev.hashes[KeyOf(m)])])
  {
    hide TradeFor, Resolvable;
    assert (init + [m])[..|init + [m]| - 1] == init;
  }

  lemma TradesSnoc(trades: seq<SettlementTrade>, hashes: map<Key, Id>, init: seq<Match>, m: Match, resolve: Resolver)
    requires TradesFor(trades, hashes, init, resolve) && KeyOf(m) in hashes && Resolvable(m, resolve)
    ensures TradesFor(trades + [TradeFor(m, resolve, hashes[KeyOf(m)])], hashes, init + [m], resolve)
  {
    TradeSubmits(m, resolve, hashes[KeyOf(m)]);
    hide Submits, TradeFor;
  }

  lemma ReadySnoc(hashes: map<Key, Id>, init: seq<Match>, m: Match, resolve: Resolver)
    ensures AllReady(hashes, init + [m], resolve)
            <==> (AllReady(hashes, init, resolve) && KeyOf(m) in hashes && Resolvable(m, resolve))
  {
    assert Ready(hashes, m, resolve) <==> KeyOf(m) in hashes && Resolvable(m, resolve);
    hide Ready;
    assert forall i :: 0 <= i < |init| ==> (init + [m])[i] == init[i];
    assert (init + [m])[|init|] == m;
  }

  /** When a chunk is refused, some confirmed hashes may already be gone. */
  lemma {:induction false} RefusedConsumes(hashes: map<Key, Id>, chunk: seq<Match>, resolve: Resolver)
    requires chunk != []
    ensures var p := Prepare(hashes, chunk, resolve);
            && p.hashes.Keys <= hashes.Keys
            && (KeyOf(chunk[0]) in hashes ==> KeyOf(chunk[0]) !in p.hashes)
            && (KeyOf(chunk[0]) !in hashes ==> p.hashes == hashes && !p.ok)
    decreases |chunk|
  {
    if |chunk| == 1 {
      assert chunk[..0] == [];
    } else {
      RefusedConsumes(hashes, chunk[..|chunk| - 1], resolve);
    }
  }

  /** A refused chunk leaves the confirmed hashes as they were if and only if its very first hash was
      missing. */
  lemma RefusedUnchangedIff(hashes: map<Key, Id>, chunk: seq<Match>, resolve: Resolver)
    requires chunk != [] && !Prepare(hashes, chunk, resolve).ok
    ensures Prepare(hashes, chunk, resolve).hashes == hashes <==> KeyOf(chunk[0]) !in hashes
  {
    hide Prepare;
    RefusedConsumes(hashes, chunk, resolve);
  }

  method BuildSettlementTrades(hashes: map<Key, Id>, chunk: seq<Match>, resolve: Resolver)
    returns (left: map<Key, Id>, out: Option<seq<SettlementTrade>>)
    ensures left == Prepare(hashes, chunk, resolve).hashes
    ensures out == if Prepare(hashes, chunk, resolve).ok then Some(Prepare(hashes, chunk, resolve).trades) else None
    ensures out.Some? <==> DistinctTrades(chunk) && AllReady(hashes, chunk, resolve)
    ensures out.Some? ==> left == hashes - ChunkKeys(chunk) && TradesFor(out.value, hashes, chunk, resolve)
  {
    PreparedIff(hashes, chunk, resolve);
    hide DistinctTrades, AllReady, ChunkKeys, TradesFor;
    left := hashes;
    var trades := [];
    assert chunk[..0] == [];
    for i := 0 to |chunk|
      invariant Prepare(hashes, chunk[..i], resolve) == Prepared(left, trades, true)
    {
      var m := chunk[i];
      assert chunk[..i + 1][..i] == chunk[..i];
      if KeyOf(m) !in left {
        StaysRefused(hashes, chunk, i + 1, resolve);
        return left, None;
      }
      var tradeHash := left[KeyOf(m)];
      left := left - {KeyOf(m)};
      if !Resolvable(m, resolve) {
        StaysRefused(hashes, chunk, i + 1, resolve);
        return left, None;
      }
      trades := trades + [TradeFor(m, resolve, tradeHash)];
    }
    assert chunk[..|chunk|] == chunk;
    out := Some(trades);
  }

  lemma {:induction false} StaysRefused(hashes: map<Key, Id>, chunk: seq<Match>, n: nat, resolve: Resolver)
    requires n <= |chunk| && !Prepare(hashes, chunk[..n], resolve).ok
    ensures Prepare(hashes, chunk, resolve) == Prepare(hashes, chunk[..n], resolve)
    decreases |chunk|
  {
    if n == |chunk| {
      assert chunk[..n] == chunk;
    } else {
      assert chunk[..|chunk| - 1][..n] == chunk[..n];
      StaysRefused(hashes, chunk[..|chunk| - 1], n, resolve);
    }
  }

  // ---- A failed submission ----

  function RestoreHashes(hashes: map<Key, Id>, chunk: seq<Match>, trades: seq<SettlementTrade>): map<Key, Id>
    requires |trades| == |chunk|
    decreases |chunk|
  {
    if chunk == [] then hashes
    else
      var n := |chunk| - 1;
      RestoreHashes(hashes, chunk[..n], trades[..n])[KeyOf(chunk[n]) := trades[n].tradeHash]
  }

  method RestoreFailedChunk(hashes: map<Key, Id>, queues: Queues, chunk: seq<Match>, trades: seq<SettlementTrade>)
    returns (hashes': map<Key, Id>, queues': Queues)
    requires |trades| == |chunk|
    ensures hashes' == RestoreHashes(hashes, chunk, trades) && queues' == EnqueueAll(queues, chunk)
  {
    hashes', queues' := hashes, queues;
    assert chunk[..0] == [] && trades[..0] == [];
    for i := 0 to |chunk|
      invariant hashes' == RestoreHashes(hashes, chunk[..i], trades[..i]) && queues' == EnqueueAll(queues, chunk[..i])
    {
      assert chunk[..i + 1][..i] == chunk[..i] && trades[..i + 1][..i] == trades[..i];
      hashes' := hashes'[KeyOf(chunk[i]) := trades[i].tradeHash];
      queues' := Enqueue(queues', chunk[i]);
    }
    assert chunk[..|chunk|] == chunk && trades[..|chunk|] == trades;
  }

  ghost predicate CarryHashes(trades: seq<SettlementTrade>, hashes: map<Key, Id>, chunk: seq<Match>) {
    && |trades| == |chunk|
    && forall i :: 0 <= i < |chunk| ==> KeyOf(chunk[i]) in hashes && trades[i].tradeHash == hashes[KeyOf(chunk[i])]
  }

  lemma {:induction false} RestoredAt(left: map<Key, Id>, hashes: map<Key, Id>, chunk: seq<Match>,
      trades: seq<SettlementTrade>, k: Key)
    requires CarryHashes(trades, hashes, chunk)
    ensures var r := RestoreHashes(left, chunk, trades);
            && (k in r <==> k in left || k in ChunkKeys(chunk))
            && (k in ChunkKeys(chunk) ==> k in r && k in hashes && r[k] == hashes[k])
            && (k in left && k !in ChunkKeys(chunk) ==> k in r && r[k] == left[k])
    decreases |chunk|
  {
    if chunk != [] {
      var n := |chunk| - 1;
      var init := chunk[..n];
      RestoredAt(left, hashes, init, trades[..n], k);
      KeysOfLast(chunk, k);
      hide ChunkKeys;
    }
  }

  lemma KeysOfLast(chunk: seq<Match>, k: Key)
    requires chunk != []
    ensures k in ChunkKeys(chunk) <==> k in ChunkKeys(chunk[..|chunk| - 1]) || k == KeyOf(chunk[|chunk| - 1])
  {
    var init := chunk[..|chunk| - 1];
    if k in ChunkKeys(init) {
      var i :| 0 <= i < |init| && KeyOf(init[i]) == k;
      assert KeyOf(chunk[i]) == k;
    }
    if k in ChunkKeys(chunk) && k != KeyOf(chunk[|chunk| - 1]) {
      var i :| 0 <= i < |chunk| && KeyOf(chunk[i]) == k;
      assert KeyOf(init[i]) == k;
    }
  }

  /** Putting a failed chunk back restores every confirmed hash exactly and queues its trades again. */
  lemma RestoreUndoesPrepare(hashes: map<Key, Id>, chunk: seq<Match>, resolve: Resolver)
    requires Prepare(hashes, chunk, resolve).ok
    ensures var p := Prepare(hashes, chunk, resolve);
            |p.trades| == |chunk| && RestoreHashes(p.hashes, chunk, p.trades) == hashes
  {
    var p := Prepare(hashes, chunk, resolve);
    PreparedIff(hashes, chunk, resolve);
    assert CarryHashes(p.trades, hashes, chunk);
    hide Prepare, RestoreHashes, DistinctTrades, TradesFor, CarryHashes, ChunkKeys, AllReady;
    var r := RestoreHashes(p.hashes, chunk, p.trades);
    forall k ensures k in r <==> k in hashes { RestoredKey(p.hashes, hashes, chunk, p.trades, k); }
    forall k | k in hashes ensures k in r && r[k] == hashes[k] { RestoredAt(p.hashes, hashes, chunk, p.trades, k); }
  }

  lemma RestoredKey(left: map<Key, Id>, hashes: map<Key, Id>, chunk: seq<Match>, trades: seq<SettlementTrade>, k: Key)
    requires CarryHashes(trades, hashes, chunk) && left == hashes - ChunkKeys(chunk)
    ensures k in RestoreHashes(left, chunk, trades) <==> k in hashes
  {
    hide RestoreHashes, ChunkKeys, CarryHashes;
    RestoredAt(left, hashes, chunk, trades, k);
  }
}
