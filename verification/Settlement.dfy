/** The settlement batcher as a whole: tier queues, flushes, what a flush reports, and the invariant
    that keeps every queued trade payable. */
module Settlement {
  import opened Types
  import opened Ledger
  import opened Chunks
  import opened Batcher

  // ---- Tier queues ----

  datatype Queues = Queues(instant: seq<Match>, express: seq<Match>, standard: seq<Match>)

  const EMPTY_QUEUES := Queues([], [], [])

  function Enqueue(q: Queues, m: Match): Queues {
    match m.tier
    case Instant => q.(instant := q.instant + [m])
    case Express => q.(express := q.express + [m])
    case Standard => q.(standard := q.standard + [m])
  }

  function EnqueueAll(q: Queues, ms: seq<Match>): Queues {
    if ms == [] then q else Enqueue(EnqueueAll(q, ms[..|ms| - 1]), ms[|ms| - 1])
  }

  function QueuedTrades(q: Queues): seq<Match> {
    q.instant + q.express + q.standard
  }

  ghost predicate TiersOk(q: Queues) {
    && (forall i :: 0 <= i < |q.instant| ==> q.instant[i].tier == Instant)
    && (forall i :: 0 <= i < |q.express| ==> q.express[i].tier == Express)
    && (forall i :: 0 <= i < |q.standard| ==> q.standard[i].tier == Standard)
  }

  lemma EnqueueSnoc(q: Queues, ms: seq<Match>, m: Match)
    ensures EnqueueAll(q, ms + [m]) == Enqueue(EnqueueAll(q, ms), m)
  {
    assert (ms + [m])[..|ms|] == ms;
  }

  lemma {:induction false} EnqueueConcat(q: Queues, a: seq<Match>, b: seq<Match>)
    ensures EnqueueAll(q, a + b) == EnqueueAll(EnqueueAll(q, a), b)
  {
    if b == [] {
      assert a + b == a;
    } else {
      var init, m := b[..|b| - 1], b[|b| - 1];
      EnqueueConcat(q, a, init);
      assert a + b == (a + init) + [m] && b == init + [m];
      hide EnqueueAll;
      EnqueueSnoc(q, a + init, m);
      EnqueueSnoc(EnqueueAll(q, a), init, m);
    }
  }

  lemma {:induction false} EnqueueTier(q: Queues, ms: seq<Match>, tier: Tier)
    requires forall i :: 0 <= i < |ms| ==> ms[i].tier == tier
    ensures EnqueueAll(q, ms) == match tier
      case Instant => q.(instant := q.instant + ms)
      case Express => q.(express := q.express + ms)
      case Standard => q.(standard := q.standard + ms)
  {
    if ms == [] {
      assert q.instant + ms == q.instant && q.express + ms == q.express && q.standard + ms == q.standard;
    } else {
      var init, m := ms[..|ms| - 1], ms[|ms| - 1];
      EnqueueTier(q, init, tier);
      assert ms == init + [m];
      assert q.instant + ms == (q.instant + init) + [m];
      assert q.express + ms == (q.express + init) + [m];
      assert q.standard + ms == (q.standard + init) + [m];
    }
  }

  /** A snapshot lists the queued trades without their tiers; re-enqueueing the list rebuilds every
      tier's queue exactly. */
  lemma RequeueRestores(q: Queues)
    requires TiersOk(q)
    ensures EnqueueAll(EMPTY_QUEUES, QueuedTrades(q)) == q
  {
    hide EnqueueAll;
    EnqueueConcat(EMPTY_QUEUES, q.instant + q.express, q.standard);
    EnqueueConcat(EMPTY_QUEUES, q.instant, q.express);
    EnqueueTier(EMPTY_QUEUES, q.instant, Instant);
    EnqueueTier(EnqueueAll(EMPTY_QUEUES, q.instant), q.express, Express);
    EnqueueTier(EnqueueAll(EnqueueAll(EMPTY_QUEUES, q.instant), q.express), q.standard, Standard);
  }

  function Keep(ms: seq<Match>, dropped: set<Key>): seq<Match> {
    if ms == [] then []
    else
      Keep(ms[..|ms| - 1], dropped) + (if KeyOf(ms[|ms| - 1]) in dropped then [] else [ms[|ms| - 1]])
  }

  function RetainPending(q: Queues, dropped: set<Key>): Queues {
    Queues(Keep(q.instant, dropped), Keep(q.express, dropped), Keep(q.standard, dropped))
  }

  function Unnamed(ms: seq<Match>, dropped: set<Key>): set<nat> {
    set i: nat | i < |ms| && (ms[i].makerId, ms[i].takerId) !in dropped
  }

  /** A queue keeps exactly the trades not named, each once and in order. */
  lemma KeepIs(ms: seq<Match>, dropped: set<Key>)
    ensures Filters(Keep(ms, dropped), ms, Unnamed(ms, dropped))
  {
    KeepUpTo(ms, |ms|, dropped);
    assert ms[..|ms|] == ms;
  }

  lemma {:induction false} KeepUpTo(ms: seq<Match>, n: nat, dropped: set<Key>)
    requires n <= |ms|
    ensures Filters(Keep(ms[..n], dropped), ms[..n], Unnamed(ms, dropped))
  {
    hide Filters;
    if n == 0 {
      FiltersNone(ms[..0], Unnamed(ms, dropped));
    } else {
      KeepUpTo(ms, n - 1, dropped);
      assert ms[..n] == ms[..n - 1] + [ms[n - 1]] && ms[..n][..n - 1] == ms[..n - 1];
      assert Keep(ms[..n - 1], dropped) + [] == Keep(ms[..n - 1], dropped);
      FiltersNext(Keep(ms[..n - 1], dropped), ms[..n - 1], Unnamed(ms, dropped), ms[n - 1]);
    }
  }

  // ---- Building a batch ----

  datatype SettlementBatch = SettlementBatch(
    trades: seq<Match>, totalValue: u64, proofs: seq<Proof>, counts: seq<nat>, batches: seq<TradeBatch>)

  const EMPTY_BATCH := SettlementBatch([], 0, [], [], [])

  function AddSettled(b: SettlementBatch, s: Settled): SettlementBatch {
    SettlementBatch(
      b.trades + s.batch.trades, (b.totalValue + s.batch.totalValue) % TWO_64,
      b.proofs + [s.proof], b.counts + [|s.batch.trades|], b.batches + [s.batch])
  }

  datatype Built = Built(ledger: Balances, batch: SettlementBatch)

  function SettleChunks(l: Balances, chunks: seq<seq<Match>>, prover: Prover): Built {
    if chunks == [] then Built(l, EMPTY_BATCH)
    else
      var prev := SettleChunks(l, chunks[..|chunks| - 1], prover);
      var o := SettleChunk(prev.ledger, chunks[|chunks| - 1], prover);
      match o.settled
      case None => Built(o.ledger, prev.batch)
      case Some(s) => Built(o.ledger, AddSettled(prev.batch, s))
  }

  function BuildBatch(l: Balances, trades: seq<Match>, k: nat, prover: Prover): Built
    requires k > 0
  {
    SettleChunks(l, ChunksOf(trades, k), prover)
  }

  lemma SettleSnoc(l: Balances, chunks: seq<seq<Match>>, c: seq<Match>, prover: Prover)
    ensures SettleChunks(l, chunks + [c], prover) ==
            var prev := SettleChunks(l, chunks, prover);
            var o := SettleChunk(prev.ledger, c, prover);
            match o.settled
            case None => Built(o.ledger, prev.batch)
            case Some(s) => Built(o.ledger, AddSettled(prev.batch, s))
  {
    assert (chunks + [c])[..|chunks|] == chunks;
  }

  // ---- Layout of what is reported ----

  function TradesOf(bs: seq<TradeBatch>): (ts: seq<seq<Match>>)
    ensures |ts| == |bs|
  {
    seq(|bs|, i requires 0 <= i < |bs| => bs[i].trades)
  }

  function SumCounts(c: seq<nat>): nat {
    if c == [] then 0 else SumCounts(c[..|c| - 1]) + c[|c| - 1]
  }

  /** Trades are the concatenation of the proven chunks; proofs, counts and chunks run in parallel;
      every chunk is nonempty, within size and for one node. */
  ghost predicate LayoutOk(b: SettlementBatch, k: nat) {
    && |b.proofs| == |b.counts| == |b.batches|
    && (forall i :: 0 <= i < |b.counts| ==> b.counts[i] == |b.batches[i].trades|)
    && ChunksOk(TradesOf(b.batches), k)
    && b.trades == Concat(TradesOf(b.batches))
    && SumCounts(b.counts) == |b.trades|
  }

  lemma SolventChunkOk(l: Balances, chunk: seq<Match>, k: nat)
    requires ChunkOk(chunk, k) && Solvent(l, chunk) != []
    ensures ChunkOk(Solvent(l, chunk), k)
  {
    SolventPays(l, chunk);
    var s := Solvent(l, chunk);
    forall i | 0 <= i < |s| ensures s[i].assignedNode == s[0].assignedNode {
      assert s[i] in chunk && s[0] in chunk;
    }
  }

  lemma AddKeepsLayout(b: SettlementBatch, s: Settled, k: nat)
    requires LayoutOk(b, k) && ChunkOk(s.batch.trades, k)
    ensures LayoutOk(AddSettled(b, s), k)
  {
    var b' := AddSettled(b, s);
    assert TradesOf(b'.batches) == TradesOf(b.batches) + [s.batch.trades];
    ConcatAppend(TradesOf(b.batches), [s.batch.trades]);
    assert [s.batch.trades][1..] == [];
    assert Concat([s.batch.trades]) == s.batch.trades;
    assert b'.counts[..|b.counts|] == b.counts;
  }

  lemma {:induction false} SettledLayout(l: Balances, chunks: seq<seq<Match>>, k: nat, prover: Prover)
    requires ChunksOk(chunks, k)
    ensures LayoutOk(SettleChunks(l, chunks, prover).batch, k)
  {
    if chunks == [] {
      assert TradesOf([]) == [];
    } else {
      var init, c := chunks[..|chunks| - 1], chunks[|chunks| - 1];
      SettledLayout(l, init, k, prover);
      var prev := SettleChunks(l, init, prover);
      assert ChunkOk(c, k);
      hide LayoutOk, ChunksOk, ChunkOk, Solvent;
      if SettleChunk(prev.ledger, c, prover).settled.Some? {
        SolventChunkOk(prev.ledger, c, k);
        AddKeepsLayout(prev.batch, SettleChunk(prev.ledger, c, prover).settled.value, k);
      }
    }
  }

  /** Every batch a flush reports is well laid out, whatever was filtered, refused or rolled back. */
  lemma BatchLayout(l: Balances, trades: seq<Match>, k: nat, prover: Prover)
    requires k > 0
    ensures LayoutOk(BuildBatch(l, trades, k, prover).batch, k)
  {
    ChunksPartition(trades, k, 0);
    SettledLayout(l, ChunksOf(trades, k), k, prover);
  }

  lemma {:induction false} ValuesConcat(a: seq<Match>, b: seq<Match>)
    ensures SumValues(a + b) == SumValues(a) + SumValues(b)
  {
    hide Value;
    if b == [] {
      assert a + b == a;
    } else {
      assert (a + b)[..|a + b| - 1] == a + b[..|b| - 1];
      ValuesConcat(a, b[..|b| - 1]);
    }
  }

  lemma WrapSum(a: nat, b: nat)
    ensures (a % TWO_64 + b % TWO_64) % TWO_64 == (a + b) % TWO_64
    ensures b < TWO_64 ==> (a % TWO_64 + b) % TWO_64 == (a + b) % TWO_64
  {
  }

  /** The reported value is that of the reported trades, and each proof is the prover's answer for the
      very chunk reported with it. */
  ghost predicate ReportOk(b: SettlementBatch, prover: Prover) {
    && b.totalValue == SumValues(b.trades) % TWO_64
    && |b.proofs| == |b.batches|
    && forall i :: 0 <= i < |b.batches| ==> prover(b.batches[i]) == Some(b.proofs[i])
  }

  lemma AddKeepsReport(b: SettlementBatch, s: Settled, prover: Prover)
    requires ReportOk(b, prover) && prover(s.batch) == Some(s.proof)
    requires s.batch.totalValue == SumValues(s.batch.trades) % TWO_64
    ensures ReportOk(AddSettled(b, s), prover)
  {
    hide SumValues;
    ValuesConcat(b.trades, s.batch.trades);
    WrapSum(SumValues(b.trades), SumValues(s.batch.trades));
  }

  lemma {:induction false} SettledReport(l: Balances, chunks: seq<seq<Match>>, prover: Prover)
    ensures ReportOk(SettleChunks(l, chunks, prover).batch, prover)
  {
    if chunks != [] {
      var init, c := chunks[..|chunks| - 1], chunks[|chunks| - 1];
      SettledReport(l, init, prover);
      var prev := SettleChunks(l, init, prover);
      hide ReportOk, Solvent, DebitAll, CreditMakers, CreditTakers;
      if SettleChunk(prev.ledger, c, prover).settled.Some? {
        AddKeepsReport(prev.batch, SettleChunk(prev.ledger, c, prover).settled.value, prover);
      }
    }
  }

  lemma {:induction false} SliceAt(ts: seq<seq<Match>>, i: nat)
    requires i < |ts|
    ensures var idx := |Concat(ts[..i])|;
            idx + |ts[i]| <= |Concat(ts)| && Concat(ts)[idx..idx + |ts[i]|] == ts[i]
  {
    assert ts == ts[..i] + [ts[i]] + ts[i + 1..];
    ConcatAppend(ts[..i] + [ts[i]], ts[i + 1..]);
    ConcatAppend(ts[..i], [ts[i]]);
    assert [ts[i]][1..] == [];
    assert Concat([ts[i]]) == ts[i];
  }

  /** The settlement loop walks the chunks with a running index into `trades`, skipping some. Every
      slice it takes is in bounds and is exactly the chunk its proof covers. */
  method ReadyChunks(b: SettlementBatch, k: nat, own: Id, accepts: nat -> bool) returns (submitted: seq<seq<Match>>)
    requires LayoutOk(b, k)
    ensures submitted == Selected(TradesOf(b.batches), own, accepts)
    ensures Filters(submitted, TradesOf(b.batches), OwnAndAccepted(TradesOf(b.batches), own, accepts))
  {
    submitted := [];
    var idx := 0;
    ghost var ts := TradesOf(b.batches);
    SelectedIs(ts, own, accepts);
    hide Filters;
    for i := 0 to |b.counts|
      invariant idx == |Concat(ts[..i])|
      invariant submitted == Selected(ts[..i], own, accepts)
    {
      var count := b.counts[i];
      SliceAt(ts, i);
      assert ChunkOk(ts[i], k);
      var chunk := b.trades[idx..idx + count];
      assert ts[..i + 1] == ts[..i] + [ts[i]] && ts[..i + 1][..i] == ts[..i];
      ConcatAppend(ts[..i], [ts[i]]);
      assert [ts[i]][1..] == [];
      assert Concat([ts[i]]) == ts[i];
      idx := idx + count;
      if chunk[0].assignedNode == own && accepts(i) {
        submitted := submitted + [chunk];
      }
    }
    assert ts[..|ts|] == ts;
  }

  function Selected(ts: seq<seq<Match>>, own: Id, accepts: nat -> bool): seq<seq<Match>> {
    if ts == [] then []
    else
      var i := |ts| - 1;
      Selected(ts[..i], own, accepts)
      + (if ts[i] != [] && ts[i][0].assignedNode == own && accepts(i) then [ts[i]] else [])
  }

  /** The chunks assigned to this node and accepted by its checks. */
  function OwnAndAccepted(ts: seq<seq<Match>>, own: Id, accepts: nat -> bool): set<nat> {
    set i: nat | i < |ts| && 0 < |ts[i]| && ts[i][0].assignedNode == own && accepts(i)
  }

  /** Exactly those chunks are submitted, each once and in order. */
  lemma SelectedIs(ts: seq<seq<Match>>, own: Id, accepts: nat -> bool)
    ensures Filters(Selected(ts, own, accepts), ts, OwnAndAccepted(ts, own, accepts))
  {
    SelectedUpTo(ts, |ts|, own, accepts);
    assert ts[..|ts|] == ts;
  }

  lemma {:induction false} SelectedUpTo(ts: seq<seq<Match>>, n: nat, own: Id, accepts: nat -> bool)
    requires n <= |ts|
    ensures Filters(Selected(ts[..n], own, accepts), ts[..n], OwnAndAccepted(ts, own, accepts))
  {
    hide Filters;
    if n == 0 {
      FiltersNone(ts[..0], OwnAndAccepted(ts, own, accepts));
    } else {
      SelectedUpTo(ts, n - 1, own, accepts);
      assert ts[..n] == ts[..n - 1] + [ts[n - 1]] && ts[..n][..n - 1] == ts[..n - 1];
      assert Selected(ts[..n - 1], own, accepts) + [] == Selected(ts[..n - 1], own, accepts);
      FiltersNext(Selected(ts[..n - 1], own, accepts), ts[..n - 1], OwnAndAccepted(ts, own, accepts), ts[n - 1]);
    }
  }

  // ---- Coverage ----

  lemma {:induction false} NeedConcat(a: seq<Match>, b: seq<Match>, x: Account)
    ensures NeedBy(a + b, x) == NeedBy(a, x) + NeedBy(b, x)
  {
    if b == [] {
      assert a + b == a;
    } else {
      var init, m := b[..|b| - 1], b[|b| - 1];
      assert a + b == (a + init) + [m] && b == init + [m];
      NeedConcat(a, init, x);
      hide NeedBy, Value;
      NeedSnoc(a + init, m, x);
      NeedSnoc(init, m, x);
    }
  }

  lemma NeedAround(p: seq<Match>, m: Match, s: seq<Match>, x: Account)
    ensures NeedBy(p + [m] + s, x) == NeedBy((p + s) + [m], x)
  {
    hide NeedBy, Value;
    NeedConcat(p + [m], s, x);
    NeedSnoc(p, m, x);
    NeedConcat(p, s, x);
    NeedSnoc(p + s, m, x);
  }

  lemma BagAround<T>(p: seq<T>, m: T, s: seq<T>)
    ensures multiset(p + [m] + s) == multiset(p + s) + multiset{m}
  {
    assert multiset(p + [m] + s) == multiset(p) + multiset{m} + multiset(s);
    assert multiset(p + s) == multiset(p) + multiset(s);
  }

  lemma SplitAt<T>(b: seq<T>, m: T) returns (p: seq<T>, s: seq<T>)
    requires m in b
    ensures b == p + [m] + s
  {
    var i :| 0 <= i < |b| && b[i] == m;
    p, s := b[..i], b[i + 1..];
  }

  lemma CancelOne<T>(x: multiset<T>, y: multiset<T>, m: T)
    requires x + multiset{m} == y + multiset{m}
    ensures x == y
  {
    assert x == (x + multiset{m}) - multiset{m};
    assert y == (y + multiset{m}) - multiset{m};
  }

  /** Two lists with the same elements agree after the last of one is taken out of the other. */
  lemma TakeOut<T>(init: seq<T>, m: T, b: seq<T>) returns (p: seq<T>, s: seq<T>)
    requires multiset(init + [m]) == multiset(b)
    ensures b == p + [m] + s && multiset(init) == multiset(p + s)
  {
    assert (init + [m])[|init|] == m;
    SameBagMember(init + [m], b, m);
    p, s := SplitAt(b, m);
    BagAround(p, m, s);
    CancelOne(multiset(init), multiset(p + s), m);
  }

  lemma {:induction false} NeedByBag(a: seq<Match>, b: seq<Match>, x: Account)
    requires multiset(a) == multiset(b)
    ensures NeedBy(a, x) == NeedBy(b, x)
    decreases |a|
  {
    hide NeedBy, Value;
    if a == [] {
      assert |multiset(b)| == 0;
      assert b == [];
    } else {
      var init, m := a[..|a| - 1], a[|a| - 1];
      assert a == init + [m];
      var p, s := TakeOut(init, m, b);
      NeedByBag(init, p + s, x);
      NeedSnoc(init, m, x);
      NeedAround(p, m, s, x);
      NeedSnoc(p + s, m, x);
    }
  }

  lemma {:induction false} ValueWithinNeed(trades: seq<Match>, i: nat)
    requires i < |trades|
    ensures Value(trades[i]) <= NeedBy(trades, Taker(trades[i]))
  {
    if i < |trades| - 1 { ValueWithinNeed(trades[..|trades| - 1], i); }
  }

  lemma CoveredPaysEach(l: Balances, chunk: seq<Match>, rest: seq<Match>)
    requires CanPay(l, chunk + rest)
    ensures PaysEach(l, chunk) && CanPay(l, chunk)
  {
    hide Value, NeedBy;
    forall a ensures NeedBy(chunk, a) <= BalanceOf(l, a) { NeedConcat(chunk, rest, a); }
    forall i | 0 <= i < |chunk| ensures Value(chunk[i]) <= BalanceOf(l, Taker(chunk[i])) {
      ValueWithinNeed(chunk, i);
    }
  }

  /** After a chunk settles without wrapping, what is left still covers the trades not in it. */
  lemma SettledStillCovers(l: Balances, chunk: seq<Match>, rest: seq<Match>)
    requires CanPay(l, chunk + rest) && DebitAll(l, chunk).done == |chunk|
    requires CreditFits(DebitAll(l, chunk).ledger, chunk)
    ensures CanPay(CreditMakers(DebitAll(l, chunk).ledger, chunk), rest)
  {
    var d := DebitAll(l, chunk).ledger;
    hide Value, NeedBy, DebitAll, OwedTo, CreditMakers;
    assert chunk[..|chunk|] == chunk;
    forall a ensures NeedBy(rest, a) <= BalanceOf(CreditMakers(d, chunk), a) {
      NeedConcat(chunk, rest, a);
      DebitedBalances(l, chunk, a);
      CreditedMakers(d, chunk, a);
    }
  }

  /** A covered chunk settles whole; if its credits do not wrap, the rest stays covered. */
  lemma CoveredChunkSettles(l: Balances, chunk: seq<Match>, rest: seq<Match>, k: nat, prover: Prover)
    requires 0 < |chunk| <= k && Bounded(chunk) && Succeeds(prover, k) && CanPay(l, chunk + rest)
    ensures var o := SettleChunk(l, chunk, prover);
            && o.settled.Some? && o.settled.value.batch.trades == chunk
            && (ChunkFits(l, chunk, prover) ==> CanPay(o.ledger, rest))
  {
    CoveredPaysEach(l, chunk, rest);
    SolventPays(l, chunk);
    hide Solvent, CanPay, DebitAll, CreditMakers, CreditTakers, Succeeds, Bounded, PaysEach, CreditFits;
    ProverAccepts(l, chunk, k, prover);
    DebitsSucceedIff(l, chunk);
    if ChunkFits(l, chunk, prover) { SettledStillCovers(l, chunk, rest); }
  }

  /** No credit of a whole flush wraps. */
  ghost predicate ChunksFit(l: Balances, chunks: seq<seq<Match>>, prover: Prover) {
    chunks == [] ||
    (var init, c := chunks[..|chunks| - 1], chunks[|chunks| - 1];
     ChunksFit(l, init, prover) && ChunkFits(SettleChunks(l, init, prover).ledger, c, prover))
  }

  lemma FitSnoc(l: Balances, chunks: seq<seq<Match>>, c: seq<Match>, prover: Prover)
    ensures ChunksFit(l, chunks + [c], prover)
            <==> (ChunksFit(l, chunks, prover) && ChunkFits(SettleChunks(l, chunks, prover).ledger, c, prover))
  {
    assert (chunks + [c])[..|chunks|] == chunks;
  }

  lemma OkSnoc(init: seq<seq<Match>>, c: seq<Match>, k: nat)
    requires ChunksOk(init + [c], k)
    ensures ChunksOk(init, k) && 0 < |c| <= k
  {
    assert (init + [c])[|init|] == c;
    forall i | 0 <= i < |init| ensures ChunkOk(init[i], k) { assert (init + [c])[i] == init[i]; }
  }

  lemma NothingSettled(l: Balances, prover: Prover)
    ensures var built := SettleChunks(l, [], prover); built.ledger == l && built.batch.trades == []
    ensures Concat<Match>([]) == []
  {
  }

  lemma AfterSettling(l: Balances, init: seq<seq<Match>>, c: seq<Match>, prover: Prover)
    requires SettleChunk(SettleChunks(l, init, prover).ledger, c, prover).settled.Some?
    ensures var o := SettleChunk(SettleChunks(l, init, prover).ledger, c, prover);
            var built := SettleChunks(l, init + [c], prover);
            && built.ledger == o.ledger
            && built.batch.trades == SettleChunks(l, init, prover).batch.trades + o.settled.value.batch.trades
  {
    hide SettleChunks, SettleChunk;
    SettleSnoc(l, init, c, prover);
  }

  /** A covered queue settles completely: no chunk is filtered, refused or rolled back. */
  lemma {:induction false} CoveredChunksSettle(l: Balances, chunks: seq<seq<Match>>, rest: seq<Match>, k: nat,
      prover: Prover)
    requires ChunksOk(chunks, k) && Bounded(Concat(chunks)) && Succeeds(prover, k) && ChunksFit(l, chunks, prover)
    requires CanPay(l, Concat(chunks) + rest)
    ensures var built := SettleChunks(l, chunks, prover);
            built.batch.trades == Concat(chunks) && CanPay(built.ledger, rest)
  {
    hide *;
    if chunks == [] {
      NothingSettled(l, prover);
      assert [] + rest == rest;
    } else {
      var init, c := chunks[..|chunks| - 1], chunks[|chunks| - 1];
      assert chunks == init + [c];
      OkSnoc(init, c, k);
      LastChunk(init, c);
      ConcatAssociates(Concat(init), c, rest);
      BoundedParts(Concat(init), c);
      FitSnoc(l, init, c, prover);
      CoveredChunksSettle(l, init, c + rest, k, prover);
      CoveredChunkSettles(SettleChunks(l, init, prover).ledger, c, rest, k, prover);
      AfterSettling(l, init, c, prover);
    }
  }

  lemma LastChunk(init: seq<seq<Match>>, c: seq<Match>)
    ensures Concat(init + [c]) == Concat(init) + c
  {
    ConcatAppend(init, [c]);
    assert [c][1..] == [];
    assert Concat([c]) == c;
  }

  lemma BoundedParts(a: seq<Match>, b: seq<Match>)
    requires Bounded(a + b)
    ensures Bounded(a) && Bounded(b)
  {
    assert forall i :: 0 <= i < |a| ==> (a + b)[i] == a[i];
    assert forall i :: 0 <= i < |b| ==> (a + b)[|a| + i] == b[i];
  }

  lemma BoundedBag(a: seq<Match>, b: seq<Match>)
    requires Bounded(a) && multiset(a) == multiset(b)
    ensures Bounded(b)
  {
    forall i | 0 <= i < |b| ensures b[i].price * b[i].amount < TWO_64 {
      assert b[i] in multiset(a);
      assert b[i] in a;
    }
  }

  /** Flushing a covered queue without wrapping settles a permutation of exactly what was drained. */
  lemma CoveredFlush(l: Balances, trades: seq<Match>, rest: seq<Match>, k: nat, prover: Prover)
    requires k > 0 && Bounded(trades) && Succeeds(prover, k) && ChunksFit(l, ChunksOf(trades, k), prover)
    requires CanPay(l, trades + rest)
    ensures var built := BuildBatch(l, trades, k, prover);
            multiset(built.batch.trades) == multiset(trades) && CanPay(built.ledger, rest)
  {
    var chunks := ChunksOf(trades, k);
    ChunksPartition(trades, k, 0);
    BoundedBag(trades, Concat(chunks));
    hide ChunksOf, Concat, NeedBy, ForNode, ChunksOk, SettleChunks, Bounded, Succeeds, ChunksFit;
    forall a ensures NeedBy(Concat(chunks) + rest, a) <= BalanceOf(l, a) {
      NeedByBag(trades, Concat(chunks), a);
      NeedConcat(trades, rest, a);
      NeedConcat(Concat(chunks), rest, a);
    }
    CoveredChunksSettle(l, chunks, rest, k, prover);
  }

  // ---- Conservation over a flush ----

  /** A flush changes no symbol's total if and only if none of its credits wraps, and it never adds to
      a total. */
  lemma {:induction false} FlushConservesIff(l: Balances, chunks: seq<seq<Match>>, prover: Prover)
    ensures SameTotals(SettleChunks(l, chunks, prover).ledger, l) <==> ChunksFit(l, chunks, prover)
    ensures NoHigher(SettleChunks(l, chunks, prover).ledger, l)
  {
    if chunks != [] {
      var init, c := chunks[..|chunks| - 1], chunks[|chunks| - 1];
      assert chunks == init + [c];
      FlushConservesIff(l, init, prover);
      var prev := SettleChunks(l, init, prover).ledger;
      SettleSnoc(l, init, c, prover);
      FitSnoc(l, init, c, prover);
      ChunkConservesIff(prev, c, prover);
      var after := SettleChunks(l, chunks, prover).ledger;
      assert after == SettleChunk(prev, c, prover).ledger;
      hide *;
      SandwichTotals(l, prev, after);
    }
  }

  // ---- A bound that guarantees it ----

  lemma {:induction false} OwedConcat(a: seq<Match>, b: seq<Match>, x: Account)
    ensures OwedTo(a + b, x) == OwedTo(a, x) + OwedTo(b, x)
  {
    hide *;
    if b == [] {
      assert a + b == a;
      NothingCredited(map[], x.1, x);
    } else {
      var init, m := b[..|b| - 1], b[|b| - 1];
      assert a + b == (a + init) + [m] && b == init + [m];
      OwedConcat(a, init, x);
      NeedSnoc(a + init, m, x);
      NeedSnoc(init, m, x);
    }
  }

  lemma {:induction false} OwedByBag(a: seq<Match>, b: seq<Match>, x: Account)
    requires multiset(a) == multiset(b)
    ensures OwedTo(a, x) == OwedTo(b, x)
    decreases |a|
  {
    hide *;
    if a == [] {
      assert |multiset(b)| == 0;
      assert b == [];
    } else {
      var init, m := a[..|a| - 1], a[|a| - 1];
      assert a == init + [m];
      var p, s := TakeOut(init, m, b);
      OwedByBag(init, p + s, x);
      NeedSnoc(init, m, x);
      OwedConcat(p + [m], s, x);
      NeedSnoc(p, m, x);
      OwedConcat(p, s, x);
    }
  }

  lemma SolventSnoc(l: Balances, init: seq<Match>, m: Match)
    ensures Solvent(l, init + [m])
            == Solvent(l, init) + (if Value(m) > BalanceOf(l, Taker(m)) then [] else [m])
    ensures Solvent(l, []) == []
  {
    assert (init + [m])[..|init|] == init;
  }

  lemma {:induction false} SolventOwes(l: Balances, chunk: seq<Match>, a: Account)
    ensures OwedTo(Solvent(l, chunk), a) <= OwedTo(chunk, a)
  {
    if chunk != [] {
      hide *;
      var init, m := chunk[..|chunk| - 1], chunk[|chunk| - 1];
      assert chunk == init + [m];
      SolventOwes(l, init, a);
      SolventSnoc(l, init, m);
      NeedSnoc(init, m, a);
      NeedSnoc(Solvent(l, init), m, a);
      assert Solvent(l, init) + [] == Solvent(l, init);
    }
  }

  /** What a chunk leaves an account with is at most what it had and was owed. */
  lemma ChunkBalance(l: Balances, chunk: seq<Match>, prover: Prover, a: Account)
    requires forall b :: BalanceOf(l, b) + OwedTo(chunk, b) < TWO_64
    ensures ChunkFits(l, chunk, prover)
    ensures BalanceOf(SettleChunk(l, chunk, prover).ledger, a) <= BalanceOf(l, a) + OwedTo(chunk, a)
  {
    var trades := Solvent(l, chunk);
    var d := DebitAll(l, trades);
    hide Value, OwedTo, NeedBy, Solvent, DebitAll, CreditMakers, CreditTakers, BatchOf;
    forall b ensures BalanceOf(d.ledger, b) + OwedTo(trades, b) <= BalanceOf(l, b) + OwedTo(chunk, b) {
      DebitedBalances(l, trades, b);
      SolventOwes(l, chunk, b);
    }
    CreditedMakers(d.ledger, trades, a);
    RollbackRestores(l, trades);
  }

  lemma {:induction false} SmallFlushFits(l: Balances, chunks: seq<seq<Match>>, prover: Prover)
    requires forall a :: BalanceOf(l, a) + OwedTo(Concat(chunks), a) < TWO_64
    ensures ChunksFit(l, chunks, prover)
    ensures forall a ::
              BalanceOf(SettleChunks(l, chunks, prover).ledger, a) <= BalanceOf(l, a) + OwedTo(Concat(chunks), a)
  {
    if chunks != [] {
      var init, c := chunks[..|chunks| - 1], chunks[|chunks| - 1];
      assert chunks == init + [c];
      LastChunk(init, c);
      hide SettleChunk, SettleChunks, ChunksFit, ChunkFits, Concat, OwedTo;
      forall a ensures OwedTo(Concat(chunks), a) == OwedTo(Concat(init), a) + OwedTo(c, a) { OwedConcat(Concat(init),
          c, a); }
      SmallFlushFits(l, init, prover);
      SettleSnoc(l, init, c, prover);
      FitSnoc(l, init, c, prover);
      var prev := SettleChunks(l, init, prover).ledger;
      forall a
        ensures ChunkFits(prev, c, prover)
        ensures BalanceOf(SettleChunk(prev, c, prover).ledger, a) <= BalanceOf(prev, a) + OwedTo(c, a)
      {
        ChunkBalance(prev, c, prover, a);
      }
      ChunkBalance(prev, c, prover, (0, ""));
    }
  }
}
