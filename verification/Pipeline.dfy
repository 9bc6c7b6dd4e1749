/** The settlement side over whole runs: whatever it holds — hashes, queued trades, chunks handed over or
    submitted, reconciliation candidates, the snapshot — was confirmed in the log. So every checkpoint
    follows the confirmations it settles. */
module Pipeline {
  import opened Types
  import opened Engine
  import opened Chunks
  import opened Settlement
  import opened SettlementLoop
  import opened NodeState
  import opened Recovery
  import opened RecoveryTheorems
  import opened NodeRuns
  import opened FailedWrites
  import Batcher
  import SettlementRuns

  // ---- Recorded in a log ----

  ghost predicate RecordedTrade(es: seq<WalEntry>, m: Match) {
    exists t :: CommitConfirmed(m, t) in es
  }

  ghost predicate RecordedHash(es: seq<WalEntry>, k: Key, t: Id) {
    exists m :: CommitConfirmed(m, t) in es && KeyOf(m) == k
  }

  ghost predicate HashesRecorded(es: seq<WalEntry>, hashes: map<Key, Id>) {
    forall k :: k in hashes ==> RecordedHash(es, k, hashes[k])
  }

  ghost predicate TradesRecorded(es: seq<WalEntry>, ms: seq<Match>) {
    forall m :: m in ms ==> RecordedTrade(es, m)
  }

  ghost predicate CandidatesRecorded(es: seq<WalEntry>, cs: seq<Candidate>) {
    forall c :: c in cs ==> CommitConfirmed(c.0, c.1) in es
  }

  function TradeKey(t: SettlementTrade): Key {
    (t.makerId, t.takerId)
  }

  /** Each submitted trade carries its match's key and the hash confirmed for it. */
  ghost predicate Carries(es: seq<WalEntry>, chunk: seq<Match>, trades: seq<SettlementTrade>) {
    && |trades| == |chunk|
    && forall i :: 0 <= i < |chunk| ==>
         TradeKey(trades[i]) == KeyOf(chunk[i]) && RecordedHash(es, KeyOf(chunk[i]), trades[i].tradeHash)
  }

  ghost predicate StageRecorded(es: seq<WalEntry>, stage: Stage) {
    match stage
    case Idle => true
    case Submitting(chunk, trades) => TradesRecorded(es, chunk) && Carries(es, chunk, trades)
    case Landed(keys) => forall k :: k in keys ==> k in ConfirmKeys(es)
  }

  ghost predicate Held(es: seq<WalEntry>, n: Node, s: Settler) {
    && HashesRecorded(es, n.hashes)
    && TradesRecorded(es, QueuedTrades(n.pool.queues))
    && TradesRecorded(es, Concat(s.ready))
    && StageRecorded(es, s.stage)
    && CandidatesRecorded(es, s.candidates)
  }

  ghost predicate SnapshotHeld(es: seq<WalEntry>, saved: Option<Saved>) {
    saved.Some? ==> HashesRecorded(es, saved.value.snapshot.hashes) && TradesRecorded(es, saved.value.snapshot.queued)
  }

  ghost predicate Recorded(w: World) {
    && (w.alive ==> Held(w.trace.acted.entries, w.node, w.settler))
    && w.trace.covered <= |w.trace.logged.entries|
    && SnapshotHeld(w.trace.logged.entries[..w.trace.covered], w.saved)
  }

  // ---- A longer log records no less ----

  ghost predicate Within(es: seq<WalEntry>, more: seq<WalEntry>) {
    forall e :: e in es ==> e in more
  }

  lemma GrowHash(es: seq<WalEntry>, more: seq<WalEntry>, k: Key, t: Id)
    requires Within(es, more) && RecordedHash(es, k, t)
    ensures RecordedHash(more, k, t)
  {
    var m :| CommitConfirmed(m, t) in es && KeyOf(m) == k;
    assert CommitConfirmed(m, t) in more;
  }

  lemma GrowTrade(es: seq<WalEntry>, more: seq<WalEntry>, m: Match)
    requires Within(es, more) && RecordedTrade(es, m)
    ensures RecordedTrade(more, m)
  {
    var t :| CommitConfirmed(m, t) in es;
    assert CommitConfirmed(m, t) in more;
  }

  lemma GrowHashes(es: seq<WalEntry>, more: seq<WalEntry>, hashes: map<Key, Id>)
    requires Within(es, more) && HashesRecorded(es, hashes)
    ensures HashesRecorded(more, hashes)
  {
    hide RecordedHash, Within;
    forall k | k in hashes ensures RecordedHash(more, k, hashes[k]) { GrowHash(es, more, k, hashes[k]); }
  }

  lemma GrowTrades(es: seq<WalEntry>, more: seq<WalEntry>, ms: seq<Match>)
    requires Within(es, more) && TradesRecorded(es, ms)
    ensures TradesRecorded(more, ms)
  {
    hide RecordedTrade, Within;
    forall m | m in ms ensures RecordedTrade(more, m) { GrowTrade(es, more, m); }
  }

  lemma {:induction false} ConfirmKeyIff(es: seq<WalEntry>, k: Key)
    ensures k in ConfirmKeys(es) <==> exists i :: 0 <= i < |es| && es[i].CommitConfirmed? && KeyOf(es[i].m) == k
  {
    if es != [] {
      var init := es[..|es| - 1];
      ConfirmKeyIff(init, k);
      assert forall i :: 0 <= i < |init| ==> init[i] == es[i];
    }
  }

  lemma GrowKey(es: seq<WalEntry>, more: seq<WalEntry>, k: Key)
    requires Within(es, more) && k in ConfirmKeys(es)
    ensures k in ConfirmKeys(more)
  {
    hide ConfirmKeys;
    ConfirmKeyIff(es, k);
    ConfirmKeyIff(more, k);
    var i :| 0 <= i < |es| && es[i].CommitConfirmed? && KeyOf(es[i].m) == k;
    assert es[i] in more;
  }

  lemma GrowStage(es: seq<WalEntry>, more: seq<WalEntry>, stage: Stage)
    requires Within(es, more) && StageRecorded(es, stage)
    ensures StageRecorded(more, stage)
  {
    hide RecordedHash, Within, TradesRecorded, ConfirmKeys;
    match stage
    case Idle =>
    case Submitting(chunk, trades) =>
      GrowTrades(es, more, chunk);
      forall i | 0 <= i < |chunk| ensures RecordedHash(more, KeyOf(chunk[i]), trades[i].tradeHash) {
        GrowHash(es, more, KeyOf(chunk[i]), trades[i].tradeHash);
      }
    case Landed(keys) =>
      forall k | k in keys ensures k in ConfirmKeys(more) { GrowKey(es, more, k); }
  }

  lemma GrowHeld(es: seq<WalEntry>, more: seq<WalEntry>, n: Node, s: Settler)
    requires Within(es, more) && Held(es, n, s)
    ensures Held(more, n, s)
  {
    assert CandidatesRecorded(more, s.candidates);
    hide Within, HashesRecorded, TradesRecorded, StageRecorded, CandidatesRecorded, QueuedTrades, Concat;
    GrowHashes(es, more, n.hashes);
    GrowTrades(es, more, QueuedTrades(n.pool.queues));
    GrowTrades(es, more, Concat(s.ready));
    GrowStage(es, more, s.stage);
  }

  lemma RecordedTradeKey(es: seq<WalEntry>, m: Match)
    requires RecordedTrade(es, m)
    ensures KeyOf(m) in ConfirmKeys(es)
  {
    var t :| CommitConfirmed(m, t) in es;
    var i :| 0 <= i < |es| && es[i] == CommitConfirmed(m, t);
    ConfirmKeyIff(es, KeyOf(m));
  }

  lemma RecordedHashKey(es: seq<WalEntry>, k: Key, t: Id)
    requires RecordedHash(es, k, t)
    ensures k in ConfirmKeys(es)
  {
    var m :| CommitConfirmed(m, t) in es && KeyOf(m) == k;
    var i :| 0 <= i < |es| && es[i] == CommitConfirmed(m, t);
    ConfirmKeyIff(es, k);
  }

  // ---- The steps ----

  lemma BagRecorded(es: seq<WalEntry>, a: seq<Match>, b: seq<Match>)
    requires TradesRecorded(es, a) && multiset(b) <= multiset(a)
    ensures TradesRecorded(es, b)
  {
    hide RecordedTrade;
    forall m | m in b ensures RecordedTrade(es, m) {
      assert m in multiset(b);
      assert m in multiset(a);
    }
  }

  lemma BothRecorded(es: seq<WalEntry>, a: seq<Match>, b: seq<Match>)
    ensures TradesRecorded(es, a + b) <==> TradesRecorded(es, a) && TradesRecorded(es, b)
  {
    hide RecordedTrade;
    assert forall m :: m in a + b <==> m in a || m in b;
  }

  lemma ConfirmHeld(es: seq<WalEntry>, n: Node, s: Settler, core: Core, m: Match, tradeHash: Id)
    requires Held(es, n, s)
    ensures Held(es + [CommitConfirmed(m, tradeHash)], ConfirmLocally(n.(core := core), m, tradeHash), s)
  {
    var e := CommitConfirmed(m, tradeHash);
    var more, q := es + [e], n.pool.queues;
    GrowHeld(es, more, n, s);
    assert e in more;
    assert RecordedHash(more, KeyOf(m), tradeHash) && RecordedTrade(more, m);
    hide RecordedTrade, StageRecorded, CandidatesRecorded, QueuedTrades, Concat, Enqueue;
    assert HashesRecorded(more, n.hashes[KeyOf(m) := tradeHash]);
    assert TradesRecorded(more, [m]);
    BothRecorded(more, QueuedTrades(q), [m]);
    SettlementRuns.EnqueueBag(q, m);
    BagRecorded(more, QueuedTrades(q) + [m], QueuedTrades(Enqueue(q, m)));
  }

  lemma ProcessHeld(es: seq<WalEntry>, w: World, express: bool, standard: bool, size: nat, prover: Batcher.Prover)
    requires Held(es, w.node, w.settler)
    ensures var w' := Process(w, express, standard, size, prover); Held(es, w'.node, w'.settler)
  {
    if size > 0 && w.settler.ready == [] && w.settler.stage.Idle? && w.settler.candidates == [] {
      var q, f := w.node.pool.queues, SettlementRuns.ProcessBatches(w.node.pool, express, standard, size, prover);
      ProcessHands(w.node.pool, express, standard, size, prover);
      hide SettlementRuns.ProcessBatches, QueuedTrades, Concat, ProvenChunks, TradesRecorded, HashesRecorded,
          QueuedKeys;
      BagRecorded(es, QueuedTrades(q), QueuedTrades(f.pool.queues));
      BagRecorded(es, QueuedTrades(q), Concat(ProvenChunks(f.batches)));
    }
  }

  /** A prepared chunk carries, trade by trade, the hashes it consumed; nothing else is touched. */
  lemma {:induction false} PreparedCarries(es: seq<WalEntry>, hashes: map<Key, Id>, chunk: seq<Match>,
      resolve: Resolver)
    requires HashesRecorded(es, hashes)
    ensures var p := Prepare(hashes, chunk, resolve);
            && HashesRecorded(es, p.hashes) && (p.ok ==> Carries(es, chunk, p.trades))
            && p.hashes.Keys <= hashes.Keys && (p.ok ==> p.hashes.Keys == hashes.Keys - ChunkKeys(chunk))
            && (p.ok ==> ChunkKeys(chunk) <= hashes.Keys)
    decreases |chunk|
  {
    if chunk == [] {
      assert hashes.Keys - ChunkKeys([]) == hashes.Keys;
    } else {
      var n := |chunk| - 1;
      var init, m := chunk[..n], chunk[n];
      PreparedCarries(es, hashes, init, resolve);
      var prev, p := Prepare(hashes, init, resolve), Prepare(hashes, chunk, resolve);
      forall k ensures k in ChunkKeys(chunk) <==> k in ChunkKeys(init) || k == KeyOf(m) { KeysOfLast(chunk, k); }
      hide RecordedHash, ChunkKeys, TradeFor;
      if p.ok {
        assert chunk == init + [m];
        TradeKeyFor(m, resolve, prev.hashes[KeyOf(m)]);
        CarriesSnoc(es, init, prev.trades, m, TradeFor(m, resolve, prev.hashes[KeyOf(m)]));
      }
    }
  }

  lemma TradeKeyFor(m: Match, resolve: Resolver, tradeHash: Id)
    requires Resolvable(m, resolve)
    ensures TradeKey(TradeFor(m, resolve, tradeHash)) == KeyOf(m) && TradeFor(m, resolve,
        tradeHash).tradeHash == tradeHash
  {
  }

  lemma CarriesSnoc(es: seq<WalEntry>, chunk: seq<Match>, trades: seq<SettlementTrade>, m: Match, t: SettlementTrade)
    requires Carries(es, chunk, trades) && TradeKey(t) == KeyOf(m) && RecordedHash(es, KeyOf(m), t.tradeHash)
    ensures Carries(es, chunk + [m], trades + [t])
  {
    hide RecordedHash;
  }

  lemma PrepareHeld(es: seq<WalEntry>, w: World, accepts: bool, resolve: Resolver)
    requires Held(es, w.node, w.settler)
    ensures var w' := PrepareChunk(w, accepts, resolve); Held(es, w'.node, w'.settler)
  {
    var s := w.settler;
    if s.ready != [] && s.stage.Idle? {
      var chunk := s.ready[0];
      hide Prepare, Carries, RecordedTrade, HashesRecorded, CandidatesRecorded, QueuedTrades;
      assert Concat(s.ready) == chunk + Concat(s.ready[1..]);
      BothRecorded(es, chunk, Concat(s.ready[1..]));
      PreparedCarries(es, w.node.hashes, chunk, resolve);
      hide TradesRecorded, Concat;
    }
  }

  lemma {:induction false} RestoreRecorded(es: seq<WalEntry>, hashes: map<Key, Id>, chunk: seq<Match>,
      trades: seq<SettlementTrade>)
    requires HashesRecorded(es, hashes) && Carries(es, chunk, trades)
    ensures HashesRecorded(es, RestoreHashes(hashes, chunk, trades))
    ensures RestoreHashes(hashes, chunk, trades).Keys == hashes.Keys + ChunkKeys(chunk)
    decreases |chunk|
  {
    if chunk != [] {
      var n := |chunk| - 1;
      assert Carries(es, chunk[..n], trades[..n]);
      assert RecordedHash(es, KeyOf(chunk[n]), trades[n].tradeHash);
      RestoreRecorded(es, hashes, chunk[..n], trades[..n]);
      forall k ensures k in ChunkKeys(chunk) <==> k in ChunkKeys(chunk[..n]) || k == KeyOf(chunk[n]) {
        KeysOfLast(chunk, k);
      }
      hide RecordedHash, ChunkKeys, Carries;
    }
  }

  lemma TradeKeysAre(es: seq<WalEntry>, chunk: seq<Match>, trades: seq<SettlementTrade>)
    requires Carries(es, chunk, trades)
    ensures (set k | k in TradeKeys(trades)) == ChunkKeys(chunk)
  {
    hide RecordedHash;
    var keys := TradeKeys(trades);
    forall k ensures k in keys <==> k in ChunkKeys(chunk) {
      if k in keys {
        var i :| 0 <= i < |keys| && keys[i] == k;
        assert KeyOf(chunk[i]) == k;
      }
      if k in ChunkKeys(chunk) {
        var i :| 0 <= i < |chunk| && KeyOf(chunk[i]) == k;
        assert keys[i] == k;
      }
    }
  }

  lemma RecordedKeys(es: seq<WalEntry>, ms: seq<Match>)
    requires TradesRecorded(es, ms)
    ensures ChunkKeys(ms) <= ConfirmKeys(es)
  {
    hide RecordedTrade, ConfirmKeys;
    forall k | k in ChunkKeys(ms) ensures k in ConfirmKeys(es) {
      var i :| 0 <= i < |ms| && KeyOf(ms[i]) == k;
      RecordedTradeKey(es, ms[i]);
    }
  }

  lemma SubmitHeld(es: seq<WalEntry>, w: World, ok: bool)
    requires Held(es, w.node, w.settler)
    ensures var w' := Submit(w, ok); Held(es, w'.node, w'.settler)
  {
    var n, s := w.node, w.settler;
    if s.stage.Submitting? {
      var chunk, trades := s.stage.chunk, s.stage.trades;
      RecordedKeys(es, chunk);
      TradeKeysAre(es, chunk, trades);
      RestoreRecorded(es, n.hashes, chunk, trades);
      EnqueueAllBag(n.pool.queues, chunk);
      hide Carries, HashesRecorded, RestoreHashes, RecordedTrade, CandidatesRecorded, QueuedTrades, EnqueueAll,
          ConfirmKeys,
           Concat, ChunkKeys, TradeKeys;
      if !ok && |trades| == |chunk| {
        BothRecorded(es, QueuedTrades(n.pool.queues), chunk);
        BagRecorded(es, QueuedTrades(n.pool.queues) + chunk, QueuedTrades(EnqueueAll(n.pool.queues, chunk)));
      } else if ok {
        forall k | k in TradeKeys(trades) ensures k in ConfirmKeys(es) {
          assert k in set x | x in TradeKeys(trades);
        }
      }
    }
  }

  lemma ReconcileHeld(es: seq<WalEntry>, w: World, settled: bool)
    requires Held(es, w.node, w.settler)
    ensures var w' := Reconcile(w, settled); Held(es, w'.node, w'.settler)
  {
    var n, s := w.node, w.settler;
    if s.candidates != [] && s.stage.Idle? {
      var c := s.candidates[0];
      assert c in s.candidates;
      assert CandidatesRecorded(es, s.candidates[1..]);
      var key := KeyOf(c.0);
      assert RecordedTrade(es, c.0);
      RecordedTradeKey(es, c.0);
      var kept := QueuedTrades(RetainPending(n.pool.queues, {key}));
      SettlementRuns.RetainSplits(n.pool.queues, {key});
      hide CandidatesRecorded, RecordedTrade, RecordedHash, QueuedTrades, RetainPending, SettlementRuns.RemovedTrades,
          ConfirmKeys, Concat;
      BagRecorded(es, QueuedTrades(n.pool.queues), kept);
      assert HashesRecorded(es, n.hashes - {key});
      assert StageRecorded(es, Landed([key]));
      hide HashesRecorded, TradesRecorded, StageRecorded;
    }
  }

  // ---- Restart ----

  lemma {:induction false} HashAllRecorded(es: seq<WalEntry>, hashes: map<Key, Id>, cs: seq<Candidate>)
    requires HashesRecorded(es, hashes) && CandidatesRecorded(es, cs)
    ensures HashesRecorded(es, HashAll(hashes, cs))
  {
    if cs != [] {
      var init, c := cs[..|cs| - 1], cs[|cs| - 1];
      assert c in cs && forall x :: x in init ==> x in cs;
      HashAllRecorded(es, hashes, init);
      assert CommitConfirmed(c.0, c.1) in es;
      assert RecordedHash(es, KeyOf(c.0), c.1);
      hide RecordedHash;
    }
  }

  lemma MatchesRecorded(es: seq<WalEntry>, cs: seq<Candidate>)
    requires CandidatesRecorded(es, cs)
    ensures TradesRecorded(es, MatchesIn(cs))
  {
    hide MatchesIn;
    forall m | m in MatchesIn(cs) ensures RecordedTrade(es, m) {
      MatchesMember(cs, m);
      var i :| 0 <= i < |cs| && cs[i].0 == m;
      assert cs[i] in cs;
      assert CommitConfirmed(m, cs[i].1) in es;
    }
  }

  /** The settlement side after a restart. */
  lemma Restarted(h: Hashes, book: Book, w: World, clock: nat -> u64)
    ensures var n := Recover(h, book, w, clock);
            var cs := Candidates(Tail(w), SettledKeys(Tail(w)));
            var r := Restored(book, w.saved);
            && n.hashes == HashAll(r.hashes, cs)
            && n.pool.queues == EnqueueAll(r.pool.queues, MatchesIn(cs))
            && n.pool == ConfirmAll(r.pool, cs)
  {
    hide FoldCore, HashAll, ConfirmAll, Candidates, SettledKeys, Unapplied, IdsIn, DataAll, Replay, QueuedOrders,
         Restored, After, Times, EnqueueAll, MatchesIn;
    ReplayParts(h, Restored(book, w.saved), Tail(w), Times(clock, |Tail(w)|));
    ConfirmAllQueues(Restored(book, w.saved).pool, Candidates(Tail(w), SettledKeys(Tail(w))));
  }

  lemma RestoredHeld(book: Book, saved: Option<Saved>, es: seq<WalEntry>)
    requires SnapshotHeld(es, saved)
    ensures var r := Restored(book, saved);
            HashesRecorded(es, r.hashes) && TradesRecorded(es, QueuedTrades(r.pool.queues))
  {
    if saved.Some? {
      var s := saved.value.snapshot;
      EnqueueAllBag(EMPTY_QUEUES, s.queued);
      assert multiset(QueuedTrades(EnqueueAll(EMPTY_QUEUES, s.queued))) == multiset(s.queued);
      hide EnqueueAll, QueuedTrades, RecordedHash, RecordedTrade;
      BagRecorded(es, s.queued, QueuedTrades(EnqueueAll(EMPTY_QUEUES, s.queued)));
    }
  }

  lemma RestartHeld(h: Hashes, book: Book, w: World, clock: nat -> u64, gap: nat)
    requires Recorded(w) && DiskOk(w)
    ensures Recorded(Restart(h, book, w, clock, gap))
  {
    var j, n := w.trace.logged.entries, w.trace.covered;
    var r, cs := Restored(book, w.saved), Candidates(Tail(w), SettledKeys(Tail(w)));
    assert Tail(w) == j[n..];
    assert Within(j[..n], j) && Within(j[n..], j);
    Restarted(h, book, w, clock);
    RestoredHeld(book, w.saved, j[..n]);
    GrowHashes(j[..n], j, r.hashes);
    GrowTrades(j[..n], j, QueuedTrades(r.pool.queues));
    assert CandidatesRecorded(j, cs) by {
      forall c | c in cs ensures CommitConfirmed(c.0, c.1) in j { CandidateIsEntry(Tail(w), SettledKeys(Tail(w)), c); }
    }
    hide Within, HashesRecorded, RecordedTrade, Candidates, SettledKeys, After, Restored, Recover, HashAll,
        EnqueueAll, MatchesIn,
         CandidatesRecorded, QueuedTrades;
    HashAllRecorded(j, r.hashes, cs);
    MatchesRecorded(j, cs);
    EnqueueAllBag(r.pool.queues, MatchesIn(cs));
    var queues := EnqueueAll(r.pool.queues, MatchesIn(cs));
    BothRecorded(j, QueuedTrades(r.pool.queues), MatchesIn(cs));
    BagRecorded(j, QueuedTrades(r.pool.queues) + MatchesIn(cs), QueuedTrades(queues));
    assert TradesRecorded(j, []);
    hide TradesRecorded;
  }

  // ---- Every step, every run ----

  lemma SnocWithin(es: seq<WalEntry>, e: WalEntry)
    ensures Within(es, es + [e])
  {
  }

  /** Writing an entry that leaves the settlement side alone. */
  lemma QuietRecorded(w: World, e: WalEntry, clock: u64, write: Write, acted: Node, failed: Node)
    requires Recorded(w) && w.alive
    requires acted.hashes == failed.hashes == w.node.hashes && acted.pool == failed.pool == w.node.pool
    ensures Recorded(Durably(w, e, clock, write, acted, failed))
  {
    var t, w' := w.trace, Durably(w, e, clock, write, acted, failed);
    hide HashesRecorded, TradesRecorded, StageRecorded, CandidatesRecorded, QueuedTrades, Concat, Renewed,
        SnapshotHeld, Within;
    assert w'.trace.logged.entries[..t.covered] == t.logged.entries[..t.covered];
    SnocWithin(t.acted.entries, e);
    GrowHeld(t.acted.entries, t.acted.entries + [e], w.node, w.settler);
  }

  lemma ConfirmRecorded(w: World, key: Key, tradeHash: Id, write: Write)
    requires Recorded(w) && w.alive
    ensures Recorded(ConfirmPending(w, key, tradeHash, write))
  {
    var n, t := w.node, w.trace;
    if key in n.core.pending {
      var m := n.core.pending[key];
      var core, e := n.core.(pending := n.core.pending - {key}), CommitConfirmed(m, tradeHash);
      var acted := ConfirmLocally(n.(core := core), m, tradeHash);
      hide HashesRecorded, TradesRecorded, StageRecorded, CandidatesRecorded, QueuedTrades, Concat, Renewed,
          SnapshotHeld,
           SettlementRuns.Confirm, ConfirmLocally;
      if write.Written? {
        var w' := Durably(w, e, 0, write, acted, n);
        assert w'.trace.logged.entries[..t.covered] == t.logged.entries[..t.covered];
        ConfirmHeld(t.acted.entries, n, w.settler, core, m, tradeHash);
      } else {
        QuietRecorded(w, e, 0, write, n, n);
        FailedSame(w, e, 0, write, acted, n);
      }
    }
  }

  lemma HeadRecorded(h: Hashes, w: World, ts: Option<u64>, clock: u64, write: Write)
    requires Recorded(w) && w.alive && w.inflight != []
    ensures Recorded(ApplyHead(h, w, ts, clock, write))
  {
    var w' := w.(inflight := w.inflight[1..]);
    assert Recorded(w');
    hide Recorded, Durably, CoreStep;
    var id := w.inflight[0];
    if id in w.node.data {
      var (o, r) := w.node.data[id];
      var taken := w.node.(data := w.node.data - {id});
      var e := OrderAccepted(o, r, ts);
      QuietRecorded(w', e, clock, write, taken.(core := CoreStep(h, taken.core, e, clock)), taken);
    }
  }

  lemma IntakeRecorded(w: World, o: Order, r: Receipt, write: Write)
    requires Recorded(w) && w.alive
    ensures Recorded(Intake(w, o, r, write))
  {
    var n := w.node;
    hide Recorded, Durably;
    if o.id !in n.data && o.id !in n.core.applied {
      QuietRecorded(w, OrderQueued(o, r), 0, write, n.(buffer := n.buffer + [o.id], data := n.data[o.id := (o, r)]), n);
    }
  }

  lemma CheckpointRecorded(w: World, write: Write)
    requires Recorded(w) && w.alive
    ensures Recorded(Checkpoint(w, write))
  {
    if w.settler.stage.Landed? {
      var w', keys := w.(settler := w.settler.(stage := Idle)), w.settler.stage.keys;
      assert Recorded(w');
      hide Recorded, Durably;
      QuietRecorded(w', BatchSubmitted(keys), 0, write, w.node, w.node);
    }
  }

  lemma CycleRecorded(w: World, core: Core, saves: bool, removed: set<nat>)
    requires Recorded(w) && w.alive
    ensures Recorded(CycleSnapshot(w, core, saves, removed))
  {
    var es := w.trace.acted.entries;
    assert es[..|es|] == es;
    hide HashesRecorded, TradesRecorded, StageRecorded, CandidatesRecorded, QueuedTrades, Concat, Truncate;
  }

  lemma MemoryHeld(h: Hashes, book: Book, w: World, op: Op)
    requires Recorded(w) && w.alive && MemoryOp(op)
    ensures Recorded(Do(h, book, w, op))
  {
    var es, w' := w.trace.acted.entries, Do(h, book, w, op);
    MemoryStep(h, book, w, op);
    hide SnapshotHeld, Process, PrepareChunk, Submit, Reconcile, HashesRecorded, TradesRecorded, StageRecorded,
         CandidatesRecorded;
    match op
    case Flush(_) => assert w'.settler == w.settler;
    case Diverge => assert w'.settler == w.settler;
    case ProcessOp(express, standard, size, prover) => ProcessHeld(es, w, express, standard, size, prover);
    case PrepareOp(accepts, resolve) => PrepareHeld(es, w, accepts, resolve);
    case SubmitOp(ok) => SubmitHeld(es, w, ok);
    case ReconcileOp(settled) => ReconcileHeld(es, w, settled);
  }

  lemma StepRecorded(h: Hashes, book: Book, w: World, op: Op)
    requires Simulates(h, book, w, false) && Recorded(w)
    ensures Recorded(Do(h, book, w, op))
  {
    var n := w.node;
    assert DiskOk(w);
    hide Simulates, Recorded, CoreStep, Restart, CycleSnapshot, Trim, Intake, ConfirmPending, Durably, ApplyHead,
         Process, PrepareChunk, Submit, Checkpoint, Reconcile;
    if op.Crash? {
      RestartHeld(h, book, w, op.bootClock, op.gap);
    } else if w.alive {
      if MemoryOp(op) {
        MemoryHeld(h, book, w, op);
      } else {
        match op
        case Queue(o, r, write) => IntakeRecorded(w, o, r, write);
        case AcceptNow(o, r, clock, write) =>
          var e := OrderAccepted(o, r, None);
          QuietRecorded(w, e, clock, write, n.(core := CoreStep(h, n.core, e, clock)), n);
        case ApplyNext(ts, clock, write) => if w.inflight != [] { HeadRecorded(h, w, ts, clock, write); }
        case ConfirmOp(key, tradeHash, write) => ConfirmRecorded(w, key, tradeHash, write);
        case CheckpointOp(write) => CheckpointRecorded(w, write);
        case SnapshotCycle(keepOrders, keepMatches, saves, removed) =>
          CycleRecorded(w, Trim(n.core, keepOrders, keepMatches), saves, removed);
      }
    }
  }

  /** In every run, across snapshots, crashes and failed writes, everything the settlement side holds
      was confirmed in the log. */
  lemma {:induction false} EveryRunRecorded(h: Hashes, book: Book, ops: seq<Op>)
    ensures Recorded(Run(h, book, ops))
    decreases |ops|
  {
    if ops != [] {
      hide Do, Recorded, Simulates;
      EveryRunRecorded(h, book, ops[..|ops| - 1]);
      EveryRunSimulates(h, book, ops[..|ops| - 1], false);
      StepRecorded(h, book, Run(h, book, ops[..|ops| - 1]), ops[|ops| - 1]);
    }
  }
}
