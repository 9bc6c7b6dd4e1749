/** The settlement side across snapshots: which confirmed trades a snapshot misses, and exactly when a
    restart from it brings back what the whole log would. */
module SnapshotRuns {
  import opened Types
  import opened Engine
  import opened Chunks
  import opened Settlement
  import opened SettlementLoop
  import opened NodeState
  import opened Recovery
  import opened RecoveryTheorems
  import opened NodeRuns
  import opened FailedWrites
  import opened Pipeline
  import opened ConfirmRuns
  import opened ExactlyOnce
  import Batcher
  import SettlementRuns

  // ---- What is held and what is out ----

  /** Of the trades confirmed and not settled, those not held are those taken out. */
  ghost predicate Kept(es: seq<WalEntry>, held: set<Key>, out: set<Key>) {
    && held <= ConfirmKeys(es) && out <= ConfirmKeys(es)
    && forall k :: k !in SettledKeys(es) ==> (k in out <==> k in ConfirmKeys(es) && k !in held)
  }

  function SavedHashes(saved: Option<Saved>): map<Key, Id> {
    if saved.None? then map[] else saved.value.snapshot.hashes
  }

  function SavedQueue(saved: Option<Saved>): seq<Match> {
    if saved.None? then [] else saved.value.snapshot.queued
  }

  function StageChunk(stage: Stage): seq<Match> {
    if stage.Submitting? then stage.chunk else []
  }

  /** Every trade queued, handed over or submitted. */
  ghost function Load(n: Node, s: Settler): multiset<Match> {
    multiset(QueuedTrades(n.pool.queues)) + multiset(Concat(s.ready)) + multiset(StageChunk(s.stage))
  }

  ghost predicate Single(load: multiset<Match>) {
    forall m :: load[m] <= 1
  }

  ghost predicate LiveKept(w: World) {
    && Kept(w.trace.acted.entries, w.node.hashes.Keys, w.trace.out.hashes)
    && Kept(w.trace.acted.entries, QueuedKeys(w.node.pool.queues), w.trace.out.trades)
    && Single(Load(w.node, w.settler))
  }

  ghost predicate SavedKept(w: World)
    requires w.trace.covered <= |w.trace.logged.entries|
  {
    var p := w.trace.logged.entries[..w.trace.covered];
    && Kept(p, SavedHashes(w.saved).Keys, w.trace.savedOut.hashes)
    && Kept(p, ChunkKeys(SavedQueue(w.saved)), w.trace.savedOut.trades)
    && Single(multiset(SavedQueue(w.saved)))
  }

  ghost predicate AllKept(w: World) {
    && (w.alive ==> LiveKept(w))
    && w.trace.covered <= |w.trace.logged.entries|
    && SavedKept(w)
  }

  // ---- Sets ----

  lemma KeptTaken(es: seq<WalEntry>, held: set<Key>, out: set<Key>, taken: set<Key>)
    requires Kept(es, held, out) && taken <= ConfirmKeys(es)
    ensures Kept(es, held - taken, out + taken)
  {
    hide ConfirmKeys, SettledKeys;
  }

  lemma KeptRestored(es: seq<WalEntry>, held: set<Key>, out: set<Key>, back: set<Key>)
    requires Kept(es, held, out) && back <= ConfirmKeys(es)
    ensures Kept(es, held + back, out - back)
  {
    hide ConfirmKeys, SettledKeys;
  }

  lemma KeptNext(es: seq<WalEntry>, held: set<Key>, out: set<Key>, e: WalEntry)
    requires Kept(es, held, out) && !e.CommitConfirmed?
    ensures Kept(es + [e], held, out)
  {
    EntrySnoc(es, e);
    hide ConfirmKeys, SettledKeys, AcceptedSet, AcceptedIds;
  }

  lemma KeptConfirmed(es: seq<WalEntry>, held: set<Key>, out: set<Key>, e: WalEntry)
    requires Kept(es, held, out) && e.CommitConfirmed? && KeyOf(e.m) !in ConfirmKeys(es)
    ensures Kept(es + [e], held + {KeyOf(e.m)}, out)
  {
    EntrySnoc(es, e);
    hide ConfirmKeys, SettledKeys, AcceptedSet, AcceptedIds;
  }

  lemma KeptReplayed(p: seq<WalEntry>, tail: seq<WalEntry>, held: set<Key>, out: set<Key>)
    requires Kept(p, held, out) && ConfirmKeys(p) !! ConfirmKeys(tail)
    ensures Kept(p + tail, held + (ConfirmKeys(tail) - SettledKeys(tail)), out)
  {
    LogConcat(p, tail, {});
    ConfirmKeysConcat(p, tail);
    hide ConfirmKeys, SettledKeys;
  }

  lemma {:induction false} ConfirmKeysConcat(p: seq<WalEntry>, q: seq<WalEntry>)
    ensures ConfirmKeys(p + q) == ConfirmKeys(p) + ConfirmKeys(q)
    decreases |q|
  {
    hide ConfirmKeys, SettledKeys, AcceptedSet, AcceptedIds;
    if q == [] {
      EmptyLog(p, {});
    } else {
      var init, e := SplitLast(q);
      ConfirmKeysConcat(p, init);
      assert p + q == (p + init) + [e];
      EntrySnoc(p + init, e);
      EntrySnoc(init, e);
    }
  }

  // ---- Keys of queues ----

  lemma KeysConcat(a: seq<Match>, b: seq<Match>)
    ensures ChunkKeys(a + b) == ChunkKeys(a) + ChunkKeys(b)
  {
    forall k | k in ChunkKeys(a) + ChunkKeys(b) ensures k in ChunkKeys(a + b) {
      if k in ChunkKeys(a) {
        var i :| 0 <= i < |a| && KeyOf(a[i]) == k;
        assert (a + b)[i] == a[i];
      } else {
        var i :| 0 <= i < |b| && KeyOf(b[i]) == k;
        assert (a + b)[|a| + i] == b[i];
      }
    }
  }

  lemma BagKeys(a: seq<Match>, b: seq<Match>)
    requires multiset(a) <= multiset(b)
    ensures ChunkKeys(a) <= ChunkKeys(b)
  {
    forall k | k in ChunkKeys(a) ensures k in ChunkKeys(b) {
      var i :| 0 <= i < |a| && KeyOf(a[i]) == k;
      assert a[i] in multiset(a);
      assert a[i] in b;
    }
  }

  lemma EnqueuedKeys(q: Queues, ms: seq<Match>)
    ensures QueuedKeys(EnqueueAll(q, ms)) == QueuedKeys(q) + ChunkKeys(ms)
  {
    EnqueueAllBag(q, ms);
    hide EnqueueAll, QueuedTrades, ChunkKeys;
    BagKeys(QueuedTrades(EnqueueAll(q, ms)), QueuedTrades(q) + ms);
    BagKeys(QueuedTrades(q) + ms, QueuedTrades(EnqueueAll(q, ms)));
    KeysConcat(QueuedTrades(q), ms);
  }

  lemma OneEnqueued(q: Queues, m: Match)
    ensures EnqueueAll(q, [m]) == Enqueue(q, m) && ChunkKeys([m]) == {KeyOf(m)}
  {
    assert [m][..0] == [];
    assert KeyOf([m][0]) == KeyOf(m);
  }

  lemma RetainedKeys(q: Queues, k: Key)
    ensures QueuedKeys(RetainPending(q, {k})) == QueuedKeys(q) - {k}
  {
    var kept, gone, all := QueuedTrades(RetainPending(q, {k})), SettlementRuns.RemovedTrades(q, {k}), QueuedTrades(q);
    SettlementRuns.RetainSplits(q, {k});
    hide RetainPending, QueuedTrades, SettlementRuns.RemovedTrades;
    KeysConcat(gone, kept);
    BagKeys(gone + kept, all);
    BagKeys(all, gone + kept);
    assert ChunkKeys(gone) <= {k};
    assert k !in ChunkKeys(kept);
  }

  lemma {:induction false} CandidateTradeKeys(cs: seq<Candidate>)
    ensures ChunkKeys(MatchesIn(cs)) == KeysIn(cs)
  {
    if cs != [] {
      var init, c := cs[..|cs| - 1], cs[|cs| - 1];
      CandidateTradeKeys(init);
      assert cs == init + [c];
      Recovery.KeysSnoc(init, c);
      KeysConcat(MatchesIn(init), [c.0]);
      OneEnqueued(EMPTY_QUEUES, c.0);
      hide KeysIn, ChunkKeys;
    }
  }

  // ---- Each step ----

  lemma SingleLess(a: multiset<Match>, b: multiset<Match>)
    requires Single(a) && b <= a
    ensures Single(b)
  {
    forall m ensures b[m] <= 1 { assert b[m] <= a[m] <= 1; }
  }

  lemma HeldKeys(es: seq<WalEntry>, n: Node, s: Settler)
    requires Held(es, n, s)
    ensures n.hashes.Keys <= ConfirmKeys(es) && QueuedKeys(n.pool.queues) <= ConfirmKeys(es)
    ensures ChunkKeys(StageChunk(s.stage)) <= ConfirmKeys(es)
  {
    RecordedKeys(es, QueuedTrades(n.pool.queues));
    if s.stage.Submitting? { RecordedKeys(es, s.stage.chunk); } else { assert ChunkKeys([]) == {}; }
    hide RecordedHash, ConfirmKeys, ChunkKeys, TradesRecorded, StageRecorded, CandidatesRecorded;
    forall k | k in n.hashes ensures k in ConfirmKeys(es) { RecordedHashKey(es, k, n.hashes[k]); }
  }

  lemma ProcessKept(w: World, express: bool, standard: bool, size: nat, prover: Batcher.Prover)
    requires LiveKept(w) && Held(w.trace.acted.entries, w.node, w.settler)
    ensures LiveKept(Process(w, express, standard, size, prover))
  {
    if size > 0 && w.settler.ready == [] && w.settler.stage.Idle? && w.settler.candidates == [] {
      var es, q := w.trace.acted.entries, w.node.pool.queues;
      var f := SettlementRuns.ProcessBatches(w.node.pool, express, standard, size, prover);
      var taken := QueuedKeys(q) - QueuedKeys(f.pool.queues);
      ProcessHands(w.node.pool, express, standard, size, prover);
      HeldKeys(es, w.node, w.settler);
      var w' := Process(w, express, standard, size, prover);
      hide SettlementRuns.ProcessBatches, QueuedTrades, Concat, ProvenChunks, ChunkKeys, Held, Kept, ConfirmKeys;
      BagKeys(QueuedTrades(f.pool.queues), QueuedTrades(q));
      KeptTaken(es, QueuedKeys(q), w.trace.out.trades, taken);
      assert QueuedKeys(q) - taken == QueuedKeys(f.pool.queues);
      assert w.trace.out.hashes + {} == w.trace.out.hashes;
      SingleLess(Load(w.node, w.settler), Load(w'.node, w'.settler));
    }
  }

  lemma PrepareKept(w: World, accepts: bool, resolve: Resolver)
    requires LiveKept(w) && Held(w.trace.acted.entries, w.node, w.settler)
    ensures LiveKept(PrepareChunk(w, accepts, resolve))
  {
    var s, es := w.settler, w.trace.acted.entries;
    if s.ready != [] && s.stage.Idle? {
      var chunk, w' := s.ready[0], PrepareChunk(w, accepts, resolve);
      assert Concat(s.ready) == chunk + Concat(s.ready[1..]);
      var p := Prepare(w.node.hashes, chunk, resolve);
      PreparedCarries(es, w.node.hashes, chunk, resolve);
      HeldKeys(es, w.node, s);
      hide Prepare, Held, Kept, ConfirmKeys, QueuedTrades, Concat, Carries, HashesRecorded, ChunkKeys, QueuedKeys;
      var taken := w.node.hashes.Keys - p.hashes.Keys;
      KeptTaken(es, w.node.hashes.Keys, w.trace.out.hashes, taken);
      assert w.node.hashes.Keys - taken == p.hashes.Keys;
      assert w.trace.out.trades + {} == w.trace.out.trades;
      SingleLess(Load(w.node, s), Load(w'.node, w'.settler));
    }
  }

  lemma SubmitKept(w: World, ok: bool)
    requires LiveKept(w) && Held(w.trace.acted.entries, w.node, w.settler)
    ensures LiveKept(Submit(w, ok))
  {
    var n, s, es := w.node, w.settler, w.trace.acted.entries;
    if s.stage.Submitting? {
      var chunk, trades, w' := s.stage.chunk, s.stage.trades, Submit(w, ok);
      HeldKeys(es, n, s);
      RestoreRecorded(es, n.hashes, chunk, trades);
      EnqueuedKeys(n.pool.queues, chunk);
      EnqueueAllBag(n.pool.queues, chunk);
      hide Held, Kept, ConfirmKeys, QueuedTrades, Concat, RestoreHashes, EnqueueAll, ChunkKeys, QueuedKeys, TradeKeys,
          Carries,
           HashesRecorded;
      SingleLess(Load(n, s), Load(w'.node, w'.settler));
      KeptRestored(es, n.hashes.Keys, w.trace.out.hashes, ChunkKeys(chunk));
      KeptRestored(es, QueuedKeys(n.pool.queues), w.trace.out.trades, ChunkKeys(chunk));
    }
  }

  lemma CandidateConfirmed(es: seq<WalEntry>, n: Node, s: Settler)
    requires Held(es, n, s) && s.candidates != []
    ensures KeyOf(s.candidates[0].0) in ConfirmKeys(es)
  {
    var c := s.candidates[0];
    assert c in s.candidates;
    assert RecordedTrade(es, c.0);
    hide ConfirmKeys, RecordedTrade;
    RecordedTradeKey(es, c.0);
  }

  lemma RetainedLoad(n: Node, s: Settler, n': Node, s': Settler, key: Key)
    requires Single(Load(n, s)) && n'.pool.queues == RetainPending(n.pool.queues, {key})
    requires s'.ready == s.ready && StageChunk(s'.stage) == StageChunk(s.stage)
    ensures Single(Load(n', s'))
  {
    hide RetainPending, QueuedTrades, Concat, SettlementRuns.RemovedTrades, Single;
    SettlementRuns.RetainSplits(n.pool.queues, {key});
    SingleLess(Load(n, s), Load(n', s'));
  }

  lemma ReconcileKept(w: World, settled: bool)
    requires LiveKept(w) && Held(w.trace.acted.entries, w.node, w.settler)
    ensures LiveKept(Reconcile(w, settled))
  {
    var n, s, es := w.node, w.settler, w.trace.acted.entries;
    hide Held, Kept, QueuedKeys, RetainPending, Load, Single, ConfirmKeys;
    if s.candidates != [] && s.stage.Idle? {
      var key, w' := KeyOf(s.candidates[0].0), Reconcile(w, settled);
      CandidateConfirmed(es, n, s);
      if settled {
        RetainedKeys(n.pool.queues, key);
        RetainedLoad(n, s, w'.node, w'.settler, key);
        KeptTaken(es, n.hashes.Keys, w.trace.out.hashes, {key});
        KeptTaken(es, QueuedKeys(n.pool.queues), w.trace.out.trades, {key});
        assert (n.hashes - {key}).Keys == n.hashes.Keys - {key};
      } else {
        SameLoad(n, s, w'.settler);
      }
    }
  }

  lemma SameLoad(n: Node, s: Settler, s': Settler)
    requires s'.ready == s.ready && s'.stage == s.stage
    ensures Load(n, s') == Load(n, s)
  {
  }

  lemma MemoryKept(h: Hashes, book: Book, w: World, op: Op)
    requires AllKept(w) && Recorded(w) && w.alive && MemoryOp(op)
    ensures AllKept(Do(h, book, w, op))
  {
    hide Held, Process, PrepareChunk, Submit, Reconcile, Kept, ChunkKeys, QueuedKeys, SnapshotHeld, Load, Intake,
         ApplyHead, ConfirmPending, Checkpoint, CycleSnapshot, Restart, Durably, CoreStep, Trim;
    var w' := Do(h, book, w, op);
    MemoryStep(h, book, w, op);
    assert SavedKept(w');
    hide SavedKept;
    match op
    case Flush(_) => FailLive(w, w');
    case Diverge => FailLive(w, w');
    case ProcessOp(express, standard, size, prover) => ProcessKept(w, express, standard, size, prover);
    case PrepareOp(accepts, resolve) => PrepareKept(w, accepts, resolve);
    case SubmitOp(ok) => SubmitKept(w, ok);
    case ReconcileOp(settled) => ReconcileKept(w, settled);
  }

  lemma SameSaved(w: World, w': World)
    requires w.trace.covered <= |w.trace.logged.entries| && SavedKept(w)
    requires w'.saved == w.saved && w'.trace.covered == w.trace.covered && w'.trace.savedOut == w.trace.savedOut
    requires w.trace.logged.entries <= w'.trace.logged.entries
    ensures w'.trace.covered <= |w'.trace.logged.entries| && SavedKept(w')
  {
    var n := w.trace.covered;
    assert w'.trace.logged.entries[..n] == w.trace.logged.entries[..n];
    hide Kept, ChunkKeys, Single;
  }

  lemma ActLive(w: World, e: WalEntry, clock: u64, acted: Node)
    requires LiveKept(w) && !e.CommitConfirmed? && acted.hashes == w.node.hashes && acted.pool == w.node.pool
    ensures LiveKept(Act(Log(w, e, clock), e, clock, acted))
  {
    var t, w' := w.trace, Act(Log(w, e, clock), e, clock, acted);
    hide Kept, QueuedKeys, QueuedTrades, Concat, Renewed;
    KeptNext(t.acted.entries, w.node.hashes.Keys, t.out.hashes, e);
    KeptNext(t.acted.entries, QueuedKeys(w.node.pool.queues), t.out.trades, e);
    assert Load(acted, w.settler) == Load(w.node, w.settler);
    hide Load, Single;
  }

  lemma FailLive(w: World, w': World)
    requires LiveKept(w) && w'.trace.acted == w.trace.acted && w'.trace.out == w.trace.out && w'.settler == w.settler
    requires w'.node.hashes == w.node.hashes && w'.node.pool == w.node.pool
    ensures LiveKept(w')
  {
    hide Kept, QueuedKeys, QueuedTrades, Concat;
  }

  /** Writing an entry that confirms nothing. */
  lemma QuietKept(w: World, e: WalEntry, clock: u64, write: Write, acted: Node, failed: Node)
    requires AllKept(w) && w.alive && (e.CommitConfirmed? ==> !write.Written?)
    requires acted.hashes == failed.hashes == w.node.hashes && acted.pool == failed.pool == w.node.pool
    ensures AllKept(Durably(w, e, clock, write, acted, failed))
  {
    var w' := Durably(w, e, clock, write, acted, failed);
    hide LiveKept, SavedKept, Renewed;
    SameSaved(w, w');
    if write.Written? || (write.Unflushed? && e.BatchSubmitted?) {
      ActLive(w, e, clock, acted);
    } else if !write.Died? {
      FailLive(w, w');
    }
  }

  lemma NotLoaded(es: seq<WalEntry>, n: Node, s: Settler, m: Match)
    requires Held(es, n, s) && KeyOf(m) !in ConfirmKeys(es)
    ensures Load(n, s)[m] == 0
  {
    hide HashesRecorded, RecordedTrade, ConfirmKeys, CandidatesRecorded, QueuedTrades, Concat, Carries;
    if RecordedTrade(es, m) { RecordedTradeKey(es, m); }
    assert m !in QueuedTrades(n.pool.queues) && m !in Concat(s.ready) && m !in StageChunk(s.stage);
  }

  lemma SingleMore(load: multiset<Match>, m: Match)
    requires Single(load) && load[m] == 0
    ensures Single(load + multiset{m})
  {
  }

  lemma ConfirmLive(w: World, e: WalEntry, core: Core)
    requires LiveKept(w) && Held(w.trace.acted.entries, w.node, w.settler)
    requires e.CommitConfirmed? && KeyOf(e.m) !in ConfirmKeys(w.trace.acted.entries)
    ensures LiveKept(Act(Log(w, e, 0), e, 0, ConfirmLocally(w.node.(core := core), e.m, e.tradeHash)))
  {
    var n, t, m := w.node, w.trace, e.m;
    var n' := ConfirmLocally(n.(core := core), m, e.tradeHash);
    var q, es := n.pool.queues, t.acted.entries;
    hide Kept, QueuedTrades, Concat, ChunkKeys, Renewed, Held, EnqueueAll, Enqueue, QueuedKeys, ConfirmKeys;
    assert n'.pool.queues == Enqueue(q, m) && n'.hashes == n.hashes[KeyOf(m) := e.tradeHash];
    OneEnqueued(q, m);
    EnqueuedKeys(q, [m]);
    SettlementRuns.EnqueueBag(q, m);
    NotLoaded(es, n, w.settler, m);
    SingleMore(Load(n, w.settler), m);
    assert Load(n', w.settler) == Load(n, w.settler) + multiset{m};
    KeptConfirmed(es, n.hashes.Keys, t.out.hashes, e);
    KeptConfirmed(es, QueuedKeys(q), t.out.trades, e);
    assert n'.hashes.Keys == n.hashes.Keys + {KeyOf(m)};
    hide ConfirmLocally, Load;
  }

  lemma ConfirmKept(h: Hashes, book: Book, w: World, key: Key, tradeHash: Id, write: Write)
    requires AllKept(w) && Recorded(w) && w.alive && Keyed(w.node.core.pending)
    requires w.node.core.pending.Keys !! ConfirmKeys(w.trace.acted.entries)
    ensures AllKept(ConfirmPending(w, key, tradeHash, write))
  {
    var n, t := w.node, w.trace;
    if key in n.core.pending {
      var m := n.core.pending[key];
      var core, e := n.core.(pending := n.core.pending - {key}), CommitConfirmed(m, tradeHash);
      var acted := ConfirmLocally(n.(core := core), m, tradeHash);
      assert KeyOf(m) == key;
      hide Kept, QueuedKeys, ChunkKeys, Load, ConfirmLocally, Renewed, Held, ConfirmKeys;
      if write.Written? {
        var w' := Durably(w, e, 0, write, acted, n);
        assert w'.trace.logged.entries[..t.covered] == t.logged.entries[..t.covered];
        ConfirmLive(w, e, core);
      } else {
        QuietKept(w, e, 0, write, n, n);
        FailedSame(w, e, 0, write, acted, n);
      }
    }
  }

  lemma HeadKept(h: Hashes, w: World, ts: Option<u64>, clock: u64, write: Write)
    requires AllKept(w) && w.alive && w.inflight != []
    ensures AllKept(ApplyHead(h, w, ts, clock, write))
  {
    var w' := w.(inflight := w.inflight[1..]);
    FailLive(w, w');
    assert AllKept(w');
    hide AllKept, Durably, CoreStep;
    var id := w.inflight[0];
    if id in w.node.data {
      var (o, r) := w.node.data[id];
      var taken := w.node.(data := w.node.data - {id});
      var e := OrderAccepted(o, r, ts);
      QuietKept(w', e, clock, write, taken.(core := CoreStep(h, taken.core, e, clock)), taken);
    }
  }

  lemma IntakeKept(w: World, o: Order, r: Receipt, write: Write)
    requires AllKept(w) && w.alive
    ensures AllKept(Intake(w, o, r, write))
  {
    var n := w.node;
    hide AllKept, Durably;
    if o.id !in n.data && o.id !in n.core.applied {
      QuietKept(w, OrderQueued(o, r), 0, write, n.(buffer := n.buffer + [o.id], data := n.data[o.id := (o, r)]), n);
    }
  }

  lemma CheckpointKept(w: World, write: Write)
    requires AllKept(w) && w.alive
    ensures AllKept(Checkpoint(w, write))
  {
    if w.settler.stage.Landed? {
      var w', keys := w.(settler := w.settler.(stage := Idle)), w.settler.stage.keys;
      assert Load(w'.node, w'.settler) == Load(w.node, w.settler);
      assert LiveKept(w') by { hide Kept, Single, Load, QueuedKeys; }
      assert SavedKept(w') by { hide Kept, Single, ChunkKeys; }
      hide Durably, LiveKept, SavedKept;
      QuietKept(w', BatchSubmitted(keys), 0, write, w.node, w.node);
    }
  }

  lemma CycleKept(w: World, core: Core, saves: bool, removed: set<nat>)
    requires AllKept(w) && w.alive
    ensures AllKept(CycleSnapshot(w, core, saves, removed))
  {
    var w', es := CycleSnapshot(w, core, saves, removed), w.trace.acted.entries;
    assert es[..|es|] == es;
    hide Kept, QueuedTrades, Concat, Truncate, ChunkKeys;
    assert Load(w'.node, w'.settler) == Load(w.node, w.settler);
    SingleLess(Load(w.node, w.settler), multiset(QueuedTrades(w.node.pool.queues)));
    hide Load, Single;
  }

  // ---- Restart ----

  lemma RestoredParts(book: Book, saved: Option<Saved>)
    ensures var r := Restored(book, saved);
            r.hashes == SavedHashes(saved) && r.pool.queues == EnqueueAll(EMPTY_QUEUES, SavedQueue(saved))
  {
  }

  /** The hashes and the queue after a restart. */
  lemma RestartKeys(h: Hashes, book: Book, w: World, clock: nat -> u64)
    ensures var n := Recover(h, book, w, clock);
            var late := ConfirmKeys(Tail(w)) - SettledKeys(Tail(w));
            var cs := Candidates(Tail(w), SettledKeys(Tail(w)));
            && n.hashes.Keys == SavedHashes(w.saved).Keys + late
            && QueuedKeys(n.pool.queues) == ChunkKeys(SavedQueue(w.saved)) + late
            && multiset(QueuedTrades(n.pool.queues)) == multiset(SavedQueue(w.saved)) + multiset(MatchesIn(cs))
  {
    hide *;
    var cs := Candidates(Tail(w), SettledKeys(Tail(w)));
    var saved := EnqueueAll(EMPTY_QUEUES, SavedQueue(w.saved));
    Restarted(h, book, w, clock);
    RestoredParts(book, w.saved);
    CandidateKeys(Tail(w), SettledKeys(Tail(w)));
    HashAllKeys(SavedHashes(w.saved), cs);
    CandidateTradeKeys(cs);
    EnqueuedKeys(EMPTY_QUEUES, SavedQueue(w.saved));
    EnqueuedKeys(saved, MatchesIn(cs));
    EnqueueAllBag(EMPTY_QUEUES, SavedQueue(w.saved));
    EnqueueAllBag(saved, MatchesIn(cs));
    NothingQueuedYet();
  }

  lemma NothingQueuedYet()
    ensures QueuedTrades(EMPTY_QUEUES) == [] && QueuedKeys(EMPTY_QUEUES) == {}
  {
    NothingQueued();
  }

  lemma SingleUnion(a: seq<Match>, b: seq<Match>)
    requires Single(multiset(a)) && Single(multiset(b)) && ChunkKeys(a) !! ChunkKeys(b)
    ensures Single(multiset(a) + multiset(b))
  {
    forall m ensures multiset(a)[m] + multiset(b)[m] <= 1 {
      if m in a { var i :| 0 <= i < |a| && a[i] == m; assert KeyOf(m) in ChunkKeys(a); }
      if m in b { var i :| 0 <= i < |b| && b[i] == m; assert KeyOf(m) in ChunkKeys(b); }
      assert multiset(a)[m] <= 1 && multiset(b)[m] <= 1;
    }
  }

  lemma CandidatesSingle(es: seq<WalEntry>, settled: set<Key>)
    requires ConfirmedOnce(es)
    ensures Single(multiset(MatchesIn(Candidates(es, settled))))
  {
    hide Candidates, MatchesIn, ConfirmedOnce, DistinctKeys;
    CandidatesDistinct(es, settled);
    forall m ensures multiset(MatchesIn(Candidates(es, settled)))[m] <= 1 { MatchOnce(Candidates(es, settled), m); }
  }

  lemma RestartLive(h: Hashes, book: Book, w: World, clock: nat -> u64, gap: nat)
    requires DiskOk(w) && ConfirmedOnce(w.trace.logged.entries)
    requires w.trace.covered <= |w.trace.logged.entries| && SavedKept(w)
    ensures LiveKept(Restart(h, book, w, clock, gap))
  {
    hide Recover, Kept, Candidates, SettledKeys, ConfirmKeys, MatchesIn, QueuedTrades, ChunkKeys, After,
         ConfirmedOnce, QueuedKeys, Single, KeysOk;
    var es, n, w' := w.trace.logged.entries, w.trace.covered, Restart(h, book, w, clock, gap);
    var p, tail := es[..n], es[n..];
    assert Tail(w) == tail && p + tail == es;
    var cs := Candidates(tail, SettledKeys(tail));
    hide DiskOk;
    OnceSplits(es, n);
    RestartKeys(h, book, w, clock);
    KeptReplayed(p, tail, SavedHashes(w.saved).Keys, w.trace.savedOut.hashes);
    KeptReplayed(p, tail, ChunkKeys(SavedQueue(w.saved)), w.trace.savedOut.trades);
    CandidatesSingle(tail, SettledKeys(tail));
    CandidateTradeKeys(cs);
    CandidateKeys(tail, SettledKeys(tail));
    KeptHeld(p, ChunkKeys(SavedQueue(w.saved)), w.trace.savedOut.trades);
    SingleUnion(SavedQueue(w.saved), MatchesIn(cs));
    FreshLoad(w'.node, w'.settler);
  }

  lemma KeptHeld(es: seq<WalEntry>, held: set<Key>, out: set<Key>)
    requires Kept(es, held, out)
    ensures held <= ConfirmKeys(es)
  {
  }

  lemma FreshLoad(n: Node, s: Settler)
    requires s.ready == [] && s.stage.Idle?
    ensures Load(n, s) == multiset(QueuedTrades(n.pool.queues))
  {
  }

  lemma RestartKept(h: Hashes, book: Book, w: World, clock: nat -> u64, gap: nat)
    requires DiskOk(w) && ConfirmedOnce(w.trace.logged.entries) && AllKept(w)
    ensures AllKept(Restart(h, book, w, clock, gap))
  {
    hide LiveKept, DiskOk, Recover, Kept, Candidates, SettledKeys, ChunkKeys, ConfirmedOnce;
    RestartLive(h, book, w, clock, gap);
  }

  // ---- Every run that retries nothing ----

  lemma StepKept(h: Hashes, book: Book, w: World, op: Op)
    requires Simulates(h, book, w, false) && BothFollow(w) && Recorded(w) && Once(w) && AllKept(w) && !op.AcceptNow?
    ensures AllKept(Do(h, book, w, op))
  {
    var n := w.node;
    assert DiskOk(w);
    if w.alive {
      PendingNotConfirmed(h, book, w);
      LiveKeyed(h, book, w, false);
    }
    hide Simulates, DiskOk, BothFollow, Recorded, AllKept, CoreStep, Restart, CycleSnapshot, Trim, Intake,
        ConfirmPending, Durably,
         ApplyHead, Process, PrepareChunk, Submit, Checkpoint, Reconcile, ConfirmKeys, Distinct, AcceptedIds;
    if op.Crash? {
      RestartKept(h, book, w, op.bootClock, op.gap);
    } else if w.alive {
      if MemoryOp(op) {
        MemoryKept(h, book, w, op);
      } else {
        match op
        case Queue(o, r, write) => IntakeKept(w, o, r, write);
        case ApplyNext(ts, clock, write) => if w.inflight != [] { HeadKept(h, w, ts, clock, write); }
        case ConfirmOp(key, tradeHash, write) => ConfirmKept(h, book, w, key, tradeHash, write);
        case CheckpointOp(write) => CheckpointKept(w, write);
        case SnapshotCycle(keepOrders, keepMatches, saves, removed) =>
          CycleKept(w, Trim(n.core, keepOrders, keepMatches), saves, removed);
      }
    }
  }

  /** In every sequenced run that retries nothing: of the confirmed and unsettled trades, the hashes lack
      exactly those taken out and not put back, so does the queue, and so did the snapshot; and no trade
      is queued, handed over or submitted twice. */
  lemma {:induction false} EveryRunKept(h: Hashes, book: Book, ops: seq<Op>)
    requires Sequenced(ops) && NeverRetries(h, book, ops)
    ensures AllKept(Run(h, book, ops)) && Once(Run(h, book, ops))
    decreases |ops|
  {
    OnceIff(h, book, ops);
    if ops == [] {
      EmptyKept(book);
    } else {
      var init := ops[..|ops| - 1];
      hide Do, AllKept, Once, Recorded, BothFollow, Simulates, Retries, AlwaysOnce, Run;
      RunLast(h, book, ops);
      EveryRunKept(h, book, init);
      EveryRunSimulates(h, book, init, false);
      EveryRunFollows(h, book, init);
      EveryRunRecorded(h, book, init);
      StepKept(h, book, Run(h, book, init), ops[|ops| - 1]);
    }
  }

  lemma EmptyKept(book: Book)
    ensures AllKept(Initial(book))
  {
    assert ChunkKeys([]) == {};
    assert Initial(book).trace.logged.entries[..0] == [];
  }

  /** A trade handed over or submitted is out of the queue, unless it is settled. */
  lemma InFlightIsOut(h: Hashes, book: Book, ops: seq<Op>, m: Match)
    requires Sequenced(ops) && NeverRetries(h, book, ops) && Run(h, book, ops).alive
    requires var s := Run(h, book, ops).settler; m in Concat(s.ready) || m in StageChunk(s.stage)
    ensures var t := Run(h, book, ops).trace; KeyOf(m) in t.out.trades || KeyOf(m) in SettledKeys(t.acted.entries)
  {
    var w := Run(h, book, ops);
    EveryRunKept(h, book, ops);
    EveryRunRecorded(h, book, ops);
    var es, q := w.trace.acted.entries, w.node.pool.queues;
    hide Run, HashesRecorded, RecordedTrade, Carries, CandidatesRecorded, SettledKeys, ConfirmKeys, ConfirmedOnce,
        QueuedTrades, Concat,
         Distinct, AcceptedIds, NeverRetries, SnapshotHeld, SavedKept;
    assert RecordedTrade(es, m);
    RecordedTradeKey(es, m);
    assert Load(w.node, w.settler)[m] <= 1;
    assert m !in QueuedTrades(q);
    if KeyOf(m) in QueuedKeys(q) {
      var i :| 0 <= i < |QueuedTrades(q)| && KeyOf(QueuedTrades(q)[i]) == KeyOf(m);
      SameTrade(es, m, QueuedTrades(q)[i]);
      assert false;
    }
  }

  lemma SameTrade(es: seq<WalEntry>, m: Match, m': Match)
    requires ConfirmedOnce(es) && RecordedTrade(es, m) && RecordedTrade(es, m') && KeyOf(m) == KeyOf(m')
    ensures m == m'
  {
    var t :| CommitConfirmed(m, t) in es;
    var t' :| CommitConfirmed(m', t') in es;
    OneEntry(es, m, t, m', t');
  }

  // ---- When a snapshot brings everything back ----

  lemma KeysSameIff(p: seq<WalEntry>, tail: seq<WalEntry>, held: set<Key>, out: set<Key>)
    requires Kept(p, held, out) && ConfirmKeys(p) !! ConfirmKeys(tail) && SettledAfterConfirmed(p, tail)
    ensures var es := p + tail;
            ConfirmKeys(es) - SettledKeys(es) == held + (ConfirmKeys(tail) - SettledKeys(tail))
            <==> held !! SettledKeys(es) && out <= SettledKeys(es)
  {
    var es := p + tail;
    LogConcat(p, tail, {});
    ConfirmKeysConcat(p, tail);
    hide ConfirmKeys, SettledKeys;
    var left, right := ConfirmKeys(es) - SettledKeys(es), held + (ConfirmKeys(tail) - SettledKeys(tail));
    if left == right {
      forall k | k in held ensures k !in SettledKeys(es) { assert k in left; }
      forall k | k in out ensures k in SettledKeys(es) {
        assert k in left <==> k in right;
      }
    }
    if held !! SettledKeys(es) && out <= SettledKeys(es) {
      forall k ensures k in left <==> k in right {
        if k in ConfirmKeys(p) && k !in held && k !in SettledKeys(p) { assert k in out; }
      }
    }
  }

  /** A key confirmed once has one hash and one match. */
  lemma OneEntry(es: seq<WalEntry>, m: Match, t: Id, m': Match, t': Id)
    requires ConfirmedOnce(es) && CommitConfirmed(m, t) in es && CommitConfirmed(m', t') in es && KeyOf(m) == KeyOf(m')
    ensures m == m' && t == t'
  {
    var i :| 0 <= i < |es| && es[i] == CommitConfirmed(m, t);
    var j :| 0 <= j < |es| && es[j] == CommitConfirmed(m', t');
    assert i == j;
  }

  lemma SameHashesIff(es: seq<WalEntry>, a: map<Key, Id>, b: map<Key, Id>)
    requires ConfirmedOnce(es) && HashesRecorded(es, a) && HashesRecorded(es, b)
    ensures a == b <==> a.Keys == b.Keys
  {
    hide ConfirmedOnce;
    if a.Keys == b.Keys {
      forall k | k in a ensures a[k] == b[k] {
        assert RecordedHash(es, k, a[k]) && RecordedHash(es, k, b[k]);
        var m :| CommitConfirmed(m, a[k]) in es && KeyOf(m) == k;
        var m' :| CommitConfirmed(m', b[k]) in es && KeyOf(m') == k;
        OneEntry(es, m, a[k], m', b[k]);
      }
    }
  }

  lemma SameTradesIff(es: seq<WalEntry>, a: seq<Match>, b: seq<Match>)
    requires ConfirmedOnce(es) && TradesRecorded(es, a) && TradesRecorded(es, b)
    requires Single(multiset(a)) && Single(multiset(b))
    ensures multiset(a) == multiset(b) <==> ChunkKeys(a) == ChunkKeys(b)
  {
    hide ConfirmedOnce, RecordedTrade;
    if multiset(a) == multiset(b) {
      BagKeys(a, b);
      BagKeys(b, a);
    }
    if ChunkKeys(a) == ChunkKeys(b) {
      forall m ensures multiset(a)[m] == multiset(b)[m] {
        SameMember(es, a, b, m);
        SameMember(es, b, a, m);
        assert multiset(a)[m] <= 1 && multiset(b)[m] <= 1;
        assert m in a <==> m in multiset(a);
        assert m in b <==> m in multiset(b);
      }
    }
  }

  lemma SameMember(es: seq<WalEntry>, a: seq<Match>, b: seq<Match>, m: Match)
    requires ConfirmedOnce(es) && TradesRecorded(es, a) && TradesRecorded(es, b) && ChunkKeys(a) == ChunkKeys(b)
    ensures m in a ==> m in b
  {
    hide ConfirmedOnce;
    if m in a {
      var i :| 0 <= i < |a| && a[i] == m;
      assert KeyOf(m) in ChunkKeys(a);
      var j :| 0 <= j < |b| && KeyOf(b[j]) == KeyOf(m);
      SameTrade(es, m, b[j]);
    }
  }

  /** Recovery from the whole log: the settlement side is what was confirmed and not settled. */
  lemma FullKeys(h: Hashes, book: Book, es: seq<WalEntry>, clocks: seq<u64>)
    requires |clocks| == |es|
    ensures var n := Full(h, book, es, clocks);
            && n.hashes.Keys == ConfirmKeys(es) - SettledKeys(es) && HashesRecorded(es, n.hashes)
            && QueuedKeys(n.pool.queues) == ConfirmKeys(es) - SettledKeys(es)
            && TradesRecorded(es, QueuedTrades(n.pool.queues))
            && multiset(QueuedTrades(n.pool.queues)) == multiset(MatchesIn(Candidates(es, SettledKeys(es))))
  {
    hide *;
    var cs := Candidates(es, SettledKeys(es));
    AllCandidatesRecorded(es, SettledKeys(es));
    RestoredPrefix(h, book, es, clocks);
    CandidateKeys(es, SettledKeys(es));
    HashAllKeys(map[], cs);
    HashAllRecorded(es, map[], cs);
    MatchesRecorded(es, cs);
    QueuedMatches(es, MatchesIn(cs));
    CandidateTradeKeys(cs);
  }

  lemma AllCandidatesRecorded(es: seq<WalEntry>, settled: set<Key>)
    ensures CandidatesRecorded(es, Candidates(es, settled)) && HashesRecorded(es, map[])
  {
    hide Candidates;
    forall c | c in Candidates(es, settled) ensures CommitConfirmed(c.0, c.1) in es {
      CandidateIsEntry(es, settled, c);
    }
  }

  lemma QueuedMatches(es: seq<WalEntry>, ms: seq<Match>)
    requires TradesRecorded(es, ms)
    ensures var q := EnqueueAll(EMPTY_QUEUES, ms);
            && QueuedKeys(q) == ChunkKeys(ms) && TradesRecorded(es, QueuedTrades(q))
            && multiset(QueuedTrades(q)) == multiset(ms)
  {
    EnqueueAllBag(EMPTY_QUEUES, ms);
    EnqueuedKeys(EMPTY_QUEUES, ms);
    NothingQueuedYet();
    hide EnqueueAll, QueuedTrades, QueuedKeys, TradesRecorded, ChunkKeys;
    assert multiset(QueuedTrades(EnqueueAll(EMPTY_QUEUES, ms))) == multiset(ms);
    BagRecorded(es, ms, QueuedTrades(EnqueueAll(EMPTY_QUEUES, ms)));
  }

  /** At any moment of any sequenced run that retries nothing: a restart from the snapshot brings back
      the confirmed hashes the whole log would if and only if none the snapshot holds, and all that were
      out when it was saved, have been checkpointed; and the queued trades by the same condition on the
      queue. */
  lemma SnapshotRecoversIff(h: Hashes, book: Book, ops: seq<Op>, clock: nat -> u64, cf: seq<u64>)
    requires Sequenced(ops) && NeverRetries(h, book, ops)
    requires |cf| == |Run(h, book, ops).trace.logged.entries|
    ensures var w := Run(h, book, ops);
            var full := Full(h, book, w.trace.logged.entries, cf);
            var back := Recover(h, book, w, clock);
            var settled := SettledKeys(w.trace.logged.entries);
            && (full.hashes == back.hashes
                <==> SavedHashes(w.saved).Keys !! settled && w.trace.savedOut.hashes <= settled)
            && (SameTrades(full.pool.queues, back.pool.queues)
                <==> ChunkKeys(SavedQueue(w.saved)) !! settled && w.trace.savedOut.trades <= settled)
  {
    hide *;
    EveryRunKept(h, book, ops);
    EveryRunSimulates(h, book, ops, false);
    EveryRunRecorded(h, book, ops);
    EveryRunFollows(h, book, ops);
    RecoversIff(h, book, Run(h, book, ops), clock, cf);
  }

  lemma RecoversIff(h: Hashes, book: Book, w: World, clock: nat -> u64, cf: seq<u64>)
    requires Simulates(h, book, w, false) && Recorded(w) && BothFollow(w) && Once(w) && AllKept(w)
    requires |cf| == |w.trace.logged.entries|
    ensures var full := Full(h, book, w.trace.logged.entries, cf);
            var back := Recover(h, book, w, clock);
            var settled := SettledKeys(w.trace.logged.entries);
            && (full.hashes == back.hashes
                <==> SavedHashes(w.saved).Keys !! settled && w.trace.savedOut.hashes <= settled)
            && (SameTrades(full.pool.queues, back.pool.queues)
                <==> ChunkKeys(SavedQueue(w.saved)) !! settled && w.trace.savedOut.trades <= settled)
  {
    var es, n := w.trace.logged.entries, w.trace.covered;
    var p, tail := es[..n], es[n..];
    assert DiskOk(w);
    assert p + tail == es && Tail(w) == tail && ConfirmedOnce(es) && Follows(es);
    assert Kept(p, SavedHashes(w.saved).Keys, w.trace.savedOut.hashes);
    assert Kept(p, ChunkKeys(SavedQueue(w.saved)), w.trace.savedOut.trades);
    var full, back := Full(h, book, es, cf), Recover(h, book, w, clock);
    BackSound(h, book, w, clock);
    hide *;
    OnceSplits(es, n);
    SplitsSettledAfterConfirmed(es, n);
    RestartKeys(h, book, w, clock);
    FullKeys(h, book, es, cf);
    CandidatesSingle(es, SettledKeys(es));
    KeysSameIff(p, tail, SavedHashes(w.saved).Keys, w.trace.savedOut.hashes);
    KeysSameIff(p, tail, ChunkKeys(SavedQueue(w.saved)), w.trace.savedOut.trades);
    SameHashesIff(es, full.hashes, back.hashes);
    SameTradesIff(es, QueuedTrades(full.pool.queues), QueuedTrades(back.pool.queues));
    QueueIs(full.pool.queues, back.pool.queues);
  }

  lemma QueueIs(a: Queues, b: Queues)
    ensures QueuedKeys(a) == ChunkKeys(QueuedTrades(a)) && QueuedKeys(b) == ChunkKeys(QueuedTrades(b))
    ensures SameTrades(a, b) <==> multiset(QueuedTrades(a)) == multiset(QueuedTrades(b))
  {
  }

  lemma BackSound(h: Hashes, book: Book, w: World, clock: nat -> u64)
    requires Simulates(h, book, w, false) && Recorded(w) && Once(w) && AllKept(w)
    ensures var n := Recover(h, book, w, clock);
            && HashesRecorded(w.trace.logged.entries, n.hashes)
            && TradesRecorded(w.trace.logged.entries, QueuedTrades(n.pool.queues))
            && Single(multiset(QueuedTrades(n.pool.queues)))
  {
    var w' := Restart(h, book, w, clock, 0);
    assert DiskOk(w);
    RestartHeld(h, book, w, clock, 0);
    RestartLive(h, book, w, clock, 0);
    assert Held(w.trace.logged.entries, w'.node, w'.settler);
    FreshLoad(w'.node, w'.settler);
    hide Recover, HashesRecorded, TradesRecorded, StageRecorded, CandidatesRecorded, Kept, Single, QueuedTrades,
        Candidates, SettledKeys;
  }

  // ---- What a snapshot loses ----

  lemma CycleFacts(h: Hashes, book: Book, w: World, keepOrders: nat, keepMatches: nat, removed: set<nat>)
    requires DiskOk(w) && w.alive && w.wal != []
    ensures var w' := Do(h, book, w, SnapshotCycle(keepOrders, keepMatches, true, removed));
            w'.trace.logged == w.trace.acted && SavedHashes(w'.saved) == w.node.hashes && Tail(w') == []
  {
    hide Trim, Truncate, QueuedTrades, DiskOk, After;
    CycleDisk(w, Trim(w.node.core, keepOrders, keepMatches), true, removed);
  }

  lemma LiveOut(w: World, key: Key)
    requires LiveKept(w) && key in w.trace.out.hashes && key !in SettledKeys(w.trace.acted.entries)
    ensures var es := w.trace.acted.entries; key in ConfirmKeys(es) - SettledKeys(es) && key !in w.node.hashes
  {
    hide ConfirmKeys, SettledKeys, QueuedKeys, Load;
  }

  /** A trade whose hash is out when a snapshot is saved — submitted and not yet settled, or refused
      before — is lost to a restart from that snapshot, though the whole log still owes it. */
  lemma OutIsLost(h: Hashes, book: Book, ops: seq<Op>, keepOrders: nat, keepMatches: nat, removed: set<nat>, key: Key,
      clock: nat -> u64, cf: seq<u64>)
    requires Sequenced(ops) && NeverRetries(h, book, ops)
    requires var w := Run(h, book, ops);
             && w.alive && w.wal != [] && |cf| == |w.trace.acted.entries|
             && key in w.trace.out.hashes && key !in SettledKeys(w.trace.acted.entries)
    ensures var w' := Do(h, book, Run(h, book, ops), SnapshotCycle(keepOrders, keepMatches, true, removed));
            && w'.trace.logged == Run(h, book, ops).trace.acted
            && key in Full(h, book, w'.trace.logged.entries, cf).hashes && key !in Recover(h, book, w', clock).hashes
  {
    var w := Run(h, book, ops);
    EveryRunKept(h, book, ops);
    EveryRunSimulates(h, book, ops, false);
    assert LiveKept(w) && DiskOk(w);
    hide *;
    var w' := Do(h, book, w, SnapshotCycle(keepOrders, keepMatches, true, removed));
    CycleFacts(h, book, w, keepOrders, keepMatches, removed);
    LiveOut(w, key);
    FullKeys(h, book, w.trace.acted.entries, cf);
    RestartKeys(h, book, w', clock);
    EmptyLog([], {});
  }

  // ---- Reconciliation ----

  lemma LoggedCheckpoint(w: World, keys: seq<Key>, write: Write)
    requires w.settler.stage == Landed(keys) && !write.WriteFailed?
    ensures Checkpoint(w, write).trace.logged.entries == w.trace.logged.entries + [BatchSubmitted(keys)]
  {
    hide Renewed;
  }

  /** A candidate found settled on-chain leaves the hashes and the queue, and nothing else does. */
  lemma ReconciledGone(w: World)
    requires w.settler.candidates != [] && w.settler.stage.Idle?
    ensures var key := KeyOf(w.settler.candidates[0].0);
            var q, gone := w.node.pool.queues, Reconcile(w, true);
            && gone.node.hashes == w.node.hashes - {key}
            && QueuedKeys(gone.node.pool.queues) == QueuedKeys(q) - {key}
            && multiset(QueuedTrades(q)) ==
               multiset(SettlementRuns.RemovedTrades(q, {key})) + multiset(QueuedTrades(gone.node.pool.queues))
            && (forall m :: m in SettlementRuns.RemovedTrades(q, {key}) ==> KeyOf(m) == key)
  {
    var key, q := KeyOf(w.settler.candidates[0].0), w.node.pool.queues;
    ReconciledWorld(w);
    hide QueuedKeys, QueuedTrades, RetainPending, SettlementRuns.RemovedTrades, Reconcile;
    SettlementRuns.RetainSplits(q, {key});
    RetainedKeys(q, key);
  }

  /** And once its checkpoint has reached the log, a full replay does not bring it back. */
  lemma ReconciledStaysGone(h: Hashes, book: Book, w: World, write: Write, cf: seq<u64>)
    requires w.settler.candidates != [] && w.settler.stage.Idle? && !write.WriteFailed?
    requires |cf| == |Checkpoint(Reconcile(w, true), write).trace.logged.entries|
    ensures var key := KeyOf(w.settler.candidates[0].0);
            var n := Full(h, book, Checkpoint(Reconcile(w, true), write).trace.logged.entries, cf);
            key !in n.hashes && key !in QueuedKeys(n.pool.queues)
  {
    hide *;
    var key, gone := KeyOf(w.settler.candidates[0].0), Reconcile(w, true);
    ReconciledWorld(w);
    LoggedCheckpoint(gone, [key], write);
    SettledNow(w.trace.logged.entries, key);
    FullKeys(h, book, w.trace.logged.entries + [BatchSubmitted([key])], cf);
  }

  lemma ReconciledWorld(w: World)
    requires w.settler.candidates != [] && w.settler.stage.Idle?
    ensures var key := KeyOf(w.settler.candidates[0].0);
            var gone := Reconcile(w, true);
            && gone.node.hashes == w.node.hashes - {key}
            && gone.node.pool.queues == RetainPending(w.node.pool.queues, {key})
            && gone.settler.stage == Landed([key]) && gone.trace.logged == w.trace.logged
  {
    hide RetainPending;
  }

  lemma SettledNow(es: seq<WalEntry>, key: Key)
    ensures key in SettledKeys(es + [BatchSubmitted([key])])
  {
    EntrySnoc(es, BatchSubmitted([key]));
    assert key in [key];
  }
}
