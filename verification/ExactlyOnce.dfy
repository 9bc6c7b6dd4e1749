/** Sequenced intake over whole runs: exactly when no order is applied twice and no match confirmed
    twice, and exactly when a restart keeps the sequencing buffer in step with its data. */
module ExactlyOnce {
  import opened Types
  import opened Engine
  import PriceTime
  import opened NodeState
  import opened Recovery
  import opened RecoveryTheorems
  import opened NodeRuns
  import opened FailedWrites
  import opened Pipeline
  import opened ConfirmRuns
  import Settlement
  import SettlementRuns

  /** Order-sequencing is on: nothing is applied outside the buffer. */
  ghost predicate Sequenced(ops: seq<Op>) {
    forall i :: 0 <= i < |ops| ==> !ops[i].AcceptNow?
  }

  // ---- Buffered data ----

  /** Buffered data is filed under its own id and none of it is applied. */
  ghost predicate DataOk(data: map<Id, Buffered>, accepted: set<Id>) {
    forall id :: id in data ==> data[id].0.id == id && id !in accepted
  }

  ghost predicate Filed(w: World) {
    w.alive ==> DataOk(w.node.data, AcceptedSet(w.trace.acted.entries))
  }

  lemma DurablyFiled(w: World, e: WalEntry, clock: u64, write: Write, acted: Node, failed: Node)
    requires w.alive && DataOk(failed.data, AcceptedSet(w.trace.acted.entries))
    requires DataOk(acted.data, AcceptedSet(w.trace.acted.entries) + (if e.OrderAccepted? then {e.order.id} else {}))
    ensures Filed(Durably(w, e, clock, write, acted, failed))
  {
    hide AcceptedIds, AcceptedSet, DataOk, Renewed;
    AcceptedSnoc(w.trace.acted.entries, e);
  }

  lemma HeadFiled(h: Hashes, w: World, ts: Option<u64>, clock: u64, write: Write)
    requires Filed(w) && w.alive && w.inflight != []
    ensures Filed(ApplyHead(h, w, ts, clock, write))
  {
    var id := w.inflight[0];
    hide CoreStep, AcceptedSet;
    if id in w.node.data {
      var (o, r) := w.node.data[id];
      var taken := w.node.(data := w.node.data - {id});
      var e := OrderAccepted(o, r, ts);
      DurablyFiled(w.(inflight := w.inflight[1..]), e, clock, write,
                   taken.(core := CoreStep(h, taken.core, e, clock)), taken);
    }
  }

  lemma {:induction false} DataAllKeys(qs: seq<Buffered>, id: Id)
    ensures id in DataAll(map[], qs) <==> id in IdsIn(qs)
    ensures id in DataAll(map[], qs) ==> DataAll(map[], qs)[id].0.id == id
  {
    if qs != [] {
      var init, q := qs[..|qs| - 1], qs[|qs| - 1];
      DataAllKeys(init, id);
      assert IdsIn(qs) == IdsIn(init) + [q.0.id];
    }
  }

  lemma {:induction false} UnappliedMember(qs: seq<Buffered>, applied: set<Id>, id: Id)
    ensures id in IdsIn(Unapplied(qs, applied)) <==> id in IdsIn(qs) && id !in applied
  {
    if qs != [] {
      var init, q := qs[..|qs| - 1], qs[|qs| - 1];
      UnappliedMember(init, applied, id);
      assert IdsIn(qs) == IdsIn(init) + [q.0.id];
      var u := Unapplied(init, applied);
      if q.0.id in applied {
        assert u + [] == u;
      } else {
        assert IdsIn(u + [q]) == IdsIn(u) + [q.0.id];
      }
    }
  }

  /** The buffer after recovery: the tail's queued orders that were never accepted. */
  lemma RecoveredBuffer(h: Hashes, book: Book, w: World, clock: nat -> u64)
    requires Simulates(h, book, w, false)
    ensures var n := Recover(h, book, w, clock);
            var u := Unapplied(QueuedOrders(Tail(w)), AcceptedSet(w.trace.logged.entries));
            n.core.applied == AcceptedSet(w.trace.logged.entries) && n.buffer == IdsIn(u) && n.data == DataAll(map[], u)
  {
    var j := w.trace.logged;
    RecoveryAgrees(h, book, w, clock, false);
    DiskLengths(w);
    AppliedByFold(h, NewCore(book), j.entries, j.clocks);
    hide FoldCore, HashAll, ConfirmAll, Candidates, SettledKeys, Unapplied, IdsIn, DataAll, Replay, QueuedOrders,
        After, Times, AcceptedSet;
    ReplayParts(h, Restored(book, w.saved), Tail(w), Times(clock, |Tail(w)|));
    var u := Unapplied(QueuedOrders(Tail(w)), AcceptedSet(j.entries));
    assert [] + IdsIn(u) == IdsIn(u);
  }

  lemma RestartFiled(h: Hashes, book: Book, w: World, clock: nat -> u64, gap: nat)
    requires Simulates(h, book, w, false)
    ensures Filed(Restart(h, book, w, clock, gap))
  {
    RecoveredBuffer(h, book, w, clock);
    var qs := QueuedOrders(Tail(w));
    var accepted := AcceptedSet(w.trace.logged.entries);
    var data := DataAll(map[], Unapplied(qs, accepted));
    hide Recover, QueuedOrders, Unapplied, DataAll, IdsIn, AcceptedSet, Candidates, SettledKeys;
    forall id | id in data ensures data[id].0.id == id && id !in accepted {
      DataAllKeys(Unapplied(qs, accepted), id);
      UnappliedMember(qs, accepted, id);
    }
  }

  lemma IntakeFiled(h: Hashes, book: Book, w: World, o: Order, r: Receipt, write: Write)
    requires Simulates(h, book, w, false) && Filed(w) && w.alive
    ensures Filed(Intake(w, o, r, write))
  {
    var n := w.node;
    LiveBook(h, book, w);
    hide AcceptedSet, Durably, Simulates, Ideal;
    if o.id !in n.data && o.id !in n.core.applied {
      DurablyFiled(w, OrderQueued(o, r), 0, write, n.(buffer := n.buffer + [o.id], data := n.data[o.id := (o, r)]), n);
    }
  }

  lemma QuietFiled(w: World, e: WalEntry, clock: u64, write: Write, acted: Node, failed: Node)
    requires Filed(w) && w.alive && !e.OrderAccepted? && acted.data == failed.data == w.node.data
    ensures Filed(Durably(w, e, clock, write, acted, failed))
  {
    hide AcceptedSet, DataOk, Durably;
    assert AcceptedSet(w.trace.acted.entries) + {} == AcceptedSet(w.trace.acted.entries);
    DurablyFiled(w, e, clock, write, acted, failed);
  }

  lemma ConfirmFiled(w: World, key: Key, tradeHash: Id, write: Write)
    requires Filed(w) && w.alive
    ensures Filed(ConfirmPending(w, key, tradeHash, write))
  {
    var n := w.node;
    hide Filed, Durably, SettlementRuns.Confirm;
    if key in n.core.pending {
      var m := n.core.pending[key];
      var core := n.core.(pending := n.core.pending - {key});
      QuietFiled(w, CommitConfirmed(m, tradeHash), 0, write, ConfirmLocally(n.(core := core), m, tradeHash), n);
    }
  }

  lemma CheckpointFiled(w: World, write: Write)
    requires Filed(w) && w.alive
    ensures Filed(Checkpoint(w, write))
  {
    if w.settler.stage.Landed? {
      var w' := w.(settler := w.settler.(stage := Idle));
      assert Filed(w');
      hide Filed, Durably;
      QuietFiled(w', BatchSubmitted(w.settler.stage.keys), 0, write, w.node, w.node);
    }
  }

  /** Steps of the settlement loop leave the sequencing side alone. */
  lemma SettlementQuiet(h: Hashes, book: Book, w: World, op: Op)
    requires op.ProcessOp? || op.PrepareOp? || op.SubmitOp? || op.ReconcileOp?
    ensures var w' := Do(h, book, w, op);
            w'.node.data == w.node.data && w'.node.buffer == w.node.buffer && w'.inflight == w.inflight
  {
    hide SettlementRuns.ProcessBatches, SettlementLoop.Prepare, SettlementLoop.RestoreHashes, Settlement.EnqueueAll,
         Settlement.RetainPending, SettlementLoop.ProvenChunks, QueuedKeys, TradeKeys, SettlementLoop.ChunkKeys;
  }

  lemma StepFiled(h: Hashes, book: Book, w: World, op: Op)
    requires Simulates(h, book, w, false) && Filed(w) && !op.AcceptNow?
    ensures Filed(Do(h, book, w, op))
  {
    var n, w' := w.node, Do(h, book, w, op);
    if MemoryOp(op) { MemoryStep(h, book, w, op); }
    if op.ProcessOp? || op.PrepareOp? || op.SubmitOp? || op.ReconcileOp? { SettlementQuiet(h, book, w, op); }
    hide Simulates, AcceptedSet, DataOk, Restart, Trim, Intake, ConfirmPending, Durably, ApplyHead, Truncate,
         BuildSnapshot, Process, PrepareChunk, Submit, Checkpoint, Reconcile;
    if op.Crash? {
      RestartFiled(h, book, w, op.bootClock, op.gap);
    } else if w.alive && !MemoryOp(op) {
      match op
      case Queue(o, r, write) => IntakeFiled(h, book, w, o, r, write);
      case ApplyNext(ts, clock, write) => if w.inflight != [] { HeadFiled(h, w, ts, clock, write); }
      case ConfirmOp(key, tradeHash, write) => ConfirmFiled(w, key, tradeHash, write);
      case CheckpointOp(write) => CheckpointFiled(w, write);
      case SnapshotCycle(_, _, _, _) =>
    }
  }

  lemma {:induction false} EveryRunFiled(h: Hashes, book: Book, ops: seq<Op>)
    requires Sequenced(ops)
    ensures Filed(Run(h, book, ops))
    decreases |ops|
  {
    if ops != [] {
      hide Do, Filed, Simulates;
      EveryRunFiled(h, book, ops[..|ops| - 1]);
      EveryRunSimulates(h, book, ops[..|ops| - 1], false);
      StepFiled(h, book, Run(h, book, ops[..|ops| - 1]), ops[|ops| - 1]);
    }
  }

  // ---- No order applied twice, no match confirmed twice ----

  /** No order id is accepted twice in what recovery reflects, and no match confirmed twice. */
  ghost predicate OnceIn(es: seq<WalEntry>) {
    Distinct(AcceptedIds(es)) && ConfirmedOnce(es)
  }

  ghost predicate Once(w: World) {
    OnceIn(w.trace.logged.entries) && OnceIn(w.trace.acted.entries)
  }

  /** An order whose accepting write reached the log and was reported failed is accepted again. */
  predicate RetriesOrder(w: World, op: Op) {
    && op.ApplyNext? && w.alive && !op.write.WriteFailed?
    && w.inflight != [] && w.inflight[0] in w.node.data && w.inflight[0] in w.trace.lost
  }

  /** A match whose confirming write reached the log and was reported failed is confirmed again. */
  predicate RetriesConfirmation(w: World, op: Op) {
    op.ConfirmOp? && w.alive && !op.write.WriteFailed? && op.key in w.node.core.pending && op.key in w.trace.retracted
  }

  predicate Retries(w: World, op: Op) {
    RetriesOrder(w, op) || RetriesConfirmation(w, op)
  }

  lemma OnceNext(es: seq<WalEntry>, e: WalEntry)
    ensures OnceIn(es + [e]) <==>
            && OnceIn(es)
            && (e.OrderAccepted? ==> e.order.id !in AcceptedSet(es))
            && (e.CommitConfirmed? ==> KeyOf(e.m) !in ConfirmKeys(es))
  {
    hide Distinct, AcceptedIds, AcceptedSet, ConfirmedOnce, ConfirmKeys;
    DistinctNext(es, e);
    ConfirmedOnceNext(es, e);
  }

  predicate Again(t: Trace, e: WalEntry) {
    (e.OrderAccepted? && e.order.id in t.lost) || (e.CommitConfirmed? && KeyOf(e.m) in t.retracted)
  }

  /** An entry new to the node is new to the log exactly if it does not repeat a write that was reported
      failed. */
  lemma DurablyOnceIff(w: World, e: WalEntry, clock: u64, write: Write, acted: Node, failed: Node)
    requires Once(w) && Behind(w) && w.alive
    requires e.OrderAccepted? ==> e.order.id !in AcceptedSet(w.trace.acted.entries)
    requires e.CommitConfirmed? ==> KeyOf(e.m) !in ConfirmKeys(w.trace.acted.entries)
    ensures var w' := Durably(w, e, clock, write, acted, failed);
            && (write.WriteFailed? || !Again(w.trace, e) ==> Once(w'))
            && (!write.WriteFailed? && Again(w.trace, e) ==> !OnceIn(w'.trace.logged.entries))
  {
    hide OnceIn, AcceptedSet, ConfirmKeys, SettledKeys, Renewed;
    OnceNext(w.trace.logged.entries, e);
    OnceNext(w.trace.acted.entries, e);
  }

  lemma PlainOnce(w: World, e: WalEntry, clock: u64, write: Write, acted: Node, failed: Node)
    requires Once(w) && Behind(w) && w.alive && (e.OrderQueued? || e.BatchSubmitted?)
    ensures Once(Durably(w, e, clock, write, acted, failed))
  {
    hide Once, Behind, Durably, OnceIn;
    DurablyOnceIff(w, e, clock, write, acted, failed);
  }

  lemma HeadOnceIff(h: Hashes, book: Book, w: World, op: Op)
    requires Once(w) && Behind(w) && Filed(w) && w.alive && op.ApplyNext?
    ensures var w' := Do(h, book, w, op);
            (!Retries(w, op) ==> Once(w')) && (Retries(w, op) ==> !OnceIn(w'.trace.logged.entries))
  {
    hide CoreStep, Durably, AcceptedSet, ConfirmKeys, SettledKeys, OnceIn;
    if w.inflight != [] {
      var id := w.inflight[0];
      if id in w.node.data {
        var (o, r) := w.node.data[id];
        var taken := w.node.(data := w.node.data - {id});
        var e := OrderAccepted(o, r, op.matchTimestampUs);
        DurablyOnceIff(w.(inflight := w.inflight[1..]), e, op.clock, op.write,
                       taken.(core := CoreStep(h, taken.core, e, op.clock)), taken);
      }
    }
  }

  /** A pending match was not confirmed by the running node. */
  lemma PendingNotConfirmed(h: Hashes, book: Book, w: World)
    requires Simulates(h, book, w, false) && Once(w) && BothFollow(w) && w.alive
    ensures w.node.core.pending.Keys !! ConfirmKeys(w.trace.acted.entries)
  {
    LiveBook(h, book, w);
    hide FoldCore, Follows, Distinct, AcceptedIds, ConfirmedOnce, AcceptedSet, ConfirmKeys, SettledKeys, Simulates;
    DistinctKeysOnce(h, book, w.trace.acted.entries, w.trace.acted.clocks);
  }

  lemma ConfirmOnceIff(h: Hashes, book: Book, w: World, op: Op)
    requires Simulates(h, book, w, false) && Once(w) && Behind(w) && BothFollow(w) && w.alive && op.ConfirmOp?
    ensures var w' := Do(h, book, w, op);
            (!Retries(w, op) ==> Once(w')) && (Retries(w, op) ==> !OnceIn(w'.trace.logged.entries))
  {
    var n, key := w.node, op.key;
    PendingNotConfirmed(h, book, w);
    LiveKeyed(h, book, w, false);
    hide Simulates, BothFollow, Durably, AcceptedSet, ConfirmKeys, SettledKeys, OnceIn, SettlementRuns.Confirm;
    if key in n.core.pending {
      var m := n.core.pending[key];
      var core := n.core.(pending := n.core.pending - {key});
      DurablyOnceIff(w, CommitConfirmed(m, op.tradeHash), 0, op.write,
                     ConfirmLocally(n.(core := core), m, op.tradeHash), n);
    }
  }

  lemma CheckpointOnce(w: World, write: Write)
    requires Once(w) && Behind(w) && w.alive
    ensures Once(Checkpoint(w, write))
  {
    if w.settler.stage.Landed? {
      var w' := w.(settler := w.settler.(stage := Idle));
      assert Once(w') && Behind(w');
      hide Once, Behind, Durably;
      PlainOnce(w', BatchSubmitted(w.settler.stage.keys), 0, write, w.node, w.node);
    }
  }

  lemma IntakeOnce(w: World, o: Order, r: Receipt, write: Write)
    requires Once(w) && Behind(w) && w.alive
    ensures Once(Intake(w, o, r, write))
  {
    var n := w.node;
    hide Once, Behind, Durably;
    if o.id !in n.data && o.id !in n.core.applied {
      PlainOnce(w, OrderQueued(o, r), 0, write, n.(buffer := n.buffer + [o.id], data := n.data[o.id := (o, r)]), n);
    }
  }

  lemma StepOnce(h: Hashes, book: Book, w: World, op: Op)
    requires Apart(h, book, w) && Once(w) && !op.AcceptNow? && !op.ApplyNext? && !op.ConfirmOp?
    ensures Once(Do(h, book, w, op))
  {
    if MemoryOp(op) { MemoryStep(h, book, w, op); }
    assert w.alive ==> Behind(w);
    hide Apart, OnceIn, Behind, Recover, Trim, Intake, Truncate, BuildSnapshot, Process, PrepareChunk, Submit,
        Checkpoint,
         Reconcile, Candidates, SettledKeys;
    if w.alive && !op.Crash? && !MemoryOp(op) {
      match op
      case Queue(o, r, write) => IntakeOnce(w, o, r, write);
      case CheckpointOp(write) => CheckpointOnce(w, write);
      case SnapshotCycle(_, _, _, _) =>
    }
  }

  lemma RetriesWhat(w: World, op: Op)
    ensures Retries(w, op) ==> w.alive && (op.ApplyNext? || op.ConfirmOp?)
  {
  }

  lemma DeadStays(h: Hashes, book: Book, w: World, op: Op)
    requires !w.alive && !op.Crash?
    ensures Do(h, book, w, op) == w
  {
  }

  lemma ApartBehind(h: Hashes, book: Book, w: World)
    requires Apart(h, book, w) && w.alive
    ensures Behind(w)
  {
  }

  /** A step breaks the guarantee exactly if it retries a write that reached the log and was reported
      failed. */
  lemma StepOnceIff(h: Hashes, book: Book, w: World, op: Op)
    requires Simulates(h, book, w, false) && Apart(h, book, w) && BothFollow(w) && Filed(w) && Once(w) && !op.AcceptNow?
    ensures var w' := Do(h, book, w, op);
            (!Retries(w, op) ==> Once(w')) && (Retries(w, op) ==> !OnceIn(w'.trace.logged.entries))
  {
    hide *;
    RetriesWhat(w, op);
    if !op.ApplyNext? && !op.ConfirmOp? {
      StepOnce(h, book, w, op);
    } else if !w.alive {
      DeadStays(h, book, w, op);
    } else {
      ApartBehind(h, book, w);
      if op.ApplyNext? { HeadOnceIff(h, book, w, op); } else { ConfirmOnceIff(h, book, w, op); }
    }
  }

  /** At every moment of the run. */
  ghost predicate AlwaysOnce(h: Hashes, book: Book, ops: seq<Op>)
    decreases |ops|
  {
    OnceIn(Run(h, book, ops).trace.logged.entries) && (ops == [] || AlwaysOnce(h, book, ops[..|ops| - 1]))
  }

  predicate NeverRetries(h: Hashes, book: Book, ops: seq<Op>)
    decreases |ops|
  {
    ops == [] ||
    (NeverRetries(h, book, ops[..|ops| - 1]) && !Retries(Run(h, book, ops[..|ops| - 1]), ops[|ops| - 1]))
  }

  /** Over every sequenced run, with any failed writes, crashes and restarts: the log never accepts an
      order twice nor confirms a match twice if and only if nothing is retried whose write reached the
      log and was reported failed. */
  lemma {:induction false} OnceIff(h: Hashes, book: Book, ops: seq<Op>)
    requires Sequenced(ops)
    ensures AlwaysOnce(h, book, ops) <==> NeverRetries(h, book, ops)
    ensures NeverRetries(h, book, ops) ==> Once(Run(h, book, ops))
    decreases |ops|
  {
    if ops == [] {
      assert Initial(book).trace.logged.entries == [];
    } else {
      var init := ops[..|ops| - 1];
      hide Do, Once, OnceIn, Filed, Apart, BothFollow, Simulates, Retries, Run;
      OnceIff(h, book, init);
      if NeverRetries(h, book, init) {
        EveryRunSimulates(h, book, init, false);
        EveryRunApart(h, book, init);
        EveryRunFollows(h, book, init);
        EveryRunFiled(h, book, init);
        StepOnceIff(h, book, Run(h, book, init), ops[|ops| - 1]);
      }
      RunLast(h, book, ops);
      if Once(Run(h, book, ops)) { OnceLogs(Run(h, book, ops)); }
    }
  }

  lemma OnceLogs(w: World)
    requires Once(w)
    ensures OnceIn(w.trace.logged.entries)
  {
  }

  lemma RunLast(h: Hashes, book: Book, ops: seq<Op>)
    requires ops != []
    ensures Run(h, book, ops) == Do(h, book, Run(h, book, ops[..|ops| - 1]), ops[|ops| - 1])
  {
    hide Do;
  }

  // ---- The failing input ----

  lemma RetriedWorld(h: Hashes, book: Book, w: World, key: Key, tradeHash: Id)
    requires w.alive && key in w.node.core.pending
    ensures var e := CommitConfirmed(w.node.core.pending[key], tradeHash);
            var once := Do(h, book, w, ConfirmOp(key, tradeHash, Unflushed));
            && once.node == w.node && once.alive && once.saved == w.saved
            && once.wal == w.wal + [Rec(w.nextKey, e)] && once.nextKey == w.nextKey + 1
            && once.trace.logged.entries == w.trace.logged.entries + [e]
            && var twice := Do(h, book, once, ConfirmOp(key, tradeHash, Written));
            && twice.saved == w.saved && twice.wal == once.wal + [Rec(once.nextKey, e)]
            && twice.trace.logged.entries == w.trace.logged.entries + [e] + [e]
  {
    hide SettlementRuns.Confirm, Renewed;
  }

  lemma RunKeyed(h: Hashes, book: Book, ops: seq<Op>)
    requires Run(h, book, ops).alive
    ensures Keyed(Run(h, book, ops).node.core.pending) && DiskOk(Run(h, book, ops))
  {
    hide Run, DiskOk;
    EveryRunSimulates(h, book, ops, false);
    LiveKeyed(h, book, Run(h, book, ops), false);
  }

  /** The write of a confirmation reaches the log and is reported failed, so the match stays pending; the
      trader retries. At the end of any run with a pending match, the log then confirms it twice, and a
      restart deposits its value and queues its trade twice. */
  lemma RetriedConfirmation(h: Hashes, book: Book, ops: seq<Op>, key: Key, tradeHash: Id, clock: nat -> u64)
    requires Run(h, book, ops).alive && key in Run(h, book, ops).node.core.pending
    requires key !in SettledKeys(Tail(Run(h, book, ops)))
    ensures var w := Run(h, book, ops);
            var m := w.node.core.pending[key];
            var once := Do(h, book, w, ConfirmOp(key, tradeHash, Unflushed));
            var twice := Do(h, book, once, ConfirmOp(key, tradeHash, Written));
            var cs := Candidates(Tail(w), SettledKeys(Tail(w)));
            && once.node == w.node
            && !ConfirmedOnce(twice.trace.logged.entries)
            && Recover(h, book, twice, clock).pool ==
               SettlementRuns.Confirm(SettlementRuns.Confirm(ConfirmAll(Restored(book, w.saved).pool, cs), m), m)
  {
    hide *;
    var w := Run(h, book, ops);
    var m := w.node.core.pending[key];
    var e := CommitConfirmed(m, tradeHash);
    var once := Do(h, book, w, ConfirmOp(key, tradeHash, Unflushed));
    var twice := Do(h, book, once, ConfirmOp(key, tradeHash, Written));
    RunKeyed(h, book, ops);
    KeyedAt(w.node.core.pending, key);
    RetriedWorld(h, book, w, key, tradeHash);
    TwoConfirmations(w.trace.logged.entries, e);
    RetriedTail(w, once, twice, e);
    TwoCandidates(Tail(w), m, tradeHash);
    Restarted(h, book, twice, clock);
    ConfirmTwice(Restored(book, w.saved).pool, Candidates(Tail(w), SettledKeys(Tail(w))), (m, tradeHash));
  }

  lemma KeyedAt(pending: map<Key, Match>, key: Key)
    requires Keyed(pending) && key in pending
    ensures KeyOf(pending[key]) == key
  {
  }

  lemma LogTail(w: World, e: WalEntry, clock: u64)
    requires DiskOk(w)
    ensures Tail(Log(w, e, clock)) == Tail(w) + [e]
  {
    hide After, KeysOk;
    AfterSnoc(w.wal, Rec(w.nextKey, e), Covers(w));
  }

  lemma RetriedTail(w: World, once: World, twice: World, e: WalEntry)
    requires DiskOk(w)
    requires once.wal == w.wal + [Rec(w.nextKey, e)] && once.nextKey == w.nextKey + 1
    requires twice.wal == once.wal + [Rec(once.nextKey, e)] && twice.saved == w.saved
    ensures Tail(twice) == Tail(w) + [e] + [e]
  {
    hide After, KeysOk;
    AfterSnoc(once.wal, Rec(once.nextKey, e), Covers(w));
    AfterSnoc(w.wal, Rec(w.nextKey, e), Covers(w));
  }

  lemma TwoConfirmations(es: seq<WalEntry>, e: WalEntry)
    requires e.CommitConfirmed?
    ensures !ConfirmedOnce(es + [e] + [e])
  {
    var more := es + [e] + [e];
    assert more[|es|] == e && more[|es| + 1] == e;
  }

  lemma TwoCandidates(es: seq<WalEntry>, m: Match, tradeHash: Id)
    requires KeyOf(m) !in SettledKeys(es)
    ensures var e := CommitConfirmed(m, tradeHash);
            var more := es + [e] + [e];
            Candidates(more, SettledKeys(more)) == Candidates(es, SettledKeys(es)) + [(m, tradeHash)] + [(m, tradeHash)]
  {
    var e := CommitConfirmed(m, tradeHash);
    var s := SettledKeys(es);
    hide Candidates, SettledKeys, ConfirmKeys, QueuedOrders;
    LogSnoc(es, e, s);
    LogSnoc(es + [e], e, s);
    assert s + {} == s;
  }

  lemma ConfirmTwice(p: SettlementRuns.Pool, cs: seq<Candidate>, c: Candidate)
    ensures ConfirmAll(p, cs + [c] + [c]) == SettlementRuns.Confirm(SettlementRuns.Confirm(ConfirmAll(p, cs), c.0), c.0)
  {
    hide ConfirmAll, HashAll, MatchesIn, SettlementRuns.Confirm;
    AllSnoc(map[], p, cs, c);
    AllSnoc(map[], p, cs + [c], c);
  }

  // ---- A run that reaches it ----

  function Offer(): Order {
    Order(1, 1, "", Sell, 1, 1, [], 0, 0, Instant, Seller)
  }

  function Bid(): Order {
    Order(2, 2, "", Buy, 1, 1, [], 0, 0, Instant, Seller)
  }

  lemma OfferRests(book: Book, t: u64)
    requires book.bids == [] && book.asks == []
    ensures var added := Add(book, Offer(), t);
            added.book.asks == [Level(1, [Offer()])] && added.matches == []
  {
    assert Reverse([]) == [];
    assert Sweep(Offer(), [], 1) == SideFill([], [], 1);
    assert Offer().(amount := 1) == Offer();
  }

  lemma BidMatches(book: Book, t: u64)
    requires book.asks == [Level(1, [Offer()])]
    ensures var ms := Add(book, Bid(), t).matches; |ms| == 1 && KeyOf(ms[0]) == (1, 2)
  {
    var levels := [Level(1, [Offer()])];
    assert [Offer()][1..] == [] && levels[1..] == [];
    var f := FillLevel(Bid(), 1, [Offer()], 1);
    assert f.fills == [PriceTime.Fill(Offer(), 1, 1)] + [] && f.left == 0;
    var side := Sweep(Bid(), levels, 1);
    assert side.fills == f.fills + [];
    assert Add(book, Bid(), t).matches == MatchesOf(book, Bid(), side.fills, t);
  }

  lemma OnePending(pending: map<Key, Match>, m: Match)
    ensures AddPending(pending, [m]) == pending[KeyOf(m) := m]
  {
    assert [m][..0] == [];
  }

  lemma AcceptedWorld(h: Hashes, book: Book, w: World, o: Order, r: Receipt)
    requires w.alive
    ensures var w' := Do(h, book, w, AcceptNow(o, r, 0, Written));
            && w'.alive && w'.saved == w.saved && w'.nextKey == w.nextKey + 1
            && w'.wal == w.wal + [Rec(w.nextKey, OrderAccepted(o, r, None))]
            && w'.node.core == Accept(h, w.node.core, o, r, 0)
  {
    hide Accept, Renewed;
  }

  /** Two orders that match, one after the other. */
  function Crossing(r: Receipt, r': Receipt): seq<Op> {
    [AcceptNow(Offer(), r, 0, Written)] + [AcceptNow(Bid(), r', 0, Written)]
  }

  lemma CrossingRun(h: Hashes, book: Book, r: Receipt, r': Receipt)
    ensures Run(h, book, Crossing(r, r')) ==
            Do(h, book, Do(h, book, Initial(book), AcceptNow(Offer(), r, 0, Written)), AcceptNow(Bid(), r', 0, Written))
  {
    hide Run, Do, Initial, Offer, Bid;
    RunOne(h, book, AcceptNow(Offer(), r, 0, Written));
    RunSnoc(h, book, [AcceptNow(Offer(), r, 0, Written)], AcceptNow(Bid(), r', 0, Written));
  }

  lemma BidPending(h: Hashes, c: Core, r: Receipt)
    requires c.book.asks == [Level(1, [Offer()])]
    ensures (1, 2) in Accept(h, c, Bid(), r, 0).pending
  {
    BidMatches(c.book, 0);
    hide Add, AddPending, Offer, Bid;
    var ms := Add(c.book, Bid(), 0).matches;
    assert ms == [ms[0]];
    OnePending(c.pending, ms[0]);
  }

  lemma OfferAccepted(h: Hashes, c: Core, r: Receipt)
    requires c.book.bids == [] && c.book.asks == []
    ensures Accept(h, c, Offer(), r, 0).book.asks == [Level(1, [Offer()])]
  {
    hide Add, AddPending, Offer;
    OfferRests(c.book, 0);
  }

  lemma CrossingPending(h: Hashes, book: Book, r: Receipt, r': Receipt)
    requires book.bids == [] && book.asks == []
    ensures var w := Run(h, book, Crossing(r, r'));
            w.alive && (1, 2) in w.node.core.pending && SettledKeys(Tail(w)) == {}
  {
    hide *;
    var start := Initial(book);
    InitialIs(book);
    CrossingRun(h, book, r, r');
    var w := Do(h, book, start, AcceptNow(Offer(), r, 0, Written));
    var w' := Do(h, book, w, AcceptNow(Bid(), r', 0, Written));
    AcceptedWorld(h, book, start, Offer(), r);
    AcceptedWorld(h, book, w, Bid(), r');
    OfferAccepted(h, start.node.core, r);
    BidPending(h, w.node.core, r');
    NoSnapshotTail(w');
    var a, b := OrderAccepted(Offer(), r, None), OrderAccepted(Bid(), r', None);
    AfterPair(Rec(0, a), Rec(1, b));
    NoneSettled(a, b);
  }

  lemma InitialIs(book: Book)
    ensures var w := Initial(book);
            && w.alive && w.wal == [] && w.nextKey == 0 && w.saved.None? && w.inflight == []
            && w.trace.logged.entries == [] && w.node.core.book == book && w.node.core.applied == {}
            && w.node.data == map[] && w.node.buffer == []
  {
  }

  lemma RunOne(h: Hashes, book: Book, op: Op)
    ensures Run(h, book, [op]) == Do(h, book, Initial(book), op)
  {
    hide Do;
    assert [op][..0] == [];
  }

  lemma RunSnoc(h: Hashes, book: Book, ops: seq<Op>, op: Op)
    ensures Run(h, book, ops + [op]) == Do(h, book, Run(h, book, ops), op)
  {
    hide Do;
    assert (ops + [op])[..|ops|] == ops;
  }

  lemma NoneSettled(a: WalEntry, b: WalEntry)
    requires !a.BatchSubmitted? && !b.BatchSubmitted?
    ensures SettledKeys([] + [a] + [b]) == {}
  {
    hide SettledKeys, ConfirmKeys, AcceptedSet, AcceptedIds;
    EntrySnoc([], a);
    EntrySnoc([] + [a], b);
    EmptyLog([], {});
  }

  /** So the failing input is reached: two orders match, the confirmation's flush fails, the trader
      retries, and the log confirms one match twice. */
  lemma RetryReached(h: Hashes, book: Book, r: Receipt, r': Receipt, tradeHash: Id)
    requires book.bids == [] && book.asks == []
    ensures var w := Run(h, book, Crossing(r, r'));
            var once := Do(h, book, w, ConfirmOp((1, 2), tradeHash, Unflushed));
            var twice := Do(h, book, once, ConfirmOp((1, 2), tradeHash, Written));
            !ConfirmedOnce(twice.trace.logged.entries)
  {
    hide *;
    CrossingPending(h, book, r, r');
    RetriedConfirmation(h, book, Crossing(r, r'), (1, 2), tradeHash, _ => 0);
  }

  // ---- The buffer and its data ----

  /** The data held is that of the ids in the buffer and the batch in flight, each there once. */
  ghost predicate Accounts(w: World) {
    w.alive ==> multiset(w.node.buffer + w.inflight) == multiset(w.node.data.Keys)
  }

  /** The orders a restart would queue again are all different. */
  ghost predicate RequeuesOnce(w: World) {
    Distinct(IdsIn(Unapplied(QueuedOrders(Tail(w)), AcceptedSet(w.trace.logged.entries))))
  }

  lemma TrackedSnoc(ids: seq<Id>, data: map<Id, Buffered>, accepted: set<Id>, id: Id, q: Buffered)
    requires Tracked(ids, data, accepted)
    ensures Tracked(ids + [id], data[id := q], accepted)
  {
  }

  lemma BufferOne(buffer: seq<Id>, inflight: seq<Id>, data: map<Id, Buffered>, id: Id, q: Buffered)
    requires multiset(buffer + inflight) == multiset(data.Keys) && id !in data
    ensures multiset((buffer + [id]) + inflight) == multiset(data[id := q].Keys)
  {
    assert data[id := q].Keys == data.Keys + {id};
    assert multiset((buffer + [id]) + inflight) == multiset(buffer + inflight) + multiset{id};
    assert multiset(data.Keys + {id}) == multiset(data.Keys) + multiset{id};
  }

  lemma TakeHead(buffer: seq<Id>, inflight: seq<Id>, data: map<Id, Buffered>)
    requires multiset(buffer + inflight) == multiset(data.Keys) && inflight != []
    ensures inflight[0] in data
    ensures multiset(buffer + inflight[1..]) == multiset((data - {inflight[0]}).Keys)
  {
    var id := inflight[0];
    assert inflight == [id] + inflight[1..];
    assert multiset(buffer + inflight) == multiset(buffer + inflight[1..]) + multiset{id};
    assert id in multiset(data.Keys);
    assert (data - {id}).Keys == data.Keys - {id};
    assert multiset(data.Keys - {id}) == multiset(data.Keys) - multiset{id};
  }

  lemma HeadAccounts(h: Hashes, w: World, ts: Option<u64>, clock: u64, write: Write)
    requires Accounts(w) && w.alive && w.inflight != []
    ensures Accounts(ApplyHead(h, w, ts, clock, write))
  {
    TakeHead(w.node.buffer, w.inflight, w.node.data);
    hide CoreStep, Renewed;
  }

  lemma QuietAccounts(w: World, e: WalEntry, clock: u64, write: Write, acted: Node, failed: Node)
    requires Accounts(w) && w.alive
    requires acted.buffer == failed.buffer == w.node.buffer && acted.data == failed.data == w.node.data
    ensures Accounts(Durably(w, e, clock, write, acted, failed))
  {
    hide Renewed;
  }

  lemma IntakeAccounts(w: World, o: Order, r: Receipt, write: Write)
    requires Accounts(w) && w.alive
    ensures Accounts(Intake(w, o, r, write))
  {
    var n := w.node;
    hide Renewed;
    if o.id !in n.data && o.id !in n.core.applied {
      BufferOne(n.buffer, w.inflight, n.data, o.id, (o, r));
    }
  }

  /** Every step but a restart keeps buffer and data in step, however its writes turn out. */
  lemma StepAccounts(h: Hashes, book: Book, w: World, op: Op)
    requires Accounts(w) && !op.AcceptNow? && !op.Crash?
    ensures Accounts(Do(h, book, w, op))
  {
    var n := w.node;
    if op.ProcessOp? || op.PrepareOp? || op.SubmitOp? || op.ReconcileOp? {
      MemoryStep(h, book, w, op);
      SettlementQuiet(h, book, w, op);
    }
    assert n.buffer + w.inflight + [] == n.buffer + w.inflight;
    hide CoreStep, Trim, Intake, Durably, ApplyHead, Truncate, BuildSnapshot, Process, PrepareChunk, Submit, Reconcile,
         SettlementRuns.Confirm;
    if w.alive {
      match op
      case Queue(o, r, write) => IntakeAccounts(w, o, r, write);
      case Flush(_) =>
      case ApplyNext(ts, clock, write) => if w.inflight != [] { HeadAccounts(h, w, ts, clock, write); }
      case Diverge =>
      case ConfirmOp(key, tradeHash, write) =>
        if key in n.core.pending {
          var m := n.core.pending[key];
          var core := n.core.(pending := n.core.pending - {key});
          QuietAccounts(w, CommitConfirmed(m, tradeHash), 0, write, ConfirmLocally(n.(core := core), m, tradeHash), n);
        }
      case CheckpointOp(write) =>
        if w.settler.stage.Landed? {
          var w' := w.(settler := w.settler.(stage := Idle));
          QuietAccounts(w', BatchSubmitted(w.settler.stage.keys), 0, write, n, n);
        }
      case SnapshotCycle(_, _, _, _) =>
      case _ =>
    }
  }

  lemma {:induction false} UnappliedDistinct(qs: seq<Buffered>, applied: set<Id>)
    requires Distinct(IdsIn(qs))
    ensures Distinct(IdsIn(Unapplied(qs, applied)))
  {
    if qs != [] {
      var init, q := qs[..|qs| - 1], qs[|qs| - 1];
      assert IdsIn(qs) == IdsIn(init) + [q.0.id];
      assert forall i :: 0 <= i < |init| ==> IdsIn(qs)[i] == IdsIn(init)[i];
      assert q.0.id == IdsIn(qs)[|init|];
      UnappliedDistinct(init, applied);
      var u := Unapplied(init, applied);
      if q.0.id in applied {
        assert u + [] == u;
      } else {
        assert IdsIn(u + [q]) == IdsIn(u) + [q.0.id];
        UnappliedMember(init, applied, q.0.id);
        DistinctIdsSnoc(IdsIn(u), q.0.id);
      }
    }
  }

  lemma {:induction false} DistinctBag(ids: seq<Id>, s: set<Id>)
    requires Distinct(ids) && forall id :: id in ids <==> id in s
    ensures multiset(ids) == multiset(s)
  {
    if ids == [] {
      assert s == {};
    } else {
      var init, id := ids[..|ids| - 1], ids[|ids| - 1];
      assert ids == init + [id];
      DistinctBag(init, s - {id});
      assert multiset(s) == multiset(s - {id}) + multiset{id};
    }
  }

  lemma BagDistinct(ids: seq<Id>, s: set<Id>)
    requires multiset(ids) == multiset(s)
    ensures Distinct(ids)
  {
    forall i, j | 0 <= i < j < |ids| ensures ids[i] != ids[j] {
      var rest := ids[i + 1..];
      assert ids == ids[..i] + [ids[i]] + rest;
      assert rest[j - i - 1] == ids[j];
      assert multiset(ids) == multiset(ids[..i]) + multiset{ids[i]} + multiset(rest);
      assert ids[j] in multiset(rest);
      assert multiset(ids)[ids[j]] <= 1 && multiset(ids)[ids[i]] <= 1;
      assert multiset{ids[i]}[ids[j]] == 0;
    }
  }

  /** A restart keeps buffer and data in step if and only if the orders it queues again are all
      different. */
  lemma RestartAccountsIff(h: Hashes, book: Book, w: World, clock: nat -> u64, gap: nat)
    requires Simulates(h, book, w, false)
    ensures Accounts(Restart(h, book, w, clock, gap)) <==> RequeuesOnce(w)
  {
    RecoveredBuffer(h, book, w, clock);
    var w' := Restart(h, book, w, clock, gap);
    var u := Unapplied(QueuedOrders(Tail(w)), AcceptedSet(w.trace.logged.entries));
    var data := DataAll(map[], u);
    hide Simulates, Recover, QueuedOrders, Unapplied, DataAll, IdsIn, AcceptedSet, Distinct, After, Candidates,
        SettledKeys;
    assert w'.node.buffer + w'.inflight == IdsIn(u);
    forall id ensures id in IdsIn(u) <==> id in data.Keys { DataAllKeys(u, id); }
    if Distinct(IdsIn(u)) { DistinctBag(IdsIn(u), data.Keys); }
    if multiset(IdsIn(u)) == multiset(data.Keys) { BagDistinct(IdsIn(u), data.Keys); }
  }

  ghost predicate AlwaysAccounts(h: Hashes, book: Book, ops: seq<Op>)
    decreases |ops|
  {
    Accounts(Run(h, book, ops)) && (ops == [] || AlwaysAccounts(h, book, ops[..|ops| - 1]))
  }

  ghost predicate CrashesRequeueOnce(h: Hashes, book: Book, ops: seq<Op>)
    decreases |ops|
  {
    ops == [] ||
    (&& CrashesRequeueOnce(h, book, ops[..|ops| - 1])
     && (ops[|ops| - 1].Crash? ==> RequeuesOnce(Run(h, book, ops[..|ops| - 1]))))
  }

  /** Over every sequenced run: the data held is always the disjoint union of the buffer and the batch in
      flight if and only if no crash comes while the log after the snapshot queues an order twice that
      was never accepted. */
  lemma {:induction false} BufferExactIff(h: Hashes, book: Book, ops: seq<Op>)
    requires Sequenced(ops)
    ensures AlwaysAccounts(h, book, ops) <==> CrashesRequeueOnce(h, book, ops)
    decreases |ops|
  {
    if ops == [] {
      assert Run(h, book, ops) == Initial(book);
    } else {
      var init, op := ops[..|ops| - 1], ops[|ops| - 1];
      hide Do, Accounts, RequeuesOnce, Simulates, Run;
      BufferExactIff(h, book, init);
      RunLast(h, book, ops);
      EveryRunSimulates(h, book, init, false);
      var w := Run(h, book, init);
      if op.Crash? {
        CrashIsRestart(h, book, w, op);
        RestartAccountsIff(h, book, w, op.bootClock, op.gap);
      } else if Accounts(w) {
        StepAccounts(h, book, w, op);
      }
    }
  }

  lemma CrashIsRestart(h: Hashes, book: Book, w: World, op: Op)
    requires op.Crash?
    ensures Do(h, book, w, op) == Restart(h, book, w, op.bootClock, op.gap)
  {
    hide Restart;
  }

  // ---- A run that fails, and a condition that excludes it ----

  lemma QueuedWorld(h: Hashes, book: Book, w: World, o: Order, r: Receipt)
    requires w.alive && o.id !in w.node.data && o.id !in w.node.core.applied
    ensures var w' := Do(h, book, w, Queue(o, r, Written));
            && w'.alive && w'.inflight == w.inflight && w'.saved == w.saved
            && w'.wal == w.wal + [Rec(w.nextKey, OrderQueued(o, r))] && w'.nextKey == w.nextKey + 1
            && w'.trace.logged.entries == w.trace.logged.entries + [OrderQueued(o, r)]
            && w'.node == w.node.(buffer := w.node.buffer + [o.id], data := w.node.data[o.id := (o, r)])
  {
    hide Renewed;
  }

  lemma ForgottenWorld(h: Hashes, book: Book, w: World, o: Order, r: Receipt, ts: Option<u64>, clock: u64)
    requires w.alive && w.inflight == [] && w.node.buffer == [o.id] && o.id in w.node.data
    ensures var w' := Do(h, book, Do(h, book, w, Flush([o.id])), ApplyNext(ts, clock, WriteFailed));
            && w' == w.(node := w.node.(buffer := [], data := w.node.data - {o.id}))
  {
    hide CoreStep, Renewed;
    var flushed := Do(h, book, w, Flush([o.id]));
    assert flushed == w.(inflight := [o.id], node := w.node.(buffer := []));
    assert [o.id][1..] == [];
  }

  lemma BeforeCrash(h: Hashes, book: Book, o: Order, r: Receipt, ts: Option<u64>, clock: u64)
    ensures var w := Run(h, book, FailedApply(o, r, ts, clock));
            var e := OrderQueued(o, r);
            w.saved.None? && w.wal == [] + [Rec(0, e)] + [Rec(1, e)] && w.trace.logged.entries == [] + [e] + [e]
  {
    hide *;
    FailedApplyRun(h, book, o, r, ts, clock);
    var start := Initial(book);
    InitialIs(book);
    var w := Do(h, book, start, Queue(o, r, Written));
    QueuedWorld(h, book, start, o, r);
    ForgottenWorld(h, book, w, o, r, ts, clock);
    QueuedWorld(h, book, Do(h, book, Do(h, book, w, Flush([o.id])), ApplyNext(ts, clock, WriteFailed)), o, r);
  }

  function FailedApply(o: Order, r: Receipt, ts: Option<u64>, clock: u64): seq<Op> {
    [Queue(o, r, Written)] + [Flush([o.id])] + [ApplyNext(ts, clock, WriteFailed)] + [Queue(o, r, Written)]
  }

  lemma FailedApplyRun(h: Hashes, book: Book, o: Order, r: Receipt, ts: Option<u64>, clock: u64)
    ensures var w := Do(h, book, Initial(book), Queue(o, r, Written));
            var w' := Do(h, book, Do(h, book, w, Flush([o.id])), ApplyNext(ts, clock, WriteFailed));
            Run(h, book, FailedApply(o, r, ts, clock)) == Do(h, book, w', Queue(o, r, Written))
  {
    hide Run, Do, Initial;
    var a, b, c := Queue(o, r, Written), Flush([o.id]), ApplyNext(ts, clock, WriteFailed);
    RunOne(h, book, a);
    RunSnoc(h, book, [a], b);
    RunSnoc(h, book, [a] + [b], c);
    RunSnoc(h, book, [a] + [b] + [c], a);
  }

  lemma QueuedPair(o: Order, r: Receipt)
    ensures var e := OrderQueued(o, r);
            QueuedOrders([] + [e] + [e]) == [(o, r), (o, r)] && AcceptedSet([] + [e] + [e]) == {}
  {
    var e := OrderQueued(o, r);
    hide QueuedOrders, AcceptedSet, AcceptedIds, Candidates, SettledKeys, ConfirmKeys;
    LogSnoc([], e, {});
    LogSnoc([] + [e], e, {});
    EmptyLog([], {});
    AcceptedSnoc([], e);
    AcceptedSnoc([] + [e], e);
    NoneAccepted();
  }

  lemma NoneAccepted()
    ensures AcceptedSet([]) == {}
  {
  }

  lemma UnappliedPair(q: Buffered)
    ensures IdsIn(Unapplied([q, q], {})) == [q.0.id, q.0.id]
  {
    assert [q, q][..1] == [q] && [q][..0] == [];
    assert Unapplied([q], {}) == [q];
  }

  lemma AfterPair(a: Rec, b: Rec)
    ensures After([] + [a] + [b], None) == [] + [a.entry] + [b.entry]
  {
    hide After;
    AfterSnoc([], a, None);
    AfterSnoc([] + [a], b, None);
    AfterNothing();
  }

  lemma AfterNothing()
    ensures After([], None) == []
  {
  }

  lemma NoSnapshotTail(w: World)
    requires w.saved.None?
    ensures Tail(w) == After(w.wal, None)
  {
  }

  lemma PairNotDistinct(id: Id)
    ensures !Distinct([id, id])
  {
    assert [id, id][0] == [id, id][1];
  }

  /** Accepting an order fails to be written, so the node forgets the order; it is queued again, and the
      process dies: the log holds it twice, and so does the buffer. */
  lemma FailedApplyRequeues(h: Hashes, book: Book, o: Order, r: Receipt, ts: Option<u64>, clock: u64,
      boot: nat -> u64)
    ensures var ops := FailedApply(o, r, ts, clock) + [Crash(boot, 0)];
            Sequenced(ops) && Run(h, book, ops).node.buffer == [o.id, o.id] && !Accounts(Run(h, book, ops))
  {
    assert Sequenced(FailedApply(o, r, ts, clock) + [Crash(boot, 0)]);
    hide *;
    var ops, op, e := FailedApply(o, r, ts, clock), Crash(boot, 0), OrderQueued(o, r);
    var w := Run(h, book, ops);
    BeforeCrash(h, book, o, r, ts, clock);
    RunSnoc(h, book, ops, op);
    EveryRunSimulates(h, book, ops, false);
    NoSnapshotTail(w);
    AfterPair(Rec(0, e), Rec(1, e));
    QueuedPair(o, r);
    UnappliedPair((o, r));
    CrashIsRestart(h, book, w, op);
    RestartAccountsIff(h, book, w, boot, 0);
    RestartBuffer(h, book, w, boot);
    PairNotDistinct(o.id);
    RequeuesOnceIs(w);
  }

  lemma RequeuesOnceIs(w: World)
    ensures RequeuesOnce(w) ==
            Distinct(IdsIn(Unapplied(QueuedOrders(Tail(w)), AcceptedSet(w.trace.logged.entries))))
  {
  }

  lemma RestartBuffer(h: Hashes, book: Book, w: World, clock: nat -> u64)
    requires Simulates(h, book, w, false)
    ensures Restart(h, book, w, clock, 0).node.buffer ==
            IdsIn(Unapplied(QueuedOrders(Tail(w)), AcceptedSet(w.trace.logged.entries)))
  {
    hide Simulates, Recover, QueuedOrders, Unapplied, AcceptedSet, IdsIn, DataAll, Candidates, SettledKeys, After;
    RecoveredBuffer(h, book, w, clock);
  }

  function QueuedIds(es: seq<WalEntry>): seq<Id> {
    IdsIn(QueuedOrders(es))
  }

  ghost predicate Tracked(queued: seq<Id>, data: map<Id, Buffered>, accepted: set<Id>) {
    forall i :: 0 <= i < |queued| ==> queued[i] in data || queued[i] in accepted
  }

  /** The log after the snapshot queues no order twice, and the node still knows each one. */
  ghost predicate TailOnce(w: World) {
    && Distinct(QueuedIds(Tail(w)))
    && (w.alive ==> Tracked(QueuedIds(Tail(w)), w.node.data, AcceptedSet(w.trace.acted.entries)))
  }

  lemma QueuedSnoc(es: seq<WalEntry>, e: WalEntry)
    ensures QueuedIds(es + [e]) == QueuedIds(es) + (if e.OrderQueued? then [e.queued.id] else [])
  {
    hide Candidates, SettledKeys, ConfirmKeys;
    LogSnoc(es, e, {});
    if !e.OrderQueued? { assert QueuedOrders(es) + [] == QueuedOrders(es); }
  }

  /** The tail as it is after a write that reached the log. */
  lemma LoggedTail(w: World, w': World, e: WalEntry)
    requires DiskOk(w) && w'.wal == w.wal + [Rec(w.nextKey, e)] && w'.saved == w.saved
    ensures QueuedIds(Tail(w')) == QueuedIds(Tail(w)) + (if e.OrderQueued? then [e.queued.id] else [])
  {
    LogTail(w, e, 0);
    assert Tail(w') == Tail(Log(w, e, 0));
    hide QueuedIds, After, KeysOk;
    QueuedSnoc(Tail(w), e);
  }

  lemma SameTail(w: World, w': World)
    requires w'.wal == w.wal && w'.saved == w.saved
    ensures Tail(w') == Tail(w)
  {
  }

  lemma QuietTail(w: World, e: WalEntry, clock: u64, write: Write, acted: Node, failed: Node)
    requires DiskOk(w) && TailOnce(w) && w.alive && !e.OrderQueued?
    requires Tracked(QueuedIds(Tail(w)), acted.data,
                     AcceptedSet(w.trace.acted.entries) + (if e.OrderAccepted? then {e.order.id} else {}))
    requires write.WriteFailed? || write.Unflushed? ==>
               Tracked(QueuedIds(Tail(w)), failed.data, AcceptedSet(w.trace.acted.entries))
    ensures TailOnce(Durably(w, e, clock, write, acted, failed))
  {
    var w' := Durably(w, e, clock, write, acted, failed);
    AcceptedSnoc(w.trace.acted.entries, e);
    hide DiskOk, QueuedIds, AcceptedSet, AcceptedIds, Distinct, After, Renewed, Tracked;
    if write.WriteFailed? {
      SameTail(w, w');
    } else {
      LoggedTail(w, w', e);
      assert QueuedIds(Tail(w)) + [] == QueuedIds(Tail(w));
    }
  }

  lemma IntakeTail(h: Hashes, book: Book, w: World, o: Order, r: Receipt, write: Write)
    requires Simulates(h, book, w, false) && TailOnce(w) && w.alive && !write.Unflushed?
    ensures TailOnce(Intake(w, o, r, write))
  {
    var n, w', e := w.node, Intake(w, o, r, write), OrderQueued(o, r);
    LiveBook(h, book, w);
    assert DiskOk(w);
    if o.id !in n.data && o.id !in n.core.applied {
      hide Simulates, DiskOk, Ideal, QueuedIds, AcceptedSet, AcceptedIds, Distinct, After;
      var ids := QueuedIds(Tail(w));
      assert o.id !in ids;
      AcceptedSnoc(w.trace.acted.entries, e);
      DistinctIdsSnoc(ids, o.id);
      TrackedSnoc(ids, n.data, AcceptedSet(w.trace.acted.entries), o.id, (o, r));
      hide Tracked;
      if write.WriteFailed? {
        SameTail(w, w');
      } else {
        LoggedTail(w, w', e);
      }
    } else {
      hide Simulates, DiskOk;
    }
  }

  lemma HeadTail(h: Hashes, w: World, ts: Option<u64>, clock: u64, write: Write)
    requires DiskOk(w) && TailOnce(w) && Filed(w) && w.alive && w.inflight != [] && (write.Written? || write.Died?)
    ensures TailOnce(ApplyHead(h, w, ts, clock, write))
  {
    var w', id := w.(inflight := w.inflight[1..]), w.inflight[0];
    SameTail(w, w');
    assert DiskOk(w');
    hide CoreStep, AcceptedSet, QueuedIds, Distinct, DiskOk, Durably;
    if id in w.node.data {
      var (o, r) := w.node.data[id];
      var taken := w.node.(data := w.node.data - {id});
      var e := OrderAccepted(o, r, ts);
      assert o.id == id;
      QuietTail(w', e, clock, write, taken.(core := CoreStep(h, taken.core, e, clock)), taken);
    }
  }

  lemma SideTail(w: World, e: WalEntry, write: Write, acted: Node)
    requires DiskOk(w) && TailOnce(w) && w.alive && !e.OrderQueued? && !e.OrderAccepted? && acted.data == w.node.data
    ensures TailOnce(Durably(w, e, 0, write, acted, w.node))
  {
    hide DiskOk, Durably, AcceptedSet, QueuedIds, Distinct, Tracked;
    assert AcceptedSet(w.trace.acted.entries) + {} == AcceptedSet(w.trace.acted.entries);
    QuietTail(w, e, 0, write, acted, w.node);
  }

  lemma CycleTail(w: World, core: Core, saves: bool, removed: set<nat>)
    requires DiskOk(w) && TailOnce(w) && w.alive
    ensures TailOnce(CycleSnapshot(w, core, saves, removed))
  {
    var w' := CycleSnapshot(w, core, saves, removed);
    CycleDisk(w, core, saves, removed);
    assert QueuedIds([]) == [];
    hide AcceptedSet, QueuedIds, Truncate, BuildSnapshot, DiskOk;
    if w.wal == [] || !saves { SameTail(w, w'); }
  }

  lemma RestartTail(h: Hashes, book: Book, w: World, clock: nat -> u64, gap: nat)
    requires Simulates(h, book, w, false) && TailOnce(w)
    ensures TailOnce(Restart(h, book, w, clock, gap))
  {
    RecoveredBuffer(h, book, w, clock);
    var w' := Restart(h, book, w, clock, gap);
    SameTail(w, w');
    var qs, accepted := QueuedOrders(Tail(w)), AcceptedSet(w.trace.logged.entries);
    var u := Unapplied(qs, accepted);
    var data := DataAll(map[], u);
    hide Simulates, Recover, QueuedOrders, Unapplied, DataAll, IdsIn, AcceptedSet, Distinct, After, Candidates,
        SettledKeys;
    forall id | id in IdsIn(qs) ensures id in data || id in accepted {
      DataAllKeys(u, id);
      UnappliedMember(qs, accepted, id);
    }
  }

  /** Applying an order either succeeds or dies with its entry written, and no queueing write reaches the
      log and is reported failed. */
  ghost predicate Reliable(ops: seq<Op>) {
    forall i :: 0 <= i < |ops| ==> ReliableOp(ops[i])
  }

  predicate ReliableOp(op: Op) {
    (op.ApplyNext? ==> op.write.Written? || op.write.Died?) && (op.Queue? ==> !op.write.Unflushed?)
  }

  lemma MemoryTail(h: Hashes, book: Book, w: World, op: Op)
    requires TailOnce(w) && MemoryOp(op) && w.alive
    ensures TailOnce(Do(h, book, w, op))
  {
    hide Process, PrepareChunk, Submit, Reconcile, After, QueuedIds, Distinct;
    var w' := Do(h, book, w, op);
    MemoryStep(h, book, w, op);
    SameTail(w, w');
    if op.ProcessOp? || op.PrepareOp? || op.SubmitOp? || op.ReconcileOp? { SettlementQuiet(h, book, w, op); }
  }

  lemma StepTail(h: Hashes, book: Book, w: World, op: Op)
    requires Simulates(h, book, w, false) && Filed(w) && TailOnce(w) && !op.AcceptNow? && ReliableOp(op)
    ensures TailOnce(Do(h, book, w, op))
  {
    assert DiskOk(w);
    hide Simulates, Filed, DiskOk, CoreStep, AcceptedSet, QueuedIds, Distinct, Tracked, Restart, Trim, Intake,
         Durably, ApplyHead, CycleSnapshot, Process, PrepareChunk, Submit, Reconcile, SettlementRuns.Confirm, After;
    var n := w.node;
    if op.Crash? {
      RestartTail(h, book, w, op.bootClock, op.gap);
    } else if w.alive && MemoryOp(op) {
      MemoryTail(h, book, w, op);
    } else if w.alive {
      hide TailOnce;
      match op
      case Queue(o, r, write) => IntakeTail(h, book, w, o, r, write);
      case ApplyNext(ts, clock, write) => if w.inflight != [] { HeadTail(h, w, ts, clock, write); }
      case ConfirmOp(key, tradeHash, write) =>
        if key in n.core.pending {
          var m := n.core.pending[key];
          var core := n.core.(pending := n.core.pending - {key});
          SideTail(w, CommitConfirmed(m, tradeHash), write, ConfirmLocally(n.(core := core), m, tradeHash));
        }
      case CheckpointOp(write) =>
        if w.settler.stage.Landed? {
          var idle := w.(settler := w.settler.(stage := Idle));
          SameTail(w, idle);
          IdleDisk(w, idle);
          SideTail(idle, BatchSubmitted(w.settler.stage.keys), write, n);
        }
      case SnapshotCycle(keepOrders, keepMatches, saves, removed) =>
        CycleTail(w, Trim(n.core, keepOrders, keepMatches), saves, removed);
    }
  }

  lemma IdleDisk(w: World, idle: World)
    requires DiskOk(w) && idle == w.(settler := idle.settler)
    ensures DiskOk(idle)
  {
    SameTail(w, idle);
    hide After, KeysOk;
  }

  lemma {:induction false} EveryRunTail(h: Hashes, book: Book, ops: seq<Op>)
    requires Sequenced(ops) && Reliable(ops)
    ensures TailOnce(Run(h, book, ops))
    decreases |ops|
  {
    if ops == [] {
      assert QueuedIds([]) == [];
    } else {
      var w := Run(h, book, ops[..|ops| - 1]);
      hide Do, Filed, Simulates, TailOnce;
      EveryRunTail(h, book, ops[..|ops| - 1]);
      EveryRunFiled(h, book, ops[..|ops| - 1]);
      EveryRunSimulates(h, book, ops[..|ops| - 1], false);
      StepTail(h, book, w, ops[|ops| - 1]);
    }
  }

  /** So while applying writes succeed, the data held is always the disjoint union of the buffer and the
      batch in flight. */
  lemma {:induction false} BufferAccounted(h: Hashes, book: Book, ops: seq<Op>)
    requires Sequenced(ops) && Reliable(ops)
    ensures CrashesRequeueOnce(h, book, ops) && AlwaysAccounts(h, book, ops)
    decreases |ops|
  {
    hide Run, TailOnce, RequeuesOnce, Accounts;
    if ops != [] {
      var init := ops[..|ops| - 1];
      BufferAccounted(h, book, init);
      EveryRunTail(h, book, init);
      TailRequeues(Run(h, book, init));
    }
    BufferExactIff(h, book, ops);
  }

  lemma TailRequeues(w: World)
    requires TailOnce(w)
    ensures RequeuesOnce(w)
  {
    hide QueuedOrders, Unapplied, AcceptedSet, IdsIn, Distinct, After;
    UnappliedDistinct(QueuedOrders(Tail(w)), AcceptedSet(w.trace.logged.entries));
  }

  // ---- What a restart from a live snapshot forgets ----

  lemma RecoveredMember(h: Hashes, book: Book, w: World, clock: nat -> u64, id: Id)
    requires Simulates(h, book, w, false)
    ensures var n := Recover(h, book, w, clock);
            && (id in n.data <==> id in QueuedIds(Tail(w)) && id !in AcceptedSet(w.trace.logged.entries))
            && (id in n.buffer <==> id in n.data)
  {
    RecoveredBuffer(h, book, w, clock);
    var qs, accepted := QueuedOrders(Tail(w)), AcceptedSet(w.trace.logged.entries);
    hide Simulates, Recover, QueuedOrders, Unapplied, DataAll, IdsIn, AcceptedSet, After;
    DataAllKeys(Unapplied(qs, accepted), id);
    UnappliedMember(qs, accepted, id);
  }

  /** At any moment of any sequenced run: of the orders acknowledged and still buffered, a restart loses
      exactly those whose queueing the snapshot covers, and those the log accepted though that was reported
      failed. */
  lemma BufferedLostIff(h: Hashes, book: Book, ops: seq<Op>, clock: nat -> u64, id: Id)
    requires Sequenced(ops) && Run(h, book, ops).alive && id in Run(h, book, ops).node.data
    ensures var w := Run(h, book, ops);
            var n := Recover(h, book, w, clock);
            && (id !in n.data <==> id !in QueuedIds(Tail(w)) || id in w.trace.lost)
            && (id in n.buffer <==> id in n.data)
  {
    var w := Run(h, book, ops);
    EveryRunSimulates(h, book, ops, false);
    EveryRunApart(h, book, ops);
    EveryRunFiled(h, book, ops);
    assert id !in AcceptedSet(w.trace.acted.entries);
    assert AcceptedSet(w.trace.logged.entries) == AcceptedSet(w.trace.acted.entries) + w.trace.lost;
    hide *;
    RecoveredMember(h, book, w, clock, id);
  }

  /** So saving a snapshot loses to a restart every order buffered or in flight at that moment, until it is
      queued again. */
  lemma SnapshotForgetsBuffer(h: Hashes, book: Book, ops: seq<Op>, op: Op, clock: nat -> u64)
    requires Run(h, book, ops).alive && Run(h, book, ops).wal != [] && op.SnapshotCycle? && op.saves
    ensures var w, w' := Run(h, book, ops), Do(h, book, Run(h, book, ops), op);
            && w'.node.data == w.node.data && w'.node.buffer == w.node.buffer && w'.inflight == w.inflight
            && Recover(h, book, w', clock).data == map[] && Recover(h, book, w', clock).buffer == []
  {
    var w := Run(h, book, ops);
    EveryRunSimulates(h, book, ops, false);
    assert DiskOk(w);
    hide *;
    var w' := Do(h, book, w, op);
    CycledBuffer(h, book, w, op);
    StepSimulates(h, book, w, op, false);
    RecoveredBuffer(h, book, w', clock);
    NothingBuffered(AcceptedSet(w'.trace.logged.entries));
    EmptyLog([], {});
  }

  lemma CycledBuffer(h: Hashes, book: Book, w: World, op: Op)
    requires DiskOk(w) && w.alive && w.wal != [] && op.SnapshotCycle? && op.saves
    ensures var w' := Do(h, book, w, op);
            && w'.node.data == w.node.data && w'.node.buffer == w.node.buffer && w'.inflight == w.inflight
            && Tail(w') == []
  {
    hide Trim, Truncate, BuildSnapshot, DiskOk, After;
    CycleDisk(w, Trim(w.node.core, op.keepOrders, op.keepMatches), op.saves, op.removed);
  }

  lemma NothingBuffered(applied: set<Id>)
    ensures IdsIn(Unapplied([], applied)) == [] && DataAll(map[], Unapplied([], applied)) == map[]
  {
  }
}
