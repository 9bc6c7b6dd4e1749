/** When matches happen: whatever becomes of writes, snapshots and restarts, a match of an order whose
    acceptance records a time carries that time and no clock's. */
module MatchTimes {
  import opened Types
  import opened Engine
  import opened HashChain
  import opened NodeState
  import opened Recovery
  import opened NodeRuns
  import SettlementRuns

  /** The acceptance of the match's taker, at the match's time if it records one. */
  ghost predicate Dates(e: WalEntry, m: Match) {
    && e.OrderAccepted? && e.order.id == m.takerId
    && (e.matchTimestampUs.Some? ==> m.timestampUs == e.matchTimestampUs.value)
  }

  ghost predicate DatedBy(m: Match, es: seq<WalEntry>) {
    exists i :: 0 <= i < |es| && Dates(es[i], m)
  }

  ghost predicate AllDated(ms: seq<Match>, es: seq<WalEntry>) {
    forall i :: 0 <= i < |ms| ==> DatedBy(ms[i], es)
  }

  ghost predicate LogDated(log: Chain<Match>, es: seq<WalEntry>) {
    forall i :: 0 <= i < |log.entries| ==> DatedBy(log.entries[i].payload, es)
  }

  ghost predicate PendingDated(pending: map<Key, Match>, es: seq<WalEntry>) {
    forall k :: k in pending ==> DatedBy(pending[k], es)
  }

  ghost predicate CoreDated(c: Core, es: seq<WalEntry>) {
    LogDated(c.matchLog, es) && PendingDated(c.pending, es)
  }

  lemma LaterDated(m: Match, es: seq<WalEntry>, e: WalEntry)
    requires DatedBy(m, es)
    ensures DatedBy(m, es + [e])
  {
    var i :| 0 <= i < |es| && Dates(es[i], m);
    assert Dates((es + [e])[i], m);
  }

  lemma CoreLater(c: Core, es: seq<WalEntry>, e: WalEntry)
    requires CoreDated(c, es)
    ensures CoreDated(c, es + [e])
  {
    hide DatedBy;
    forall i | 0 <= i < |c.matchLog.entries| ensures DatedBy(c.matchLog.entries[i].payload, es + [e]) {
      LaterDated(c.matchLog.entries[i].payload, es, e);
    }
    forall k | k in c.pending ensures DatedBy(c.pending[k], es + [e]) { LaterDated(c.pending[k], es, e); }
  }

  lemma {:induction false} AppendedDated(h: (nat, Id, Match) -> Id, log: Chain<Match>, ms: seq<Match>,
      es: seq<WalEntry>)
    requires LogDated(log, es) && AllDated(ms, es)
    ensures LogDated(AppendAll(h, log, ms), es)
    decreases |ms|
  {
    if ms != [] {
      hide DatedBy;
      AppendedDated(h, Append(h, log, ms[0]), ms[1..], es);
    }
  }

  lemma {:induction false} AddedDated(pending: map<Key, Match>, ms: seq<Match>, es: seq<WalEntry>)
    requires PendingDated(pending, es) && AllDated(ms, es)
    ensures PendingDated(AddPending(pending, ms), es)
    decreases |ms|
  {
    if ms != [] {
      hide DatedBy;
      AddedDated(pending, ms[..|ms| - 1], es);
    }
  }

  lemma MatchesDated(ms: seq<Match>, es: seq<WalEntry>, o: Order, r: Receipt, recorded: Option<u64>, clock: u64)
    requires MatchedAt(ms, o.id, recorded, clock)
    ensures AllDated(ms, es + [OrderAccepted(o, r, recorded)])
  {
    var e := OrderAccepted(o, r, recorded);
    forall i | 0 <= i < |ms| ensures DatedBy(ms[i], es + [e]) { assert Dates((es + [e])[|es|], ms[i]); }
  }

  lemma StepDated(h: Hashes, c: Core, es: seq<WalEntry>, e: WalEntry, clock: u64)
    requires CoreDated(c, es)
    ensures CoreDated(CoreStep(h, c, e, clock), es + [e])
  {
    CoreLater(c, es, e);
    hide Add, AppendAll, Append, AddPending, DatedBy, AllDated, MatchedAt, LogDated;
    if e.OrderAccepted? {
      var ms := Add(c.book, e.order, MatchTime(e.matchTimestampUs, clock)).matches;
      AcceptedAt(c.book, e.order, e.matchTimestampUs, clock);
      MatchesDated(ms, es, e.order, e.receipt, e.matchTimestampUs, clock);
      AppendedDated(h.ofMatch, c.matchLog, ms, es + [e]);
      AddedDated(c.pending, ms, es + [e]);
    }
  }

  lemma {:induction false} FoldDated(h: Hashes, c: Core, done: seq<WalEntry>, es: seq<WalEntry>, clocks: seq<u64>)
    requires |clocks| == |es| && CoreDated(c, done)
    ensures CoreDated(FoldCore(h, c, es, clocks), done + es)
    decreases |es|
  {
    hide *;
    if es == [] {
      assert done + es == done;
      FoldNothing(h, c);
    } else {
      var init, e := SplitLast(es);
      var times, t := SplitLast(clocks);
      FoldDated(h, c, done, init, times);
      FoldSnoc(h, c, init, times, e, t);
      assert done + es == (done + init) + [e];
      StepDated(h, FoldCore(h, c, init, times), done + init, e, t);
    }
  }

  // ---- Runs ----

  /** The running node's matches are dated by what it acted on, the snapshot's by what it covers. */
  ghost predicate RunDated(book: Book, w: World) {
    && w.trace.covered <= |w.trace.logged.entries|
    && CoreDated(w.node.core, w.trace.acted.entries)
    && CoreDated(Restored(book, w.saved).core, w.trace.logged.entries[..w.trace.covered])
  }

  lemma InitialDated(book: Book)
    ensures RunDated(book, Initial(book))
  {
  }

  lemma MemoryDated(book: Book, w: World, w': World)
    requires RunDated(book, w) && InMemory(w, w')
    ensures RunDated(book, w')
  {
    hide CoreDated, Restored;
  }

  lemma DurablyDated(h: Hashes, book: Book, w: World, e: WalEntry, clock: u64, write: Write, acted: Node, failed: Node)
    requires RunDated(book, w)
    requires acted.core == CoreStep(h, w.node.core, e, clock) && failed.core == w.node.core
    ensures RunDated(book, Durably(w, e, clock, write, acted, failed))
  {
    var n, t := w.trace.covered, w.trace;
    StepDated(h, w.node.core, t.acted.entries, e, clock);
    assert (t.logged.entries + [e])[..n] == t.logged.entries[..n];
    hide CoreDated, Restored, CoreStep, Renewed;
  }

  lemma TrimDated(c: Core, keepOrders: nat, keepMatches: nat, es: seq<WalEntry>)
    requires CoreDated(c, es)
    ensures CoreDated(Trim(c, keepOrders, keepMatches), es)
  {
    hide DatedBy;
  }

  lemma CycleDated(book: Book, w: World, core: Core, saves: bool, removed: set<nat>)
    requires RunDated(book, w) && CoreDated(core, w.trace.acted.entries) && SameConfig(book, core.book)
    ensures RunDated(book, CycleSnapshot(w, core, saves, removed))
  {
    var w', es := CycleSnapshot(w, core, saves, removed), w.trace.acted.entries;
    if w.wal != [] && saves {
      RestoredCore(book, w'.node, w.wal[|w.wal| - 1].key);
      assert es[..|es|] == es;
    }
    hide CoreDated, Restored, BuildSnapshot, Truncate;
  }

  lemma RestartDated(h: Hashes, book: Book, w: World, clock: nat -> u64, gap: nat)
    requires RunDated(book, w) && DiskOk(w)
    ensures RunDated(book, Restart(h, book, w, clock, gap))
    ensures CoreDated(Recover(h, book, w, clock).core, w.trace.logged.entries)
  {
    var n, es := w.trace.covered, w.trace.logged.entries;
    RecoverCore(h, book, w, clock);
    FoldDated(h, Restored(book, w.saved).core, es[..n], Tail(w), Times(clock, |Tail(w)|));
    assert es[..n] + es[n..] == es;
    hide CoreDated, Restored, FoldCore, Recover, Times, Candidates, SettledKeys;
  }

  lemma AppliedDated(h: Hashes, book: Book, w: World, op: Op)
    requires RunDated(book, w) && w.alive && (op.AcceptNow? || (op.ApplyNext? && w.inflight != []))
    ensures RunDated(book, Do(h, book, w, op))
  {
    var n := w.node;
    hide RunDated, CoreStep, Durably;
    match op
    case AcceptNow(o, r, clock, write) =>
      var e := OrderAccepted(o, r, None);
      DurablyDated(h, book, w, e, clock, write, n.(core := CoreStep(h, n.core, e, clock)), n);
    case ApplyNext(ts, clock, write) =>
      var w' := w.(inflight := w.inflight[1..]);
      MemoryDated(book, w, w');
      var id := w.inflight[0];
      if id in n.data {
        var (o, r) := n.data[id];
        var taken := n.(data := n.data - {id});
        var e := OrderAccepted(o, r, ts);
        DurablyDated(h, book, w', e, clock, write, taken.(core := CoreStep(h, taken.core, e, clock)), taken);
      }
  }

  lemma WrittenDated(h: Hashes, book: Book, w: World, op: Op)
    requires RunDated(book, w) && w.alive && Keyed(w.node.core.pending)
    requires op.Queue? || op.ConfirmOp? || op.CheckpointOp?
    ensures RunDated(book, Do(h, book, w, op))
  {
    var n := w.node;
    hide RunDated, CoreStep, Durably, Keyed, SettlementRuns.Confirm;
    match op
    case Queue(o, r, write) =>
      if o.id !in n.data && o.id !in n.core.applied {
        PlainStep(h, n.core, OrderQueued(o, r), 0);
        DurablyDated(h, book, w, OrderQueued(o, r), 0, write,
          n.(buffer := n.buffer + [o.id], data := n.data[o.id := (o, r)]), n);
      }
    case ConfirmOp(key, tradeHash, write) =>
      if key in n.core.pending {
        RemoveStep(h, n.core, key, tradeHash);
        var m, core := n.core.pending[key], n.core.(pending := n.core.pending - {key});
        DurablyDated(h, book, w, CommitConfirmed(m, tradeHash), 0, write,
          ConfirmLocally(n.(core := core), m, tradeHash), n);
      }
    case CheckpointOp(write) =>
      if w.settler.stage.Landed? {
        var w' := w.(settler := w.settler.(stage := Idle));
        MemoryDated(book, w, w');
        PlainStep(h, n.core, BatchSubmitted(w.settler.stage.keys), 0);
        DurablyDated(h, book, w', BatchSubmitted(w.settler.stage.keys), 0, write, n, n);
      }
  }

  lemma StepKeepsDates(h: Hashes, book: Book, w: World, op: Op)
    requires RunDated(book, w) && Simulates(h, book, w, false)
    ensures RunDated(book, Do(h, book, w, op))
  {
    var n := w.node;
    if MemoryOp(op) { MemoryStep(h, book, w, op); }
    if w.alive { LiveKeyed(h, book, w, false); }
    hide Agrees, Ideal, SavedOk, CoreStep, Restart, CycleSnapshot, Trim, CoreDated, Keyed, InMemory, Intake,
         ConfirmPending, Checkpoint, ApplyHead, Durably, Process, PrepareChunk, Submit, Reconcile, Restored, DiskOk;
    if op.Crash? {
      RestartDated(h, book, w, op.bootClock, op.gap);
    } else if w.alive {
      if MemoryOp(op) {
        MemoryDated(book, w, Do(h, book, w, op));
      } else if op.SnapshotCycle? {
        var core := Trim(n.core, op.keepOrders, op.keepMatches);
        TrimDated(n.core, op.keepOrders, op.keepMatches, w.trace.acted.entries);
        TrimConfig(h, book, w, op.keepOrders, op.keepMatches);
        CycleDated(book, w, core, op.saves, op.removed);
      } else if op.AcceptNow? || op.ApplyNext? {
        if op.AcceptNow? || w.inflight != [] { AppliedDated(h, book, w, op); }
      } else {
        WrittenDated(h, book, w, op);
      }
    }
  }

  lemma TrimConfig(h: Hashes, book: Book, w: World, keepOrders: nat, keepMatches: nat)
    requires Simulates(h, book, w, false) && w.alive
    ensures SameConfig(book, Trim(w.node.core, keepOrders, keepMatches).book)
  {
    hide Agrees, Ideal, SavedOk;
    AgreesConfig(h, book, w.trace.acted, false, w.node.core);
  }

  /** In every run, with any failed writes, trims, snapshots and crashes: every match in the running log
      and among the pending ones, and every match recovery would bring back, belongs to an accepted order,
      and is at the time that acceptance records, whatever any clock said. */
  lemma {:induction false} EveryRunDated(h: Hashes, book: Book, ops: seq<Op>, clock: nat -> u64)
    ensures var w := Run(h, book, ops);
            && RunDated(book, w)
            && CoreDated(Recover(h, book, w, clock).core, w.trace.logged.entries)
    decreases |ops|
  {
    hide Do, Simulates, RunDated, CoreDated, Recover;
    if ops == [] {
      InitialDated(book);
    } else {
      var init, op := ops[..|ops| - 1], ops[|ops| - 1];
      EveryRunDated(h, book, init, clock);
      EveryRunSimulates(h, book, init, false);
      StepKeepsDates(h, book, Run(h, book, init), op);
    }
    EveryRunSimulates(h, book, ops, false);
    RunDisk(h, book, Run(h, book, ops));
    RestartDated(h, book, Run(h, book, ops), clock, 0);
  }

  lemma RunDisk(h: Hashes, book: Book, w: World)
    requires Simulates(h, book, w, false)
    ensures DiskOk(w)
  {
  }
}
