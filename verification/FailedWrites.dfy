/** What a running node and its log disagree about: writes that reached the log and were reported
    failed. Exactly when recovery still rebuilds the running core. */
module FailedWrites {
  import opened Types
  import opened Engine
  import opened HashChain
  import opened SettlementLoop
  import opened NodeState
  import opened Recovery
  import opened RecoveryTheorems
  import opened NodeRuns
  import SettlementRuns

  /** The ids accepted into the order log, in order. */
  function AcceptedIds(es: seq<WalEntry>): seq<Id> {
    if es == [] then []
    else AcceptedIds(es[..|es| - 1]) + (if es[|es| - 1].OrderAccepted? then [es[|es| - 1].order.id] else [])
  }

  /** Their receipts, in order. */
  function Receipts(es: seq<WalEntry>): seq<Receipt> {
    if es == [] then []
    else Receipts(es[..|es| - 1]) + (if es[|es| - 1].OrderAccepted? then [es[|es| - 1].receipt] else [])
  }

  lemma AcceptedSnoc(es: seq<WalEntry>, e: WalEntry)
    ensures AcceptedIds(es + [e]) == AcceptedIds(es) + (if e.OrderAccepted? then [e.order.id] else [])
    ensures AcceptedSet(es + [e]) == AcceptedSet(es) + (if e.OrderAccepted? then {e.order.id} else {})
  {
    assert (es + [e])[..|es|] == es;
  }

  /** The order log is as long as the accepted orders. */
  lemma {:induction false} OrderCount(h: Hashes, book: Book, es: seq<WalEntry>, clocks: seq<u64>)
    requires |clocks| == |es|
    ensures NextSeq(FoldCore(h, NewCore(book), es, clocks).orderLog) == |AcceptedIds(es)|
    decreases |es|
  {
    if es != [] {
      var i := |es| - 1;
      OrderCount(h, book, es[..i], clocks[..i]);
      var c := FoldCore(h, NewCore(book), es[..i], clocks[..i]);
      FoldLast(h, NewCore(book), es, clocks);
      hide FoldCore, Add, AppendAll, Append, AddPending;
      if es[i].OrderAccepted? { AppendTip(h.ofReceipt, c.orderLog, c.orderLog, es[i].receipt); }
    }
  }

  // ---- The two journals side by side ----

  function Without(c: Core, keys: set<Key>): Core {
    c.(pending := c.pending - keys)
  }

  lemma {:induction false} AddPendingWithout(p: map<Key, Match>, s: set<Key>, ms: seq<Match>)
    ensures AddPending(p - s, ms) == AddPending(p, ms) - (s - ChunkKeys(ms))
  {
    if ms == [] {
      assert s - ChunkKeys(ms) == s;
    } else {
      var init, m := ms[..|ms| - 1], ms[|ms| - 1];
      AddPendingWithout(p, s, init);
      forall k ensures k in ChunkKeys(ms) <==> k in ChunkKeys(init) || k == KeyOf(m) { KeysOfLast(ms, k); }
      hide ChunkKeys;
      SetAfterRemoval(AddPending(p, init), s - ChunkKeys(init), KeyOf(m), m);
      assert s - ChunkKeys(ms) == s - ChunkKeys(init) - {KeyOf(m)};
    }
  }

  lemma SetAfterRemoval(p: map<Key, Match>, s: set<Key>, k: Key, m: Match)
    ensures (p - s)[k := m] == p[k := m] - (s - {k})
  {
  }

  /** A core that lacks some pending matches keeps lacking them, unless they are produced again. */
  lemma WithoutStep(h: Hashes, c: Core, s: set<Key>, e: WalEntry, clock: u64)
    ensures CoreStep(h, Without(c, s), e, clock) == Without(CoreStep(h, c, e, clock), s - Renewed(c, e, clock))
  {
    hide Add, AppendAll, Append, AddPending, ChunkKeys;
    match e
    case OrderAccepted(o, r, ts) => AddPendingWithout(c.pending, s, Add(c.book, o, MatchTime(ts, clock)).matches);
    case CommitConfirmed(m, _) => assert c.pending - s - {KeyOf(m)} == c.pending - {KeyOf(m)} - (s - {});
    case BatchSubmitted(_) => assert s - {} == s;
    case OrderQueued(_, _) => assert s - {} == s;
  }

  lemma WithoutConfirmed(h: Hashes, c: Core, s: set<Key>, m: Match, tradeHash: Id, clock: u64)
    ensures CoreStep(h, Without(c, s), CommitConfirmed(m, tradeHash), clock) == Without(c, s + {KeyOf(m)})
  {
    assert c.pending - s - {KeyOf(m)} == c.pending - (s + {KeyOf(m)});
  }

  ghost predicate Fewer(w: World) {
    && |AcceptedIds(w.trace.acted.entries)| <= |AcceptedIds(w.trace.logged.entries)|
    && (w.trace.lost != {} ==> |AcceptedIds(w.trace.acted.entries)| < |AcceptedIds(w.trace.logged.entries)|)
  }

  /** What the log knows and the running node does not. */
  ghost predicate Behind(w: World) {
    && AcceptedSet(w.trace.logged.entries) == AcceptedSet(w.trace.acted.entries) + w.trace.lost
    && ConfirmKeys(w.trace.logged.entries) == ConfirmKeys(w.trace.acted.entries) + w.trace.retracted
    && SettledKeys(w.trace.logged.entries) == SettledKeys(w.trace.acted.entries)
  }

  ghost predicate Lacks(h: Hashes, book: Book, w: World)
    requires JournalOk(w.trace.logged) && JournalOk(w.trace.acted)
  {
    w.trace.lost == {} ==> Ideal(h, book, w.trace.logged) == Without(Ideal(h, book, w.trace.acted), w.trace.stale)
  }

  ghost predicate Apart(h: Hashes, book: Book, w: World) {
    && JournalOk(w.trace.logged) && JournalOk(w.trace.acted)
    && (w.alive ==> Fewer(w) && Behind(w) && Lacks(h, book, w))
  }

  lemma EntrySnoc(es: seq<WalEntry>, e: WalEntry)
    ensures SettledKeys(es + [e]) == SettledKeys(es) + (if e.BatchSubmitted? then set k | k in e.keys else {})
    ensures ConfirmKeys(es + [e]) == ConfirmKeys(es) + (if e.CommitConfirmed? then {KeyOf(e.m)} else {})
    ensures |AcceptedIds(es + [e])| == |AcceptedIds(es)| + (if e.OrderAccepted? then 1 else 0)
    ensures AcceptedSet(es + [e]) == AcceptedSet(es) + (if e.OrderAccepted? then {e.order.id} else {})
  {
    assert (es + [e])[..|es|] == es;
  }

  lemma ActApart(h: Hashes, book: Book, w: World, e: WalEntry, clock: u64, acted: Node)
    requires Apart(h, book, w) && w.alive && w.node.core.book == Ideal(h, book, w.trace.acted).book
    ensures Apart(h, book, Act(Log(w, e, clock), e, clock, acted))
  {
    var t, w' := w.trace, Act(Log(w, e, clock), e, clock, acted);
    EntrySnoc(t.logged.entries, e);
    EntrySnoc(t.acted.entries, e);
    hide AcceptedIds, AcceptedSet, ConfirmKeys, SettledKeys, Ideal, CoreStep, Without;
    IdealSnoc(h, book, t.logged, e, clock);
    IdealSnoc(h, book, t.acted, e, clock);
    WithoutStep(h, Ideal(h, book, t.acted), t.stale, e, clock);
    assert Renewed(w.node.core, e, clock) == Renewed(Ideal(h, book, t.acted), e, clock);
    hide Renewed;
    assert Fewer(w') && Behind(w') && Lacks(h, book, w');
  }

  lemma MissApart(h: Hashes, book: Book, w: World, e: WalEntry, clock: u64, failed: Node)
    requires Apart(h, book, w) && w.alive && !e.BatchSubmitted?
    ensures Apart(h, book, Durably(w, e, clock, Unflushed, failed, failed))
  {
    var t, w' := w.trace, Durably(w, e, clock, Unflushed, failed, failed);
    EntrySnoc(t.logged.entries, e);
    hide AcceptedIds, AcceptedSet, ConfirmKeys, SettledKeys, Ideal, CoreStep, Without;
    IdealSnoc(h, book, t.logged, e, clock);
    match e
    case OrderAccepted(_, _, _) => assert Fewer(w') && Behind(w') && Lacks(h, book, w');
    case CommitConfirmed(m, tradeHash) =>
      WithoutConfirmed(h, Ideal(h, book, t.acted), t.stale, m, tradeHash, clock);
      assert Fewer(w') && Behind(w') && Lacks(h, book, w');
    case OrderQueued(_, _) =>
      PlainStep(h, Ideal(h, book, t.logged), e, clock);
      assert Fewer(w') && Behind(w') && Lacks(h, book, w');
  }

  lemma DurablyApart(h: Hashes, book: Book, w: World, e: WalEntry, clock: u64, write: Write, acted: Node, failed: Node)
    requires Apart(h, book, w) && w.alive && w.node.core.book == Ideal(h, book, w.trace.acted).book
    ensures Apart(h, book, Durably(w, e, clock, write, acted, failed))
  {
    hide Fewer, Behind, Lacks, Ideal, Act, Missed;
    if write.Written? || (write.Unflushed? && e.BatchSubmitted?) {
      ActApart(h, book, w, e, clock, acted);
    } else if write.Unflushed? {
      MissApart(h, book, w, e, clock, failed);
      FailedSame(w, e, clock, Unflushed, acted, failed);
    } else if write.WriteFailed? {
      SameApart(h, book, w, w.(node := failed));
    }
  }

  /** A write that is not acted on depends on nothing the node would have become. */
  lemma FailedSame(w: World, e: WalEntry, clock: u64, write: Write, acted: Node, failed: Node)
    requires !write.Written? && !e.BatchSubmitted?
    ensures Durably(w, e, clock, write, acted, failed) == Durably(w, e, clock, write, failed, failed)
  {
  }

  lemma SameApart(h: Hashes, book: Book, w: World, w': World)
    requires Apart(h, book, w) && w'.alive == w.alive && w'.trace == w.trace.(out := w'.trace.out)
    ensures Apart(h, book, w')
  {
    hide Ideal, AcceptedIds, AcceptedSet, ConfirmKeys, SettledKeys, Without;
  }

  /** After a restart, and after a snapshot, the two journals are one. */
  lemma EvenApart(h: Hashes, book: Book, w: World)
    requires w.trace.logged == w.trace.acted && JournalOk(w.trace.acted)
    requires w.trace.lost == {} && w.trace.retracted == {} && w.trace.stale == {}
    ensures Apart(h, book, w)
  {
    var c := Ideal(h, book, w.trace.acted);
    assert c.pending - {} == c.pending;
    hide Ideal, AcceptedIds, AcceptedSet, ConfirmKeys, SettledKeys;
  }

  lemma LiveBook(h: Hashes, book: Book, w: World)
    requires Simulates(h, book, w, false) && w.alive
    ensures JournalOk(w.trace.acted) && JournalOk(w.trace.logged)
    ensures w.node.core.book == Ideal(h, book, w.trace.acted).book
    ensures w.node.core.pending.Keys == Ideal(h, book, w.trace.acted).pending.Keys
    ensures w.node.core.applied == AcceptedSet(w.trace.acted.entries)
  {
    var j := w.trace.acted;
    AppliedByFold(h, NewCore(book), j.entries, j.clocks);
    hide FoldCore, SavedOk, AcceptedSet;
  }

  lemma HeadApart(h: Hashes, book: Book, w: World, ts: Option<u64>, clock: u64, write: Write)
    requires Apart(h, book, w) && w.alive && w.inflight != []
    requires w.node.core.book == Ideal(h, book, w.trace.acted).book
    ensures Apart(h, book, ApplyHead(h, w, ts, clock, write))
  {
    var w' := w.(inflight := w.inflight[1..]);
    SameApart(h, book, w, w');
    hide Apart, Durably, CoreStep, Ideal;
    var id := w.inflight[0];
    if id in w.node.data {
      var (o, r) := w.node.data[id];
      var taken := w.node.(data := w.node.data - {id});
      var e := OrderAccepted(o, r, ts);
      DurablyApart(h, book, w', e, clock, write, taken.(core := CoreStep(h, taken.core, e, clock)), taken);
    }
  }

  lemma IntakeApart(h: Hashes, book: Book, w: World, o: Order, r: Receipt, write: Write)
    requires Apart(h, book, w) && w.alive && w.node.core.book == Ideal(h, book, w.trace.acted).book
    ensures Apart(h, book, Intake(w, o, r, write))
  {
    var n := w.node;
    hide Apart, Durably, Ideal;
    if o.id !in n.data && o.id !in n.core.applied {
      DurablyApart(h, book, w, OrderQueued(o, r), 0, write, n.(buffer := n.buffer + [o.id],
          data := n.data[o.id := (o, r)]), n);
    }
  }

  lemma ConfirmApart(h: Hashes, book: Book, w: World, key: Key, tradeHash: Id, write: Write)
    requires Apart(h, book, w) && w.alive && w.node.core.book == Ideal(h, book, w.trace.acted).book
    ensures Apart(h, book, ConfirmPending(w, key, tradeHash, write))
  {
    var n := w.node;
    hide Apart, Durably, Ideal, SettlementRuns.Confirm;
    if key in n.core.pending {
      var m := n.core.pending[key];
      var core := n.core.(pending := n.core.pending - {key});
      DurablyApart(h, book, w, CommitConfirmed(m, tradeHash), 0, write, ConfirmLocally(n.(core := core), m,
          tradeHash), n);
    }
  }

  lemma CheckpointApart(h: Hashes, book: Book, w: World, write: Write)
    requires Apart(h, book, w) && w.alive && w.node.core.book == Ideal(h, book, w.trace.acted).book
    ensures Apart(h, book, Checkpoint(w, write))
  {
    var w' := w.(settler := w.settler.(stage := Idle));
    SameApart(h, book, w, w');
    hide Apart, Durably, Ideal;
    if w.settler.stage.Landed? {
      DurablyApart(h, book, w', BatchSubmitted(w.settler.stage.keys), 0, write, w.node, w.node);
    }
  }

  lemma CycleApart(h: Hashes, book: Book, w: World, core: Core, saves: bool, removed: set<nat>)
    requires Apart(h, book, w) && w.alive
    ensures Apart(h, book, CycleSnapshot(w, core, saves, removed))
  {
    hide BuildSnapshot, Truncate, Fewer, Behind, Lacks;
    if w.wal == [] || !saves {
      SameApart(h, book, w, CycleSnapshot(w, core, saves, removed));
    } else {
      EvenApart(h, book, CycleSnapshot(w, core, saves, removed));
    }
  }

  lemma StepApart(h: Hashes, book: Book, w: World, op: Op)
    requires Simulates(h, book, w, false) && Apart(h, book, w)
    ensures Apart(h, book, Do(h, book, w, op))
  {
    var n, w' := w.node, Do(h, book, w, op);
    assert JournalOk(w.trace.logged);
    if MemoryOp(op) { MemoryStep(h, book, w, op); }
    if w.alive { LiveBook(h, book, w); }
    hide Simulates, Apart, CoreStep, Recover, CycleSnapshot, Trim, Intake, ConfirmPending, Durably, ApplyHead, Ideal,
         Process, PrepareChunk, Submit, Checkpoint, Reconcile, Candidates, SettledKeys;
    if op.Crash? {
      EvenApart(h, book, w');
    } else if w.alive {
      if MemoryOp(op) {
        SameApart(h, book, w, w');
      } else {
        match op
        case Queue(o, r, write) => IntakeApart(h, book, w, o, r, write);
        case AcceptNow(o, r, clock, write) =>
          var e := OrderAccepted(o, r, None);
          DurablyApart(h, book, w, e, clock, write, n.(core := CoreStep(h, n.core, e, clock)), n);
        case ApplyNext(ts, clock, write) => if w.inflight != [] { HeadApart(h, book, w, ts, clock, write); }
        case ConfirmOp(key, tradeHash, write) => ConfirmApart(h, book, w, key, tradeHash, write);
        case CheckpointOp(write) => CheckpointApart(h, book, w, write);
        case SnapshotCycle(keepOrders, keepMatches, saves, removed) =>
          CycleApart(h, book, w, Trim(n.core, keepOrders, keepMatches), saves, removed);
      }
    }
  }

  lemma {:induction false} EveryRunApart(h: Hashes, book: Book, ops: seq<Op>)
    ensures Apart(h, book, Run(h, book, ops))
    decreases |ops|
  {
    if ops == [] {
      EvenApart(h, book, Initial(book));
    } else {
      hide Do, Apart, Simulates;
      EveryRunApart(h, book, ops[..|ops| - 1]);
      EveryRunSimulates(h, book, ops[..|ops| - 1], false);
      StepApart(h, book, Run(h, book, ops[..|ops| - 1]), ops[|ops| - 1]);
    }
  }

  // ---- When recovery rebuilds the running core ----

  lemma AgreesKeys(exact: bool, a: Core, b: Core)
    requires Agrees(exact, a, b)
    ensures a.pending.Keys == b.pending.Keys && NextSeq(a.orderLog) == NextSeq(b.orderLog)
  {
  }

  lemma WithoutNone(c: Core, s: set<Key>)
    requires s !! c.pending.Keys
    ensures Without(c, s) == c
  {
    assert c.pending - s == c.pending;
  }

  /** Crashing at any moment of any run and recovering gives back the running core if and only if, since
      the last snapshot or restart, no order's write reached the log and was reported failed, and no
      confirmation's was whose match is still pending. */
  lemma RecoveryRebuildsLiveIff(h: Hashes, book: Book, ops: seq<Op>, clock: nat -> u64, exact: bool)
    requires Run(h, book, ops).alive && (exact ==> Dated(ops))
    ensures var w := Run(h, book, ops);
            Agrees(exact, w.node.core, Recover(h, book, w, clock).core)
            <==> w.trace.lost == {} && w.trace.stale !! w.node.core.pending.Keys
  {
    var w := Run(h, book, ops);
    EveryRunSimulates(h, book, ops, exact);
    EveryRunApart(h, book, ops);
    RecoveryAgrees(h, book, w, clock, exact);
    RebuildsIff(h, book, w, Recover(h, book, w, clock).core, exact);
  }

  lemma RebuildsIff(h: Hashes, book: Book, w: World, recovered: Core, exact: bool)
    requires Simulates(h, book, w, exact) && Apart(h, book, w) && w.alive
    requires Agrees(exact, Ideal(h, book, w.trace.logged), recovered)
    ensures Agrees(exact, w.node.core, recovered)
            <==> w.trace.lost == {} && w.trace.stale !! w.node.core.pending.Keys
  {
    var t, live := w.trace, w.node.core;
    var a, l := Ideal(h, book, t.acted), Ideal(h, book, t.logged);
    OrderCount(h, book, t.acted.entries, t.acted.clocks);
    OrderCount(h, book, t.logged.entries, t.logged.clocks);
    hide Agrees, FoldCore, DiskOk, SavedOk, Behind, AcceptedIds, AllStamped;
    AgreesKeys(exact, a, live);
    AgreesKeys(exact, l, recovered);
    if Agrees(exact, live, recovered) {
      AgreesKeys(exact, live, recovered);
    }
    if t.lost == {} && t.stale !! live.pending.Keys {
      WithoutNone(a, t.stale);
      AgreesSym(exact, a, live);
      AgreesTrans(exact, live, a, recovered);
    }
  }
}
