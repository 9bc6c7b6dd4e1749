/** Both logs of a node over its whole life, with their archives: each is a run of the archive's own
    machine, whose crashes append what the write-ahead log makes them append. */
module ArchiveRuns {
  import opened Types
  import opened Engine
  import opened HashChain
  import opened NodeState
  import opened Recovery
  import opened NodeRuns
  import opened FailedWrites
  import opened ExactlyOnce
  import Archive
  import Settlement
  import SettlementRuns

  // ---- What entries append to the two logs ----

  /** The matches entries produce, run against a core. */
  function Produced(h: Hashes, c: Core, es: seq<WalEntry>, clocks: seq<u64>): seq<Match>
    requires |clocks| == |es|
    decreases |es|
  {
    if es == [] then []
    else
      var i := |es| - 1;
      Produced(h, c, es[..i], clocks[..i]) + MatchesBy(FoldCore(h, c, es[..i], clocks[..i]), es[i], clocks[i])
  }

  function MatchesBy(c: Core, e: WalEntry, clock: u64): seq<Match> {
    if e.OrderAccepted? then Add(c.book, e.order, MatchTime(e.matchTimestampUs, clock)).matches else []
  }

  lemma StepLogs(h: Hashes, c: Core, e: WalEntry, clock: u64)
    ensures CoreStep(h, c, e, clock).orderLog == AppendAll(h.ofReceipt, c.orderLog, Receipts([e]))
    ensures CoreStep(h, c, e, clock).matchLog == AppendAll(h.ofMatch, c.matchLog, MatchesBy(c, e, clock))
  {
    OneReceipt(e);
    if e.OrderAccepted? { Archive.AppendOne(h.ofReceipt, c.orderLog, e.receipt); }
    Archive.NoneAppended(h.ofReceipt, c.orderLog);
    Archive.NoneAppended(h.ofMatch, c.matchLog);
    hide Add, AppendAll, Append, AddPending, Receipts;
  }

  lemma OneReceipt(e: WalEntry)
    ensures Receipts([e]) == if e.OrderAccepted? then [e.receipt] else []
  {
    assert [e][..0] == [];
  }

  lemma ReceiptsSnoc(es: seq<WalEntry>, e: WalEntry)
    ensures Receipts(es + [e]) == Receipts(es) + Receipts([e])
  {
    OneReceipt(e);
    assert (es + [e])[..|es|] == es;
  }

  lemma ProducedSnoc(h: Hashes, c: Core, es: seq<WalEntry>, clocks: seq<u64>, e: WalEntry, t: u64)
    requires |clocks| == |es|
    ensures Produced(h, c, es + [e], clocks + [t]) ==
            Produced(h, c, es, clocks) + MatchesBy(FoldCore(h, c, es, clocks), e, t)
  {
    hide FoldCore, MatchesBy;
    assert (es + [e])[..|es|] == es && (clocks + [t])[..|es|] == clocks;
  }

  lemma NothingProduced(h: Hashes, c: Core)
    ensures Produced(h, c, [], []) == [] && FoldCore(h, c, [], []) == c && Receipts([]) == []
  {
  }

  /** Folding entries appends their receipts to the order log and what they produce to the match log. */
  lemma {:induction false} FoldLogs(h: Hashes, c: Core, es: seq<WalEntry>, clocks: seq<u64>)
    requires |clocks| == |es|
    ensures FoldCore(h, c, es, clocks).orderLog == AppendAll(h.ofReceipt, c.orderLog, Receipts(es))
    ensures FoldCore(h, c, es, clocks).matchLog == AppendAll(h.ofMatch, c.matchLog, Produced(h, c, es, clocks))
    decreases |es|
  {
    hide *;
    if es == [] {
      NothingProduced(h, c);
      Archive.NoneAppended(h.ofReceipt, c.orderLog);
      Archive.NoneAppended(h.ofMatch, c.matchLog);
    } else {
      var init, e := SplitLast(es);
      var times, t := SplitLast(clocks);
      FoldLogs(h, c, init, times);
      var prev := FoldCore(h, c, init, times);
      FoldSnoc(h, c, init, times, e, t);
      ProducedSnoc(h, c, init, times, e, t);
      ReceiptsSnoc(init, e);
      StepLogs(h, prev, e, t);
      Archive.AppendAllConcat(h.ofReceipt, c.orderLog, Receipts(init), Receipts([e]));
      Archive.AppendAllConcat(h.ofMatch, c.matchLog, Produced(h, c, init, times), MatchesBy(prev, e, t));
    }
  }

  // ---- A run of the node with its archives ----

  /** How one log's archiving goes in a snapshot cycle. */
  datatype Archiving = Archiving(window: nat, writes: nat, flushed: bool)

  datatype Event = Event(op: Op, orders: Archiving, matches: Archiving)

  /** What the log keeps from after the cycle: it is trimmed only once everything older is stored. */
  function KeepFrom<T>(c: Chain<T>, a: Archiving): nat {
    if |c.entries| > a.window && a.writes >= |c.entries| - a.window && a.flushed then NextSeq(c) - a.window
    else c.baseSeq
  }

  function OpOf(w: World, e: Event): Op {
    if e.op.SnapshotCycle? then
      e.op.(keepOrders := KeepFrom(w.node.core.orderLog, e.orders),
            keepMatches := KeepFrom(w.node.core.matchLog, e.matches))
    else e.op
  }

  function Ops(h: Hashes, book: Book, es: seq<Event>): seq<Op>
    decreases |es|
  {
    if es == [] then []
    else
      var ops := Ops(h, book, es[..|es| - 1]);
      ops + [OpOf(Run(h, book, ops), es[|es| - 1])]
  }

  function WorldAt(h: Hashes, book: Book, es: seq<Event>): World {
    Run(h, book, Ops(h, book, es))
  }

  /** What the node acted on in one step. */
  function Since(w: World, w': World): Journal {
    var n, m := |w.trace.acted.entries|, |w.trace.acted.clocks|;
    if n <= |w'.trace.acted.entries| && m <= |w'.trace.acted.clocks|
    then Journal(w'.trace.acted.entries[n..], w'.trace.acted.clocks[m..]) else NO_ENTRIES
  }

  function Appends<T>(ps: seq<T>): (steps: seq<Archive.Step<T>>)
    ensures |steps| == |ps|
  {
    seq(|ps|, i requires 0 <= i < |ps| => Archive.AppendStep(ps[i]))
  }

  function Cycles<T>(w: World, op: Op, a: Archiving): seq<Archive.Step<T>>
    requires op.SnapshotCycle?
  {
    [Archive.ArchiveCycle(a.window, a.writes, a.flushed)]
    + (if w.wal != [] && op.saves then [Archive.SaveSnapshot] else [])
  }

  function OrderStep(h: Hashes, book: Book, w: World, op: Op, a: Archiving): seq<Archive.Step<Receipt>> {
    if op.Crash? then [Archive.Crash(Receipts(Tail(w)))]
    else if !w.alive then []
    else if op.SnapshotCycle? then Cycles(w, op, a)
    else Appends(Receipts(Since(w, Do(h, book, w, op)).entries))
  }

  function MatchStep(h: Hashes, book: Book, w: World, op: Op, a: Archiving): seq<Archive.Step<Match>> {
    if op.Crash? then
      [Archive.Crash(Produced(h, Restored(book, w.saved).core, Tail(w), Times(op.bootClock, |Tail(w)|)))]
    else if !w.alive then []
    else if op.SnapshotCycle? then Cycles(w, op, a)
    else
      var j := Since(w, Do(h, book, w, op));
      if JournalOk(j) then Appends(Produced(h, w.node.core, j.entries, j.clocks)) else []
  }

  function OrderSteps(h: Hashes, book: Book, es: seq<Event>): seq<Archive.Step<Receipt>>
    decreases |es|
  {
    if es == [] then []
    else
      var init, e := es[..|es| - 1], es[|es| - 1];
      var w := WorldAt(h, book, init);
      OrderSteps(h, book, init) + OrderStep(h, book, w, OpOf(w, e), e.orders)
  }

  function MatchSteps(h: Hashes, book: Book, es: seq<Event>): seq<Archive.Step<Match>>
    decreases |es|
  {
    if es == [] then []
    else
      var init, e := es[..|es| - 1], es[|es| - 1];
      var w := WorldAt(h, book, init);
      MatchSteps(h, book, init) + MatchStep(h, book, w, OpOf(w, e), e.matches)
  }

  function OrdersAt(h: Hashes, book: Book, es: seq<Event>): Archive.LogState<Receipt> {
    Archive.Run(h.ofReceipt, OrderSteps(h, book, es))
  }

  function MatchesAt(h: Hashes, book: Book, es: seq<Event>): Archive.LogState<Match> {
    Archive.Run(h.ofMatch, MatchSteps(h, book, es))
  }

  // ---- The node's logs are the machine's ----

  /** What the node acted on that its snapshot does not reflect. */
  function Unsaved(w: World): seq<WalEntry> {
    if w.trace.covered <= |w.trace.acted.entries| then w.trace.acted.entries[w.trace.covered..] else []
  }

  ghost predicate Tied(book: Book, w: World, o: Archive.LogState<Receipt>, m: Archive.LogState<Match>) {
    var saved := Restored(book, w.saved).core;
    && JournalOk(w.trace.acted) && w.trace.covered <= |w.trace.acted.entries|
    && (w.alive ==> o.hot == w.node.core.orderLog && m.hot == w.node.core.matchLog)
    && o.saved == saved.orderLog && m.saved == saved.matchLog
    && o.tail == Receipts(Unsaved(w))
  }

  lemma Unfold(book: Book, w: World, o: Archive.LogState<Receipt>, m: Archive.LogState<Match>)
    requires Tied(book, w, o, m)
    ensures JournalOk(w.trace.acted) && w.trace.covered <= |w.trace.acted.entries|
    ensures w.alive ==> o.hot == w.node.core.orderLog && m.hot == w.node.core.matchLog
    ensures o.saved == Restored(book, w.saved).core.orderLog && m.saved == Restored(book, w.saved).core.matchLog
    ensures o.tail == Receipts(w.trace.acted.entries[w.trace.covered..])
  {
    hide Receipts, Restored;
  }

  lemma Fold(book: Book, w: World, o: Archive.LogState<Receipt>, m: Archive.LogState<Match>)
    requires JournalOk(w.trace.acted) && w.trace.covered <= |w.trace.acted.entries|
    requires w.alive ==> o.hot == w.node.core.orderLog && m.hot == w.node.core.matchLog
    requires o.saved == Restored(book, w.saved).core.orderLog && m.saved == Restored(book, w.saved).core.matchLog
    requires o.tail == Receipts(w.trace.acted.entries[w.trace.covered..])
    ensures Tied(book, w, o, m)
  {
    hide Receipts, Restored;
  }

  lemma AppendsSnoc<T>(init: seq<T>, p: T)
    ensures Appends(init + [p]) == Appends(init) + [Archive.AppendStep(p)]
  {
  }

  lemma AppendedState<T>(h: (nat, Id, T) -> Id, s: Archive.LogState<T>, p: T)
    ensures var s' := Archive.Do(h, s, Archive.AppendStep(p));
            && s'.hot == Append(h, s.hot, p) && s'.saved == s.saved && s'.tail == s.tail + [p]
            && s'.archive == s.archive
  {
    hide Append;
  }

  lemma NoAppends<T>()
    ensures Appends<T>([]) == []
  {
  }

  lemma {:induction false} RunAppends<T>(h: (nat, Id, T) -> Id, steps: seq<Archive.Step<T>>, ps: seq<T>)
    ensures var s, s' := Archive.Run(h, steps), Archive.Run(h, steps + Appends(ps));
            && s'.hot == AppendAll(h, s.hot, ps) && s'.saved == s.saved
            && s'.tail == s.tail + ps && s'.archive == s.archive
    decreases |ps|
  {
    hide *;
    if ps == [] {
      NoAppends<T>();
      assert steps + [] == steps;
      Archive.NoneAppended(h, Archive.Run(h, steps).hot);
      assert Archive.Run(h, steps).tail + [] == Archive.Run(h, steps).tail;
    } else {
      var init, p := SplitLast(ps);
      RunAppends(h, steps, init);
      AppendsSnoc(init, p);
      ConcatAssociates(steps, Appends(init), [Archive.AppendStep(p)]);
      Archive.RunSnoc(h, steps + Appends(init), Archive.AppendStep(p));
      AppendedState(h, Archive.Run(h, steps + Appends(init)), p);
      Archive.AppendAllSnoc(h, Archive.Run(h, steps).hot, init, p);
      ConcatAssociates(Archive.Run(h, steps).tail, init, [p]);
    }
  }

  /** A step that neither crashes nor snapshots: the logs grow by what the node acted on. */
  ghost predicate Acts(h: Hashes, w: World, w': World) {
    var j := Since(w, w');
    && w'.saved == w.saved && w'.trace.covered == w.trace.covered
    && JournalOk(w'.trace.acted) && w.trace.acted.entries <= w'.trace.acted.entries && JournalOk(j)
    && (w'.alive ==>
          && w'.node.core.orderLog == AppendAll(h.ofReceipt, w.node.core.orderLog, Receipts(j.entries))
          && w'.node.core.matchLog ==
             AppendAll(h.ofMatch, w.node.core.matchLog, Produced(h, w.node.core, j.entries, j.clocks)))
  }

  lemma StillActs(h: Hashes, w: World, w': World)
    requires JournalOk(w.trace.acted) && w'.trace.acted == w.trace.acted
    requires w'.saved == w.saved && w'.trace.covered == w.trace.covered
    requires w'.alive ==> w'.node.core.orderLog == w.node.core.orderLog && w'.node.core.matchLog == w.node.core.matchLog
    ensures Acts(h, w, w')
  {
    var j := Since(w, w');
    assert j.entries == [] && j.clocks == [];
    Archive.NoneAppended(h.ofReceipt, w.node.core.orderLog);
    Archive.NoneAppended(h.ofMatch, w.node.core.matchLog);
    hide AppendAll;
  }

  lemma OneActs(h: Hashes, w: World, w': World, e: WalEntry, clock: u64)
    requires JournalOk(w.trace.acted) && w'.trace.acted == Then(w.trace.acted, e, clock)
    requires w'.saved == w.saved && w'.trace.covered == w.trace.covered
    requires var c := CoreStep(h, w.node.core, e, clock);
             w'.node.core.orderLog == c.orderLog && w'.node.core.matchLog == c.matchLog
    ensures Acts(h, w, w')
  {
    var j := Since(w, w');
    assert j.entries == [e] && j.clocks == [clock];
    StepLogs(h, w.node.core, e, clock);
    OneProduced(h, w.node.core, e, clock);
    hide AppendAll, Receipts, Produced, CoreStep, MatchesBy;
  }

  lemma OneProduced(h: Hashes, c: Core, e: WalEntry, clock: u64)
    ensures Produced(h, c, [e], [clock]) == MatchesBy(c, e, clock)
  {
    hide Add;
    assert [e][..0] == [] && [clock][..0] == [];
    assert Produced(h, c, [], []) == [] && FoldCore(h, c, [], []) == c;
    assert [] + MatchesBy(c, e, clock) == MatchesBy(c, e, clock);
  }

  lemma DurablyActs(h: Hashes, w: World, e: WalEntry, clock: u64, write: Write, acted: Node, failed: Node)
    requires JournalOk(w.trace.acted)
    requires var c := CoreStep(h, w.node.core, e, clock);
             acted.core.orderLog == c.orderLog && acted.core.matchLog == c.matchLog
    requires failed.core.orderLog == w.node.core.orderLog && failed.core.matchLog == w.node.core.matchLog
    ensures Acts(h, w, Durably(w, e, clock, write, acted, failed))
  {
    var w' := Durably(w, e, clock, write, acted, failed);
    hide CoreStep, Acts, Renewed;
    if write.Written? || (write.Unflushed? && e.BatchSubmitted?) {
      OneActs(h, w, w', e, clock);
    } else {
      StillActs(h, w, w');
    }
  }

  lemma SideLogs(h: Hashes, c: Core, e: WalEntry, clock: u64)
    requires !e.OrderAccepted?
    ensures CoreStep(h, c, e, clock).orderLog == c.orderLog && CoreStep(h, c, e, clock).matchLog == c.matchLog
  {
  }

  lemma HeadActs(h: Hashes, w: World, ts: Option<u64>, clock: u64, write: Write)
    requires JournalOk(w.trace.acted) && w.inflight != []
    ensures Acts(h, w, ApplyHead(h, w, ts, clock, write))
  {
    var w', id := w.(inflight := w.inflight[1..]), w.inflight[0];
    hide Acts, Durably, CoreStep;
    if id in w.node.data {
      var (o, r) := w.node.data[id];
      var taken := w.node.(data := w.node.data - {id});
      var e := OrderAccepted(o, r, ts);
      DurablyActs(h, w', e, clock, write, taken.(core := CoreStep(h, taken.core, e, clock)), taken);
      SameActs(h, w, w', ApplyHead(h, w, ts, clock, write));
    } else {
      StillActs(h, w, w');
    }
  }

  lemma SameActs(h: Hashes, w: World, x: World, w': World)
    requires Acts(h, x, w') && x.saved == w.saved && x.trace == w.trace && x.node.core == w.node.core
    ensures Acts(h, w, w')
  {
    hide AppendAll, Receipts, Produced;
    assert Since(w, w') == Since(x, w');
  }

  lemma IntakeActs(h: Hashes, w: World, o: Order, r: Receipt, write: Write)
    requires JournalOk(w.trace.acted)
    ensures Acts(h, w, Intake(w, o, r, write))
  {
    var n := w.node;
    hide Acts, Durably, CoreStep;
    if o.id !in n.data && o.id !in n.core.applied {
      SideLogs(h, n.core, OrderQueued(o, r), 0);
      var queued := n.(buffer := n.buffer + [o.id], data := n.data[o.id := (o, r)]);
      DurablyActs(h, w, OrderQueued(o, r), 0, write, queued, n);
    } else {
      StillActs(h, w, w);
    }
  }

  lemma ConfirmActs(h: Hashes, w: World, key: Key, tradeHash: Id, write: Write)
    requires JournalOk(w.trace.acted)
    ensures Acts(h, w, ConfirmPending(w, key, tradeHash, write))
  {
    var n := w.node;
    hide Acts, Durably, CoreStep, SettlementRuns.Confirm;
    if key in n.core.pending {
      var m := n.core.pending[key];
      var core := n.core.(pending := n.core.pending - {key});
      SideLogs(h, n.core, CommitConfirmed(m, tradeHash), 0);
      DurablyActs(h, w, CommitConfirmed(m, tradeHash), 0, write, ConfirmLocally(n.(core := core), m, tradeHash), n);
    } else {
      StillActs(h, w, w);
    }
  }

  lemma CheckpointActs(h: Hashes, w: World, write: Write)
    requires JournalOk(w.trace.acted)
    ensures Acts(h, w, Checkpoint(w, write))
  {
    hide Acts, Durably, CoreStep;
    if w.settler.stage.Landed? {
      var w', e := w.(settler := w.settler.(stage := Idle)), BatchSubmitted(w.settler.stage.keys);
      SideLogs(h, w.node.core, e, 0);
      DurablyActs(h, w', e, 0, write, w.node, w.node);
      SameActs(h, w, w', Checkpoint(w, write));
    } else {
      StillActs(h, w, w);
    }
  }

  lemma StepActs(h: Hashes, book: Book, w: World, op: Op)
    requires JournalOk(w.trace.acted) && w.alive && !op.Crash? && !op.SnapshotCycle?
    ensures Acts(h, w, Do(h, book, w, op))
  {
    var n, w' := w.node, Do(h, book, w, op);
    if MemoryOp(op) { MemoryStep(h, book, w, op); }
    hide Acts, CoreStep, Intake, ConfirmPending, Durably, ApplyHead, Process, PrepareChunk, Submit, Checkpoint,
        Reconcile;
    if MemoryOp(op) {
      StillActs(h, w, w');
    } else {
      match op
      case Queue(o, r, write) => IntakeActs(h, w, o, r, write);
      case AcceptNow(o, r, clock, write) =>
        var e := OrderAccepted(o, r, None);
        DurablyActs(h, w, e, clock, write, n.(core := CoreStep(h, n.core, e, clock)), n);
      case ApplyNext(ts, clock, write) =>
        if w.inflight != [] { HeadActs(h, w, ts, clock, write); } else { StillActs(h, w, w); }
      case ConfirmOp(key, tradeHash, write) => ConfirmActs(h, w, key, tradeHash, write);
      case CheckpointOp(write) => CheckpointActs(h, w, write);
    }
  }

  lemma {:induction false} ReceiptsConcat(a: seq<WalEntry>, b: seq<WalEntry>)
    ensures Receipts(a + b) == Receipts(a) + Receipts(b)
    decreases |b|
  {
    hide *;
    if b == [] {
      assert a + b == a;
      NoReceipts();
    } else {
      var init, e := SplitLast(b);
      ReceiptsConcat(a, init);
      assert a + b == (a + init) + [e];
      ReceiptsSnoc(a + init, e);
      ReceiptsSnoc(init, e);
      ConcatAssociates(Receipts(a), Receipts(init), Receipts([e]));
    }
  }

  lemma ActsTied(h: Hashes, book: Book, w: World, w': World, os: seq<Archive.Step<Receipt>>,
      ms: seq<Archive.Step<Match>>)
    requires Tied(book, w, Archive.Run(h.ofReceipt, os), Archive.Run(h.ofMatch, ms)) && w.alive && Acts(h, w, w')
    ensures var j := Since(w, w');
            Tied(book, w', Archive.Run(h.ofReceipt, os + Appends(Receipts(j.entries))),
                 Archive.Run(h.ofMatch, ms + Appends(Produced(h, w.node.core, j.entries, j.clocks))))
  {
    hide *;
    var j := Since(w, w');
    var o, m := Archive.Run(h.ofReceipt, os), Archive.Run(h.ofMatch, ms);
    Unfold(book, w, o, m);
    ActsParts(h, w, w');
    RunAppends(h.ofReceipt, os, Receipts(j.entries));
    RunAppends(h.ofMatch, ms, Produced(h, w.node.core, j.entries, j.clocks));
    SinceIs(w, w');
    ReceiptsConcat(w.trace.acted.entries[w.trace.covered..], j.entries);
    Fold(book, w', Archive.Run(h.ofReceipt, os + Appends(Receipts(j.entries))),
         Archive.Run(h.ofMatch, ms + Appends(Produced(h, w.node.core, j.entries, j.clocks))));
  }

  lemma ActsParts(h: Hashes, w: World, w': World)
    requires Acts(h, w, w')
    ensures var j := Since(w, w');
            && w'.saved == w.saved && w'.trace.covered == w.trace.covered && |j.clocks| == |j.entries|
            && JournalOk(w'.trace.acted) && w.trace.acted.entries <= w'.trace.acted.entries
            && (w'.alive ==>
                  && w'.node.core.orderLog == AppendAll(h.ofReceipt, w.node.core.orderLog, Receipts(j.entries))
                  && w'.node.core.matchLog ==
                     AppendAll(h.ofMatch, w.node.core.matchLog, Produced(h, w.node.core, j.entries, j.clocks)))
  {
    hide AppendAll, Receipts, Produced, Since;
  }

  lemma SinceIs(w: World, w': World)
    requires JournalOk(w.trace.acted) && JournalOk(w'.trace.acted) && w.trace.acted.entries <= w'.trace.acted.entries
    ensures Since(w, w').entries == w'.trace.acted.entries[|w.trace.acted.entries|..]
    ensures forall n: nat | n <= |w.trace.acted.entries| ::
              w'.trace.acted.entries[n..] == w.trace.acted.entries[n..] + Since(w, w').entries
  {
  }

  /** Storing everything older and trimming, or failing and keeping everything, as the node does. */
  lemma CycleHot<T>(s: Archive.LogState<T>, a: Archiving)
    ensures var s' := Archive.Cycle(s, a.window, a.writes, a.flushed);
            s'.hot == SplitOffArchived(s.hot, KeepFrom(s.hot, a)).1 && s'.saved == s.saved && s'.tail == s.tail
  {
    hide Archive.InsertAll;
    if |s.hot.entries| > a.window {
      assert |SplitOffArchived(s.hot, NextSeq(s.hot) - a.window).0| == |s.hot.entries| - a.window;
    }
    assert s.hot.entries[0..] == s.hot.entries && s.hot.entries[..0] == [];
  }

  lemma RunCycles<T>(h: (nat, Id, T) -> Id, steps: seq<Archive.Step<T>>, w: World, op: Op, a: Archiving)
    requires op.SnapshotCycle?
    ensures var s, s' := Archive.Run(h, steps), Archive.Run(h, steps + Cycles(w, op, a));
            var hot := SplitOffArchived(s.hot, KeepFrom(s.hot, a)).1;
            && s'.hot == hot
            && (if w.wal != [] && op.saves then s'.saved == hot && s'.tail == []
                else s'.saved == s.saved && s'.tail == s.tail)
  {
    var s, cycle := Archive.Run(h, steps), Archive.ArchiveCycle(a.window, a.writes, a.flushed);
    CycleHot(s, a);
    Archive.RunSnoc(h, steps, cycle);
    hide Archive.Run, SplitOffArchived, KeepFrom, Archive.Cycle;
    if w.wal != [] && op.saves {
      Archive.RunSnoc(h, steps + [cycle], Archive.SaveSnapshot);
      assert steps + ([cycle] + [Archive.SaveSnapshot]) == steps + [cycle] + [Archive.SaveSnapshot];
    } else {
      assert steps + ([cycle] + []) == steps + [cycle];
    }
  }

  lemma SavedLogs(book: Book, n: Node, covers: nat)
    ensures var c := Restored(book, Some(Saved(BuildSnapshot(n), covers))).core;
            c.orderLog == n.core.orderLog && c.matchLog == n.core.matchLog
  {
    hide Settlement.EnqueueAll, Settlement.QueuedTrades;
  }

  lemma CycleTied(h: Hashes, book: Book, w: World, e: Event, os: seq<Archive.Step<Receipt>>,
      ms: seq<Archive.Step<Match>>)
    requires Tied(book, w, Archive.Run(h.ofReceipt, os), Archive.Run(h.ofMatch, ms)) && w.alive && e.op.SnapshotCycle?
    ensures var op := OpOf(w, e);
            Tied(book, Do(h, book, w, op), Archive.Run(h.ofReceipt, os + Cycles(w, op, e.orders)),
                 Archive.Run(h.ofMatch, ms + Cycles(w, op, e.matches)))
  {
    hide *;
    var op := OpOf(w, e);
    var o, m, w' := Archive.Run(h.ofReceipt, os), Archive.Run(h.ofMatch, ms), Do(h, book, w, op);
    Unfold(book, w, o, m);
    SnapshotOp(w, e);
    RunCycles(h.ofReceipt, os, w, op, e.orders);
    RunCycles(h.ofMatch, ms, w, op, e.matches);
    CycledWorld(h, book, w, e);
    NoReceipts();
    Fold(book, w', Archive.Run(h.ofReceipt, os + Cycles(w, op, e.orders)),
         Archive.Run(h.ofMatch, ms + Cycles(w, op, e.matches)));
  }

  lemma SnapshotOp(w: World, e: Event)
    requires e.op.SnapshotCycle?
    ensures OpOf(w, e).SnapshotCycle? && OpOf(w, e).saves == e.op.saves
  {
  }

  lemma CycledWorld(h: Hashes, book: Book, w: World, e: Event)
    requires w.alive && e.op.SnapshotCycle?
    ensures var w', c := Do(h, book, w, OpOf(w, e)), w.node.core;
            var orders := SplitOffArchived(c.orderLog, KeepFrom(c.orderLog, e.orders)).1;
            var matches := SplitOffArchived(c.matchLog, KeepFrom(c.matchLog, e.matches)).1;
            && w'.alive && w'.node.core.orderLog == orders && w'.node.core.matchLog == matches
            && w'.trace.acted == w.trace.acted
            && (if w.wal != [] && e.op.saves then
                  && w'.trace.covered == |w.trace.acted.entries|
                  && w'.trace.acted.entries[w'.trace.covered..] == []
                  && Restored(book, w'.saved).core.orderLog == orders
                  && Restored(book, w'.saved).core.matchLog == matches
                else w'.saved == w.saved && w'.trace.covered == w.trace.covered)
  {
    var w' := Do(h, book, w, OpOf(w, e));
    hide SplitOffArchived, KeepFrom, Restored, BuildSnapshot, Truncate;
    if w.wal != [] && e.op.saves { SavedLogs(book, w'.node, w.wal[|w.wal| - 1].key); }
  }

  lemma NoReceipts()
    ensures Receipts([]) == []
  {
  }

  lemma CrashTied(h: Hashes, book: Book, w: World, op: Op, os: seq<Archive.Step<Receipt>>, ms: seq<Archive.Step<Match>>)
    requires Tied(book, w, Archive.Run(h.ofReceipt, os), Archive.Run(h.ofMatch, ms)) && DiskOk(w) && op.Crash?
    ensures var again := Produced(h, Restored(book, w.saved).core, Tail(w), Times(op.bootClock, |Tail(w)|));
            Tied(book, Do(h, book, w, op), Archive.Run(h.ofReceipt, os + [Archive.Crash(Receipts(Tail(w)))]),
                 Archive.Run(h.ofMatch, ms + [Archive.Crash(again)]))
  {
    hide *;
    var again := Produced(h, Restored(book, w.saved).core, Tail(w), Times(op.bootClock, |Tail(w)|));
    var o, m, w' := Archive.Run(h.ofReceipt, os), Archive.Run(h.ofMatch, ms), Do(h, book, w, op);
    Unfold(book, w, o, m);
    Archive.RunSnoc(h.ofReceipt, os, Archive.Crash(Receipts(Tail(w))));
    Archive.RunSnoc(h.ofMatch, ms, Archive.Crash(again));
    CrashedLog(h.ofReceipt, o, Receipts(Tail(w)));
    CrashedLog(h.ofMatch, m, again);
    CrashedWorld(h, book, w, op);
    Fold(book, w', Archive.Run(h.ofReceipt, os + [Archive.Crash(Receipts(Tail(w)))]),
         Archive.Run(h.ofMatch, ms + [Archive.Crash(again)]));
  }

  lemma CrashedLog<T>(h: (nat, Id, T) -> Id, s: Archive.LogState<T>, again: seq<T>)
    ensures var s' := Archive.Do(h, s, Archive.Crash(again));
            s'.hot == AppendAll(h, s.saved, again) && s'.saved == s.saved && s'.tail == again && s'.archive == s.archive
  {
    hide AppendAll;
  }

  lemma CrashedWorld(h: Hashes, book: Book, w: World, op: Op)
    requires DiskOk(w) && op.Crash?
    ensures var w', c := Do(h, book, w, op), Restored(book, w.saved).core;
            var again := Produced(h, c, Tail(w), Times(op.bootClock, |Tail(w)|));
            && w'.alive && w'.saved == w.saved
            && w'.node.core.orderLog == AppendAll(h.ofReceipt, c.orderLog, Receipts(Tail(w)))
            && w'.node.core.matchLog == AppendAll(h.ofMatch, c.matchLog, again)
            && JournalOk(w'.trace.acted) && w'.trace.covered <= |w'.trace.acted.entries|
            && w'.trace.acted.entries[w'.trace.covered..] == Tail(w)
  {
    RecoverCore(h, book, w, op.bootClock);
    FoldLogs(h, Restored(book, w.saved).core, Tail(w), Times(op.bootClock, |Tail(w)|));
    hide Recover, FoldCore, AppendAll, Receipts, Produced, After, Restored, Times, Candidates, SettledKeys, KeysOk;
  }

  lemma EventTied(h: Hashes, book: Book, w: World, e: Event, os: seq<Archive.Step<Receipt>>,
      ms: seq<Archive.Step<Match>>)
    requires Tied(book, w, Archive.Run(h.ofReceipt, os), Archive.Run(h.ofMatch, ms)) && Simulates(h, book, w, false)
    ensures var op := OpOf(w, e);
            Tied(book, Do(h, book, w, op), Archive.Run(h.ofReceipt, os + OrderStep(h, book, w, op, e.orders)),
                 Archive.Run(h.ofMatch, ms + MatchStep(h, book, w, op, e.matches)))
  {
    var op := OpOf(w, e);
    assert DiskOk(w) && JournalOk(w.trace.acted);
    hide Simulates, Tied, DiskOk, Archive.Run, Do, Acts, Since, Receipts, Produced, Appends, Cycles, Restored, After,
        Times;
    if op.Crash? {
      CrashTied(h, book, w, op, os, ms);
    } else if !w.alive {
      DeadStays(h, book, w, op);
      assert os + [] == os && ms + [] == ms;
    } else if op.SnapshotCycle? {
      CycleTied(h, book, w, e, os, ms);
    } else {
      StepActs(h, book, w, op);
      ActsJournal(h, w, Do(h, book, w, op));
      ActsTied(h, book, w, Do(h, book, w, op), os, ms);
    }
  }

  lemma ActsJournal(h: Hashes, w: World, w': World)
    requires Acts(h, w, w')
    ensures JournalOk(Since(w, w'))
  {
  }

  lemma OpsLast(h: Hashes, book: Book, es: seq<Event>)
    requires es != []
    ensures var init, e := es[..|es| - 1], es[|es| - 1];
            var w := WorldAt(h, book, init);
            && Ops(h, book, es) == Ops(h, book, init) + [OpOf(w, e)]
            && WorldAt(h, book, es) == Do(h, book, w, OpOf(w, e))
            && OrderSteps(h, book, es) == OrderSteps(h, book, init) + OrderStep(h, book, w, OpOf(w, e), e.orders)
            && MatchSteps(h, book, es) == MatchSteps(h, book, init) + MatchStep(h, book, w, OpOf(w, e), e.matches)
  {
    var init, e := es[..|es| - 1], es[|es| - 1];
    hide Do, Run, OpOf, OrderStep, MatchStep;
    RunSnoc(h, book, Ops(h, book, init), OpOf(WorldAt(h, book, init), e));
  }

  /** In every run of a node, whatever becomes of its writes, of its archiving and of its process, both logs
      with their archives are runs of the archive's machine: a crash appends to the order log the receipts
      logged after the snapshot, and to the match log what those orders produce when matched again. */
  lemma {:induction false} LogsAreArchived(h: Hashes, book: Book, es: seq<Event>)
    ensures Tied(book, WorldAt(h, book, es), OrdersAt(h, book, es), MatchesAt(h, book, es))
    decreases |es|
  {
    if es == [] {
      FreshTied(book);
    } else {
      var init, e := es[..|es| - 1], es[|es| - 1];
      hide *;
      LogsAreArchived(h, book, init);
      OpsLast(h, book, es);
      EveryRunSimulates(h, book, Ops(h, book, init), false);
      LogsAre(h, book, init);
      LogsAre(h, book, es);
      EventTied(h, book, WorldAt(h, book, init), e, OrderSteps(h, book, init), MatchSteps(h, book, init));
    }
  }

  lemma LogsAre(h: Hashes, book: Book, es: seq<Event>)
    ensures WorldAt(h, book, es) == Run(h, book, Ops(h, book, es))
    ensures OrdersAt(h, book, es) == Archive.Run(h.ofReceipt, OrderSteps(h, book, es))
    ensures MatchesAt(h, book, es) == Archive.Run(h.ofMatch, MatchSteps(h, book, es))
  {
  }

  lemma FreshTied(book: Book)
    ensures Tied(book, Initial(book), Archive.InitialLog(), Archive.InitialLog())
  {
  }
}
