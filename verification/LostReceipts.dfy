/** Orders whose entry was inserted and reported failed, and the archive of receipts: exactly when archived
    receipts stay true. */
module LostReceipts {
  import opened Types
  import opened Engine
  import opened HashChain
  import opened NodeState
  import opened Recovery
  import opened RecoveryTheorems
  import opened NodeRuns
  import opened FailedWrites
  import opened ExactlyOnce
  import opened ArchiveRuns
  import Archive
  import SettlementRuns

  // ---- Receipts name their orders ----

  predicate SignedEntry(e: WalEntry) {
    && (e.OrderAccepted? ==> e.receipt.orderId == e.order.id)
    && (e.OrderQueued? ==> e.queuedReceipt.orderId == e.queued.id)
  }

  predicate SignedOp(op: Op) {
    && (op.Queue? ==> op.receipt.orderId == op.order.id)
    && (op.AcceptNow? ==> op.acceptedReceipt.orderId == op.accepted.id)
  }

  /** Every receipt handed in was signed for its order. */
  ghost predicate Signed(ops: seq<Op>) {
    forall i :: 0 <= i < |ops| ==> SignedOp(ops[i])
  }

  ghost predicate AllSigned(es: seq<WalEntry>) {
    forall e :: e in es ==> SignedEntry(e)
  }

  ghost predicate SignedData(data: map<Id, Buffered>) {
    forall id :: id in data ==> data[id].1.orderId == data[id].0.id
  }

  ghost predicate SignedWorld(w: World) {
    && AllSigned(w.trace.logged.entries) && AllSigned(w.trace.acted.entries)
    && (w.alive ==> SignedData(w.node.data))
  }

  lemma DurablySigned(w: World, e: WalEntry, clock: u64, write: Write, acted: Node, failed: Node)
    requires SignedWorld(w) && SignedEntry(e) && SignedData(acted.data) && SignedData(failed.data)
    ensures SignedWorld(Durably(w, e, clock, write, acted, failed))
  {
    hide Renewed;
  }

  lemma {:induction false} DataSigned(es: seq<WalEntry>, applied: set<Id>)
    requires AllSigned(es)
    ensures SignedData(DataAll(map[], Unapplied(QueuedOrders(es), applied)))
    decreases |es|
  {
    if es != [] {
      var init, e := SplitLast(es);
      assert AllSigned(init) && SignedEntry(e);
      DataSigned(init, applied);
      LogSnoc(init, e, {});
      var qs := QueuedOrders(init);
      hide SettledKeys, Candidates, ConfirmKeys, QueuedOrders, AllSigned;
      if e.OrderQueued? {
        UnappliedConcat(qs, [(e.queued, e.queuedReceipt)], applied);
        OneUnapplied((e.queued, e.queuedReceipt), applied);
        if e.queued.id !in applied {
          DataSnoc(map[], Unapplied(qs, applied), (e.queued, e.queuedReceipt));
        } else {
          assert Unapplied(qs, applied) + [] == Unapplied(qs, applied);
        }
      } else {
        assert qs + [] == qs;
      }
    }
  }

  lemma OneUnapplied(q: Buffered, applied: set<Id>)
    ensures Unapplied([q], applied) == if q.0.id in applied then [] else [q]
  {
    assert [q][..0] == [];
  }

  lemma RestartSigned(h: Hashes, book: Book, w: World, clock: nat -> u64, gap: nat)
    requires Simulates(h, book, w, false) && SignedWorld(w)
    ensures SignedWorld(Restart(h, book, w, clock, gap))
  {
    assert AllSigned(Tail(w)) by {
      assert Tail(w) == w.trace.logged.entries[w.trace.covered..];
    }
    RecoveredBuffer(h, book, w, clock);
    DataSigned(Tail(w), AcceptedSet(w.trace.logged.entries));
    hide Simulates, Recover, AllSigned, SignedData, Unapplied, QueuedOrders, DataAll, Candidates, SettledKeys,
        AcceptedSet, After, IdsIn;
  }

  lemma HeadSigned(h: Hashes, w: World, ts: Option<u64>, clock: u64, write: Write)
    requires SignedWorld(w) && w.alive && w.inflight != []
    ensures SignedWorld(ApplyHead(h, w, ts, clock, write))
  {
    var w', id := w.(inflight := w.inflight[1..]), w.inflight[0];
    assert SignedWorld(w');
    hide CoreStep, Durably, AllSigned;
    if id in w.node.data {
      var (o, r) := w.node.data[id];
      var taken := w.node.(data := w.node.data - {id});
      var e := OrderAccepted(o, r, ts);
      DurablySigned(w', e, clock, write, taken.(core := CoreStep(h, taken.core, e, clock)), taken);
    }
  }

  lemma StepSigned(h: Hashes, book: Book, w: World, op: Op)
    requires Simulates(h, book, w, false) && SignedWorld(w) && SignedOp(op)
    ensures SignedWorld(Do(h, book, w, op))
  {
    var n := w.node;
    if MemoryOp(op) { MemoryStep(h, book, w, op); }
    if op.ProcessOp? || op.PrepareOp? || op.SubmitOp? || op.ReconcileOp? { SettlementQuiet(h, book, w, op); }
    hide Simulates, AllSigned, CoreStep, Restart, Trim, Durably, ApplyHead, Truncate, BuildSnapshot, Process,
        PrepareChunk, Submit,
         Reconcile, SettlementRuns.Confirm;
    if op.Crash? {
      RestartSigned(h, book, w, op.bootClock, op.gap);
    } else if w.alive && !MemoryOp(op) {
      match op
      case Queue(o, r, write) =>
        if o.id !in n.data && o.id !in n.core.applied {
          var queued := n.(buffer := n.buffer + [o.id], data := n.data[o.id := (o, r)]);
          DurablySigned(w, OrderQueued(o, r), 0, write, queued, n);
        }
      case AcceptNow(o, r, clock, write) =>
        var e := OrderAccepted(o, r, None);
        DurablySigned(w, e, clock, write, n.(core := CoreStep(h, n.core, e, clock)), n);
      case ApplyNext(ts, clock, write) => if w.inflight != [] { HeadSigned(h, w, ts, clock, write); }
      case ConfirmOp(key, tradeHash, write) =>
        if key in n.core.pending {
          var m := n.core.pending[key];
          var core := n.core.(pending := n.core.pending - {key});
          DurablySigned(w, CommitConfirmed(m, tradeHash), 0, write, ConfirmLocally(n.(core := core), m, tradeHash), n);
        }
      case CheckpointOp(write) =>
        if w.settler.stage.Landed? {
          var idle := w.(settler := w.settler.(stage := Idle));
          DurablySigned(idle, BatchSubmitted(w.settler.stage.keys), 0, write, n, n);
        }
      case SnapshotCycle(_, _, _, _) =>
    }
  }

  lemma {:induction false} EveryRunSigned(h: Hashes, book: Book, ops: seq<Op>)
    requires Signed(ops)
    ensures SignedWorld(Run(h, book, ops))
    decreases |ops|
  {
    if ops != [] {
      hide Do, SignedWorld, Simulates;
      EveryRunSigned(h, book, ops[..|ops| - 1]);
      EveryRunSimulates(h, book, ops[..|ops| - 1], false);
      StepSigned(h, book, Run(h, book, ops[..|ops| - 1]), ops[|ops| - 1]);
    }
  }

  // ---- The node acted on all but the lost orders ----

  /** The receipts of orders not in a set. */
  function Others(rs: seq<Receipt>, lost: set<Id>): seq<Receipt> {
    if rs == [] then []
    else Others(rs[..|rs| - 1], lost) + (if rs[|rs| - 1].orderId in lost then [] else [rs[|rs| - 1]])
  }

  lemma OthersSnoc(rs: seq<Receipt>, r: Receipt, lost: set<Id>)
    ensures Others(rs + [r], lost) == Others(rs, lost) + (if r.orderId in lost then [] else [r])
  {
    assert (rs + [r])[..|rs|] == rs;
  }

  lemma {:induction false} OthersNone(rs: seq<Receipt>)
    ensures Others(rs, {}) == rs
  {
    if rs != [] {
      OthersNone(rs[..|rs| - 1]);
      assert rs == rs[..|rs| - 1] + [rs[|rs| - 1]];
    }
  }

  lemma {:induction false} OthersMore(rs: seq<Receipt>, lost: set<Id>, id: Id)
    requires forall i :: 0 <= i < |rs| ==> rs[i].orderId != id
    ensures Others(rs, lost + {id}) == Others(rs, lost)
  {
    if rs != [] { OthersMore(rs[..|rs| - 1], lost, id); }
  }

  lemma {:induction false} ReceiptIds(es: seq<WalEntry>, i: nat)
    requires AllSigned(es) && i < |Receipts(es)|
    ensures Receipts(es)[i].orderId in AcceptedSet(es)
    decreases |es|
  {
    var init, e := es[..|es| - 1], es[|es| - 1];
    assert e in es && forall x :: x in init ==> x in es;
    assert SignedEntry(e);
    if i < |Receipts(init)| { ReceiptIds(init, i); }
  }

  /** The entry, if any, that was written as the process died. */
  function Settled(w: World): seq<WalEntry> {
    if w.alive || Tail(w) == [] then Tail(w) else Tail(w)[..|Tail(w)| - 1]
  }

  /** What the node acted on since the snapshot is what was logged since, without the lost orders. */
  ghost predicate Missing(w: World) {
    && w.trace.covered <= |w.trace.acted.entries|
    && Receipts(Unsaved(w)) == Others(Receipts(Settled(w)), w.trace.lost)
  }

  lemma LoggedSettled(w: World, w': World, e: WalEntry)
    requires DiskOk(w) && w.alive && w'.wal == w.wal + [Rec(w.nextKey, e)] && w'.saved == w.saved
    ensures Settled(w') == if w'.alive then Tail(w) + [e] else Tail(w)
  {
    LogTail(w, e, 0);
    assert Tail(w') == Tail(Log(w, e, 0));
    hide After, KeysOk;
  }

  /** No receipt of a lost or unaccepted order is in the tail. */
  lemma NotInTail(w: World, id: Id)
    requires DiskOk(w) && SignedWorld(w) && id !in AcceptedSet(w.trace.logged.entries)
    ensures forall i :: 0 <= i < |Receipts(Tail(w))| ==> Receipts(Tail(w))[i].orderId != id
  {
    var es, n := w.trace.logged.entries, w.trace.covered;
    assert Tail(w) == es[n..];
    assert AllSigned(Tail(w));
    AcceptedConcat(es[..n], es[n..]);
    assert es[..n] + es[n..] == es;
    hide AllSigned, Receipts, AcceptedSet, After, DiskOk;
    forall i | 0 <= i < |Receipts(Tail(w))| ensures Receipts(Tail(w))[i].orderId != id { ReceiptIds(Tail(w), i); }
  }

  lemma {:induction false} AcceptedConcat(a: seq<WalEntry>, b: seq<WalEntry>)
    ensures AcceptedSet(a + b) == AcceptedSet(a) + AcceptedSet(b)
    decreases |b|
  {
    if b == [] {
      assert a + b == a;
    } else {
      var init, e := SplitLast(b);
      AcceptedConcat(a, init);
      assert a + b == (a + init) + [e];
      hide AcceptedSet, AcceptedIds;
      AcceptedSnoc(a + init, e);
      AcceptedSnoc(init, e);
    }
  }

  lemma UnsavedNext(w: World, w': World, e: WalEntry)
    requires w.trace.covered <= |w.trace.acted.entries| && w'.trace.covered == w.trace.covered
    requires w'.trace.acted.entries == w.trace.acted.entries + [e]
    ensures Receipts(Unsaved(w')) == Receipts(Unsaved(w)) + Receipts([e])
  {
    hide Receipts;
    assert Unsaved(w') == Unsaved(w) + [e];
    ReceiptsSnoc(Unsaved(w), e);
  }

  lemma ActedMissing(w: World, w': World, e: WalEntry)
    requires DiskOk(w) && w.alive && Missing(w) && SignedEntry(e) && (e.OrderAccepted? ==> e.order.id !in w.trace.lost)
    requires w'.wal == w.wal + [Rec(w.nextKey, e)] && w'.saved == w.saved && w'.alive
    requires w'.trace.covered == w.trace.covered && w'.trace.lost == w.trace.lost
    requires w'.trace.acted.entries == w.trace.acted.entries + [e]
    ensures Missing(w')
  {
    var rs := Receipts(Tail(w));
    LoggedSettled(w, w', e);
    UnsavedNext(w, w', e);
    OneReceipt(e);
    hide DiskOk, Receipts, Others, Tail, Unsaved;
    ReceiptsSnoc(Tail(w), e);
    if e.OrderAccepted? {
      OthersSnoc(rs, e.receipt, w.trace.lost);
    } else {
      assert rs + [] == rs && Receipts(Unsaved(w)) + [] == Receipts(Unsaved(w));
    }
  }

  lemma MissedMissing(w: World, w': World, e: WalEntry)
    requires DiskOk(w) && SignedWorld(w) && w.alive && Missing(w) && SignedEntry(e)
    requires e.OrderAccepted? ==> e.order.id !in AcceptedSet(w.trace.logged.entries)
    requires w'.wal == w.wal + [Rec(w.nextKey, e)] && w'.saved == w.saved && w'.alive
    requires w'.trace.covered == w.trace.covered && w'.trace.acted == w.trace.acted
    requires w'.trace.lost == w.trace.lost + (if e.OrderAccepted? then {e.order.id} else {})
    ensures Missing(w')
  {
    var rs := Receipts(Tail(w));
    LoggedSettled(w, w', e);
    OneReceipt(e);
    if e.OrderAccepted? { NotInTail(w, e.order.id); }
    hide DiskOk, SignedWorld, Receipts, Others, Tail, Unsaved, AcceptedSet;
    ReceiptsSnoc(Tail(w), e);
    SameUnsaved(w, w');
    if e.OrderAccepted? {
      OthersSnoc(rs, e.receipt, w'.trace.lost);
      OthersMore(rs, w.trace.lost, e.order.id);
      assert Others(rs, w'.trace.lost) + [] == Others(rs, w'.trace.lost);
    } else {
      assert rs + [] == rs && w.trace.lost + {} == w.trace.lost;
    }
  }

  lemma SameUnsaved(w: World, w': World)
    requires w'.trace.acted == w.trace.acted && w'.trace.covered == w.trace.covered
    ensures Unsaved(w') == Unsaved(w)
  {
  }

  lemma QuietMissing(w: World, w': World)
    requires Missing(w) && w.alive && w'.trace.acted == w.trace.acted && w'.trace.covered == w.trace.covered
    requires w'.trace.lost == w.trace.lost && w'.wal == w.wal && w'.saved == w.saved && w'.alive
    ensures Missing(w')
  {
    SameUnsaved(w, w');
    SameTail(w, w');
    hide Receipts, Others, After, Unsaved;
  }

  lemma DiedMissing(w: World, w': World, e: WalEntry)
    requires DiskOk(w) && w.alive && Missing(w)
    requires w'.wal == w.wal + [Rec(w.nextKey, e)] && w'.saved == w.saved && !w'.alive
    requires w'.trace.acted == w.trace.acted && w'.trace.covered == w.trace.covered && w'.trace.lost == w.trace.lost
    ensures Missing(w')
  {
    LoggedSettled(w, w', e);
    SameUnsaved(w, w');
    hide Receipts, Others, Tail, Unsaved, DiskOk;
  }

  lemma DurablyMissing(w: World, e: WalEntry, clock: u64, write: Write, acted: Node, failed: Node)
    requires DiskOk(w) && SignedWorld(w) && w.alive && Missing(w) && SignedEntry(e)
    requires e.OrderAccepted? && !write.WriteFailed? ==>
               e.order.id !in AcceptedSet(w.trace.logged.entries) + w.trace.lost
    ensures Missing(Durably(w, e, clock, write, acted, failed))
  {
    var w' := Durably(w, e, clock, write, acted, failed);
    hide DiskOk, SignedWorld, Missing, AcceptedSet, Renewed;
    if write.Written? || (write.Unflushed? && e.BatchSubmitted?) {
      ActedMissing(w, w', e);
    } else if write.WriteFailed? {
      QuietMissing(w, w');
    } else if write.Unflushed? {
      MissedMissing(w, w', e);
    } else {
      DiedMissing(w, w', e);
    }
  }

  lemma HeadMissing(h: Hashes, book: Book, w: World, op: Op)
    requires DiskOk(w) && SignedWorld(w) && Filed(w) && Behind(w) && w.alive && Missing(w)
    requires op.ApplyNext? && !Retries(w, op)
    ensures Missing(Do(h, book, w, op))
  {
    if w.inflight != [] {
      var w', id := w.(inflight := w.inflight[1..]), w.inflight[0];
      QuietMissing(w, w');
      SameTail(w, w');
      assert DiskOk(w') && SignedWorld(w');
      hide DiskOk, Missing, CoreStep, Durably, AllSigned, AcceptedSet, ConfirmKeys, SettledKeys;
      if id in w.node.data {
        var (o, r) := w.node.data[id];
        var taken := w.node.(data := w.node.data - {id});
        var e := OrderAccepted(o, r, op.matchTimestampUs);
        DurablyMissing(w', e, op.clock, op.write, taken.(core := CoreStep(h, taken.core, e, op.clock)), taken);
      }
    }
  }

  lemma RestartMissing(h: Hashes, book: Book, w: World, clock: nat -> u64, gap: nat)
    requires DiskOk(w)
    ensures Missing(Restart(h, book, w, clock, gap))
  {
    var w' := Restart(h, book, w, clock, gap);
    SameTail(w, w');
    assert Unsaved(w') == Tail(w');
    OthersNone(Receipts(Tail(w')));
    hide Receipts, Others, Recover, After, Candidates, SettledKeys;
  }

  lemma CycleMissing(h: Hashes, book: Book, w: World, op: Op)
    requires DiskOk(w) && w.alive && Missing(w) && op.SnapshotCycle?
    ensures Missing(Do(h, book, w, op))
  {
    hide Receipts, Others, Trim, Truncate, BuildSnapshot, After, KeysOk;
    var w' := Do(h, book, w, op);
    CycleDisk(w, Trim(w.node.core, op.keepOrders, op.keepMatches), op.saves, op.removed);
    if w.wal == [] || !op.saves {
      QuietMissing(w, w');
    } else {
      assert Unsaved(w') == [];
      OthersNone([]);
      NoReceipts();
    }
  }

  lemma StepMissing(h: Hashes, book: Book, w: World, op: Op)
    requires Simulates(h, book, w, false) && Apart(h, book, w) && Filed(w) && SignedWorld(w) && Missing(w)
    requires !op.AcceptNow? && SignedOp(op) && !Retries(w, op)
    ensures Missing(Do(h, book, w, op))
  {
    var n, w' := w.node, Do(h, book, w, op);
    assert DiskOk(w);
    if w.alive { ApartBehind(h, book, w); }
    if MemoryOp(op) { MemoryStep(h, book, w, op); }
    hide Simulates, Apart, DiskOk, Behind, Filed, SignedWorld, Missing, Restart, CoreStep, Trim, Durably, ApplyHead,
        Process, PrepareChunk,
         Submit, Reconcile, SettlementRuns.Confirm, CycleSnapshot, Retries;
    if op.Crash? {
      CrashMissing(h, book, w, op);
    } else if w.alive {
      if MemoryOp(op) {
        QuietMissing(w, w');
      } else {
        match op
        case Queue(o, r, write) =>
          if o.id !in n.data && o.id !in n.core.applied {
            var queued := n.(buffer := n.buffer + [o.id], data := n.data[o.id := (o, r)]);
            DurablyMissing(w, OrderQueued(o, r), 0, write, queued, n);
          }
        case ApplyNext(_, _, _) => HeadMissing(h, book, w, op);
        case ConfirmOp(key, tradeHash, write) =>
          if key in n.core.pending {
            var m := n.core.pending[key];
            var core := n.core.(pending := n.core.pending - {key});
            var confirmed := ConfirmLocally(n.(core := core), m, tradeHash);
            DurablyMissing(w, CommitConfirmed(m, tradeHash), 0, write, confirmed, n);
          }
        case CheckpointOp(write) => CheckpointMissing(w, write);
        case SnapshotCycle(_, _, _, _) => CycleMissing(h, book, w, op);
      }
    }
  }

  lemma CrashMissing(h: Hashes, book: Book, w: World, op: Op)
    requires DiskOk(w) && op.Crash?
    ensures Missing(Do(h, book, w, op))
  {
    hide Missing, DiskOk, Restart;
    RestartMissing(h, book, w, op.bootClock, op.gap);
  }

  lemma CheckpointMissing(w: World, write: Write)
    requires DiskOk(w) && SignedWorld(w) && w.alive && Missing(w)
    ensures Missing(Checkpoint(w, write))
  {
    if w.settler.stage.Landed? {
      var idle := w.(settler := w.settler.(stage := Idle));
      QuietMissing(w, idle);
      IdleDisk(w, idle);
      assert SignedWorld(idle) by { hide AllSigned; }
      hide DiskOk, SignedWorld, Missing, Durably;
      DurablyMissing(idle, BatchSubmitted(w.settler.stage.keys), 0, write, w.node, w.node);
    }
  }

  lemma {:induction false} EveryRunMissing(h: Hashes, book: Book, ops: seq<Op>)
    requires Sequenced(ops) && Signed(ops) && NeverRetries(h, book, ops)
    ensures Missing(Run(h, book, ops))
    decreases |ops|
  {
    if ops == [] {
      NoReceipts();
      OthersNone([]);
      assert Unsaved(Initial(book)) == [] && Tail(Initial(book)) == [];
    } else {
      var init := ops[..|ops| - 1];
      hide Do, Missing, SignedWorld, Filed, Apart, Simulates, Retries, Run;
      RunLast(h, book, ops);
      EveryRunMissing(h, book, init);
      EveryRunSimulates(h, book, init, false);
      EveryRunApart(h, book, init);
      EveryRunFiled(h, book, init);
      EveryRunSigned(h, book, init);
      StepMissing(h, book, Run(h, book, init), ops[|ops| - 1]);
    }
  }

  // ---- When archived receipts stay true ----

  /** No receipt of a lost order comes back at an index that is archived. */
  ghost predicate NoLostArchived(o: Archive.LogState<Receipt>, rs: seq<Receipt>, lost: set<Id>) {
    forall i :: 0 <= i < |rs| && NextSeq(o.saved) + i in o.archive ==> rs[i].orderId !in lost
  }

  lemma {:induction false} OthersShorter(rs: seq<Receipt>, lost: set<Id>)
    ensures |Others(rs, lost)| <= |rs| && forall r :: r in Others(rs, lost) ==> r.orderId !in lost
  {
    if rs != [] { OthersShorter(rs[..|rs| - 1], lost); }
  }

  lemma {:induction false} OthersPrefix(rs: seq<Receipt>, lost: set<Id>, m: nat)
    requires m <= |rs| && forall i :: 0 <= i < m ==> rs[i].orderId !in lost
    ensures rs[..m] <= Others(rs, lost)
    decreases |rs|
  {
    if rs == [] {
      assert rs[..m] == [];
    } else {
      var n := |rs| - 1;
      OthersPrefix(rs[..n], lost, if m <= n then m else n);
      if m <= n {
        assert rs[..n][..m] == rs[..m];
      } else {
        assert rs[..n][..n] == rs[..n];
        OthersShorter(rs[..n], lost);
        assert Others(rs[..n], lost) == rs[..n];
        assert rs[..m] == rs[..n] + [rs[n]];
      }
    }
  }

  /** The archived receipts come back first and as they were exactly if none of a lost order is among
      them. */
  lemma RederivesIff(o: Archive.LogState<Receipt>, rs: seq<Receipt>, kept: seq<Receipt>, lost: set<Id>, hi: nat)
    requires o.tail == Others(kept, lost) && kept <= rs
    requires (forall k: nat :: k in o.archive <==> k < hi) && hi <= NextSeq(o.saved) + |o.tail|
    ensures Archive.RederivesArchived(o, rs) <==> NoLostArchived(o, rs, lost)
  {
    var n, t := NextSeq(o.saved), o.tail;
    OthersShorter(kept, lost);
    hide Others;
    if Archive.RederivesArchived(o, rs) {
      forall i | 0 <= i < |rs| && n + i in o.archive ensures rs[i].orderId !in lost {
        assert Archive.SameAt(rs, t, n + i - n);
        assert t[i] in t;
      }
    }
    if NoLostArchived(o, rs, lost) {
      var m: nat := if hi <= n then 0 else hi - n;
      forall i | 0 <= i < m ensures kept[i].orderId !in lost {
        assert n + i in o.archive && rs[i] == kept[i];
      }
      OthersPrefix(kept, lost, m);
      forall k: nat | k in o.archive && n <= k ensures Archive.SameAt(rs, t, k - n) {
        assert t[k - n] == kept[..m][k - n] == rs[k - n];
      }
    }
  }

  lemma SettledReceipts(w: World)
    ensures Receipts(Settled(w)) <= Receipts(Tail(w))
  {
    var t := Tail(w);
    hide Receipts, Tail;
    if !w.alive && t != [] {
      assert t == t[..|t| - 1] + [t[|t| - 1]];
      ReceiptsSnoc(t[..|t| - 1], t[|t| - 1]);
    }
  }

  lemma StoredWithin(s: Archive.LogState<Receipt>, hi: nat)
    requires Archive.Everywhere(s) && forall k: nat :: k in s.archive <==> k < hi
    ensures hi <= |s.history|
  {
    if hi > 0 {
      var k: nat := hi - 1;
      assert k in s.archive;
    }
  }

  /** At any moment of any sequenced run that retries nothing, its archived receipts being the log's so
      far: after a crash they still are if and only if none is archived, since the snapshot, at or after
      the place of an order whose entry was inserted and reported failed. */
  lemma ReceiptsComeBackIff(h: Hashes, book: Book, es: seq<Event>)
    requires Sequenced(Ops(h, book, es)) && Signed(Ops(h, book, es)) && NeverRetries(h, book, Ops(h, book, es))
    requires Archive.Fits(h.ofReceipt, OrderSteps(h, book, es)) && Archive.Everywhere(OrdersAt(h, book, es))
    requires NextSeq(OrdersAt(h, book, es).saved) + |Receipts(Tail(WorldAt(h, book, es)))| <= TWO_64
    ensures var w, o := WorldAt(h, book, es), OrdersAt(h, book, es);
            var rs := Receipts(Tail(w));
            Archive.Everywhere(Archive.Do(h.ofReceipt, o, Archive.Crash(rs))) <==> NoLostArchived(o, rs, w.trace.lost)
  {
    hide *;
    var w, o := WorldAt(h, book, es), OrdersAt(h, book, es);
    var rs := Receipts(Tail(w));
    LogsAre(h, book, es);
    LogsAreArchived(h, book, es);
    Unfold(book, w, o, MatchesAt(h, book, es));
    EveryRunMissing(h, book, Ops(h, book, es));
    MissingParts(w);
    SettledReceipts(w);
    var hi := Archive.ReachableInv(h.ofReceipt, OrderSteps(h, book, es));
    Archive.CrashEverywhereIff(h.ofReceipt, o, hi, rs);
    Archive.SavedLength(h.ofReceipt, o, hi);
    StoredWithin(o, hi);
    RederivesIff(o, rs, Receipts(Settled(w)), w.trace.lost, hi);
  }

  lemma MissingParts(w: World)
    requires Missing(w)
    ensures w.trace.covered <= |w.trace.acted.entries|
    ensures Receipts(w.trace.acted.entries[w.trace.covered..]) == Others(Receipts(Settled(w)), w.trace.lost)
  {
    hide Receipts, Others, Settled;
  }

  /** Every crash of the run finds no archived index at or after a lost order's. */
  ghost predicate CrashesClean(h: Hashes, book: Book, es: seq<Event>)
    decreases |es|
  {
    es == [] ||
    (var init, w := es[..|es| - 1], WorldAt(h, book, es[..|es| - 1]);
     && CrashesClean(h, book, init)
     && (es[|es| - 1].op.Crash? ==> NoLostArchived(OrdersAt(h, book, init), Receipts(Tail(w)), w.trace.lost)))
  }

  lemma RunPrefixes(h: Hashes, book: Book, ops: seq<Op>, op: Op)
    requires Sequenced(ops + [op]) && Signed(ops + [op]) && NeverRetries(h, book, ops + [op])
    ensures Sequenced(ops) && Signed(ops) && NeverRetries(h, book, ops)
  {
    var more := ops + [op];
    assert more[..|ops|] == ops;
    hide Run, Retries;
    forall i | 0 <= i < |ops| ensures !ops[i].AcceptNow? && SignedOp(ops[i]) { assert more[i] == ops[i]; }
  }

  lemma CrashStep(h: Hashes, book: Book, w: World, e: Event)
    ensures e.op.Crash? ==> OrderStep(h, book, w, OpOf(w, e), e.orders) == [Archive.Crash(Receipts(Tail(w)))]
    ensures !e.op.Crash? ==> Archive.NoCrash(OrderStep(h, book, w, OpOf(w, e), e.orders))
  {
    hide Do, Receipts, Tail;
  }

  lemma CrashFits(h: (nat, Id, Receipt) -> Id, steps: seq<Archive.Step<Receipt>>, again: seq<Receipt>)
    requires Archive.Fits(h, steps + [Archive.Crash(again)])
    ensures Archive.Fits(h, steps) && NextSeq(Archive.Run(h, steps).saved) + |again| <= TWO_64
  {
    hide *;
    Archive.FitsSnoc(h, steps, Archive.Crash(again));
    var hi := Archive.ReachableInv(h, steps);
    Archive.CrashLength(h, Archive.Run(h, steps), hi, again);
  }

  /** Over every sequenced run that retries nothing, with archiving failing anywhere: the archived receipts
      are the order log's throughout if and only if no crash comes while one is archived, since the
      snapshot, at or after the place of an order whose entry was inserted and reported failed. */
  lemma {:induction false} ReceiptArchiveIff(h: Hashes, book: Book, es: seq<Event>)
    requires Sequenced(Ops(h, book, es)) && Signed(Ops(h, book, es)) && NeverRetries(h, book, Ops(h, book, es))
    requires Archive.Fits(h.ofReceipt, OrderSteps(h, book, es))
    ensures Archive.AlwaysEverywhere(h.ofReceipt, OrderSteps(h, book, es)) <==> CrashesClean(h, book, es)
    decreases |es|
  {
    hide *;
    if es == [] {
      FreshClean(h, book);
    } else {
      var init, e := es[..|es| - 1], es[|es| - 1];
      var w, steps := WorldAt(h, book, init), OrderSteps(h, book, init);
      OpsLast(h, book, es);
      RunPrefixes(h, book, Ops(h, book, init), OpOf(w, e));
      CrashStep(h, book, w, e);
      CleanLast(h, book, es);
      LogsAre(h, book, init);
      if e.op.Crash? {
        var again := Receipts(Tail(w));
        CrashFits(h.ofReceipt, steps, again);
        ReceiptArchiveIff(h, book, init);
        Archive.AlwaysSnoc(h.ofReceipt, steps, Archive.Crash(again));
        if Archive.AlwaysEverywhere(h.ofReceipt, steps) { ReceiptsComeBackIff(h, book, init); }
      } else {
        Archive.AlwaysMore(h.ofReceipt, steps, OrderStep(h, book, w, OpOf(w, e), e.orders));
        ReceiptArchiveIff(h, book, init);
      }
    }
  }

  lemma FreshClean(h: Hashes, book: Book)
    ensures Archive.AlwaysEverywhere(h.ofReceipt, OrderSteps(h, book, [])) && CrashesClean(h, book, [])
  {
  }

  lemma CleanLast(h: Hashes, book: Book, es: seq<Event>)
    requires es != []
    ensures var init, w := es[..|es| - 1], WorldAt(h, book, es[..|es| - 1]);
            CrashesClean(h, book, es) <==>
            && CrashesClean(h, book, init)
            && (es[|es| - 1].op.Crash? ==> NoLostArchived(OrdersAt(h, book, init), Receipts(Tail(w)), w.trace.lost))
  {
    hide WorldAt, OrdersAt, NoLostArchived, Receipts, Tail;
  }

  // ---- A run that loses one ----

  /** An order is inserted and reported failed, another is accepted and its receipt archived, and the process
      dies before a snapshot is saved. */
  function LosingRun(l: Order, rl: Receipt, o: Order, r: Receipt, boot: nat -> u64): seq<Event> {
    var a := Archiving(0, 1, true);
    [Event(AcceptNow(l, rl, 0, Unflushed), a, a)] + [Event(AcceptNow(o, r, 0, Written), a, a)]
    + [Event(SnapshotCycle(0, 0, false, {}), a, a)] + [Event(Crash(boot, 0), a, a)]
  }

  lemma OpsSnoc(h: Hashes, book: Book, es: seq<Event>, e: Event)
    ensures var w := WorldAt(h, book, es);
            && WorldAt(h, book, es + [e]) == Do(h, book, w, OpOf(w, e))
            && OrderSteps(h, book, es + [e]) == OrderSteps(h, book, es) + OrderStep(h, book, w, OpOf(w, e), e.orders)
  {
    hide *;
    assert (es + [e])[..|es|] == es && (es + [e])[|es|] == e;
    OpsLast(h, book, es + [e]);
  }

  lemma OpsNone(h: Hashes, book: Book)
    ensures WorldAt(h, book, []) == Initial(book) && OrderSteps(h, book, []) == []
  {
  }

  lemma LostStep(h: Hashes, book: Book, w: World, l: Order, rl: Receipt, a: Archiving)
    requires w.alive
    ensures var op := AcceptNow(l, rl, 0, Unflushed);
            var w' := Do(h, book, w, op);
            && OrderStep(h, book, w, op, a) == [] && w'.alive && w'.saved == w.saved && w'.nextKey == w.nextKey + 1
            && w'.wal == w.wal + [Rec(w.nextKey, OrderAccepted(l, rl, None))]
  {
    hide CoreStep, Renewed, Receipts;
    var w' := Do(h, book, w, AcceptNow(l, rl, 0, Unflushed));
    assert w'.trace.acted == w.trace.acted;
    assert Since(w, w').entries == [];
    NoReceipts();
  }

  lemma TakenStep(h: Hashes, book: Book, w: World, o: Order, r: Receipt, a: Archiving)
    requires w.alive
    ensures var op := AcceptNow(o, r, 0, Written);
            var w' := Do(h, book, w, op);
            OrderStep(h, book, w, op, a) == [Archive.AppendStep(r)]
  {
    var op, e := AcceptNow(o, r, 0, Written), OrderAccepted(o, r, None);
    var w' := Do(h, book, w, op);
    hide CoreStep, Renewed;
    assert w'.trace.acted.entries == w.trace.acted.entries + [e];
    assert w'.trace.acted.clocks == w.trace.acted.clocks + [0];
    assert Since(w, w').entries == [e];
    OneReceipt(e);
  }

  lemma CycleStep(h: Hashes, book: Book, w: World, e: Event)
    requires w.alive && e.op == SnapshotCycle(0, 0, false, {})
    ensures var w' := Do(h, book, w, OpOf(w, e));
            && OrderStep(h, book, w, OpOf(w, e), e.orders)
               == [Archive.ArchiveCycle(e.orders.window, e.orders.writes, e.orders.flushed)]
            && w'.saved == w.saved && w'.wal == w.wal
  {
    hide KeepFrom, Trim;
  }

  lemma TwoReceipts(a: WalEntry, b: WalEntry)
    requires a.OrderAccepted? && b.OrderAccepted?
    ensures Receipts([] + [a] + [b]) == [a.receipt, b.receipt]
  {
    hide Receipts;
    NoReceipts();
    ReceiptsSnoc([], a);
    ReceiptsSnoc([] + [a], b);
    OneReceipt(a);
    OneReceipt(b);
  }

  lemma PlainOp(w: World, e: Event)
    requires !e.op.SnapshotCycle?
    ensures OpOf(w, e) == e.op
  {
  }

  lemma LosingStart(h: Hashes, book: Book, l: Order, rl: Receipt, o: Order, r: Receipt, e1: Event, e2: Event)
    requires e1.op == AcceptNow(l, rl, 0, Unflushed) && e2.op == AcceptNow(o, r, 0, Written)
    ensures var w := WorldAt(h, book, [e1] + [e2]);
            && w.alive && w.saved.None? && OrderSteps(h, book, [e1] + [e2]) == [Archive.AppendStep(r)]
            && w.wal == [] + [Rec(0, OrderAccepted(l, rl, None))] + [Rec(1, OrderAccepted(o, r, None))]
  {
    hide *;
    var start := Initial(book);
    OpsNone(h, book);
    InitialIs(book);
    OpsSnoc(h, book, [], e1);
    assert [] + [e1] == [e1];
    PlainOp(start, e1);
    LostStep(h, book, start, l, rl, e1.orders);
    var w := WorldAt(h, book, [e1]);
    OpsSnoc(h, book, [e1], e2);
    PlainOp(w, e2);
    TakenStep(h, book, w, o, r, e2.orders);
    AcceptedWorld(h, book, w, o, r);
  }

  lemma LosingEnd(h: Hashes, book: Book, es: seq<Event>, x: WalEntry, y: WalEntry, e3: Event, e4: Event)
    requires x.OrderAccepted? && y.OrderAccepted? && e3.op == SnapshotCycle(0, 0, false, {}) && e4.op.Crash?
    requires var w := WorldAt(h, book, es);
             w.alive && w.saved.None? && w.wal == [] + [Rec(0, x)] + [Rec(1, y)]
    ensures OrderSteps(h, book, es + [e3] + [e4]) ==
            OrderSteps(h, book, es)
            + [Archive.ArchiveCycle(e3.orders.window, e3.orders.writes, e3.orders.flushed)]
            + [Archive.Crash([x.receipt, y.receipt])]
  {
    hide *;
    OpsSnoc(h, book, es, e3);
    CycleStep(h, book, WorldAt(h, book, es), e3);
    OpsSnoc(h, book, es + [e3], e4);
    var w := WorldAt(h, book, es + [e3]);
    CrashStep(h, book, w, e4);
    NoSnapshotTail(w);
    AfterPair(Rec(0, x), Rec(1, y));
    TwoReceipts(x, y);
  }

  lemma LosingSteps(h: Hashes, book: Book, l: Order, rl: Receipt, o: Order, r: Receipt, boot: nat -> u64)
    ensures OrderSteps(h, book, LosingRun(l, rl, o, r, boot)) ==
            [Archive.AppendStep(r)] + [Archive.ArchiveCycle(0, 1, true)] + [Archive.Crash([rl, r])]
  {
    var a := Archiving(0, 1, true);
    var e1, e2 := Event(AcceptNow(l, rl, 0, Unflushed), a, a), Event(AcceptNow(o, r, 0, Written), a, a);
    var e3, e4 := Event(SnapshotCycle(0, 0, false, {}), a, a), Event(Crash(boot, 0), a, a);
    assert LosingRun(l, rl, o, r, boot) == [e1] + [e2] + [e3] + [e4];
    hide *;
    LosingStart(h, book, l, rl, o, r, e1, e2);
    LosingEnd(h, book, [e1] + [e2], OrderAccepted(l, rl, None), OrderAccepted(o, r, None), e3, e4);
  }

  /** The archived receipt is then at the place of the one reported failed. */
  lemma LostReceipt(h: Hashes, book: Book, l: Order, rl: Receipt, o: Order, r: Receipt, boot: nat -> u64)
    requires rl != r
    ensures !Archive.Everywhere(OrdersAt(h, book, LosingRun(l, rl, o, r, boot)))
  {
    hide *;
    LosingSteps(h, book, l, rl, o, r, boot);
    LogsAre(h, book, LosingRun(l, rl, o, r, boot));
    Archive.StaleArchive(h.ofReceipt, r, [rl, r]);
  }
}
