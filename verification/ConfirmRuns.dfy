/** The order of log entries over whole runs: a confirmation follows the order it confirms, and a
    checkpoint follows the confirmations it settles. What this says about match keys. */
module ConfirmRuns {
  import opened Types
  import opened Engine
  import opened NodeState
  import opened Recovery
  import opened RecoveryTheorems
  import opened NodeRuns
  import opened FailedWrites
  import opened Pipeline
  import HashChain
  import SettlementRuns

  // ---- Every run logs in this order ----

  /** Each confirmation's taker was accepted before, each checkpointed trade confirmed before. */
  ghost predicate Follows(es: seq<WalEntry>) {
    es == [] || (Follows(es[..|es| - 1]) && FollowsNext(es[..|es| - 1], es[|es| - 1]))
  }

  ghost predicate FollowsNext(es: seq<WalEntry>, e: WalEntry) {
    && (e.CommitConfirmed? ==> e.m.takerId in AcceptedSet(es))
    && (e.BatchSubmitted? ==> forall k :: k in e.keys ==> k in ConfirmKeys(es))
  }

  ghost predicate BothFollow(w: World) {
    Follows(w.trace.logged.entries) && Follows(w.trace.acted.entries)
  }

  lemma FollowsSnoc(es: seq<WalEntry>, e: WalEntry)
    requires Follows(es) && FollowsNext(es, e)
    ensures Follows(es + [e])
  {
    assert (es + [e])[..|es|] == es;
  }

  /** What the node acted on, the log holds. */
  lemma LogFollows(w: World, e: WalEntry)
    requires Behind(w) && FollowsNext(w.trace.acted.entries, e)
    ensures FollowsNext(w.trace.logged.entries, e)
  {
    hide AcceptedSet, ConfirmKeys, SettledKeys;
  }

  lemma DurablyFollows(h: Hashes, book: Book, w: World, e: WalEntry, clock: u64, write: Write, acted: Node,
      failed: Node)
    requires BothFollow(w) && Apart(h, book, w) && w.alive && FollowsNext(w.trace.acted.entries, e)
    ensures BothFollow(Durably(w, e, clock, write, acted, failed))
  {
    hide Follows, FollowsNext, Behind, Lacks, Fewer, Renewed;
    LogFollows(w, e);
    FollowsSnoc(w.trace.logged.entries, e);
    FollowsSnoc(w.trace.acted.entries, e);
  }

  ghost predicate TakersIn(keys: set<Key>, ids: set<Id>) {
    forall k :: k in keys ==> k.1 in ids
  }

  lemma {:induction false} AddPendingKeys(pending: map<Key, Match>, ms: seq<Match>, k: Key)
    requires k in AddPending(pending, ms)
    ensures k in pending || exists i :: 0 <= i < |ms| && KeyOf(ms[i]) == k
  {
    if ms != [] && k != KeyOf(ms[|ms| - 1]) {
      AddPendingKeys(pending, ms[..|ms| - 1], k);
      if k !in pending {
        var i :| 0 <= i < |ms| - 1 && KeyOf(ms[..|ms| - 1][i]) == k;
        assert ms[i] == ms[..|ms| - 1][i];
      }
    }
  }

  lemma AcceptKeys(h: Hashes, c: Core, o: Order, r: Receipt, t: u64, k: Key)
    requires k in Accept(h, c, o, r, t).pending
    ensures k in c.pending || k.1 == o.id
  {
    var ms := Add(c.book, o, t).matches;
    assert forall i :: 0 <= i < |ms| ==> ms[i].takerId == o.id;
    hide Add, AddPending, HashChain.Append, HashChain.AppendAll;
    AddPendingKeys(c.pending, ms, k);
  }

  /** The taker of a pending match was accepted. */
  lemma {:induction false} PendingTakers(h: Hashes, book: Book, es: seq<WalEntry>, clocks: seq<u64>)
    requires |clocks| == |es|
    ensures TakersIn(FoldCore(h, NewCore(book), es, clocks).pending.Keys, AcceptedSet(es))
    decreases |es|
  {
    if es != [] {
      var i := |es| - 1;
      var init, e := es[..i], es[i];
      PendingTakers(h, book, init, clocks[..i]);
      FoldLast(h, NewCore(book), es, clocks);
      var c, c' := FoldCore(h, NewCore(book), init, clocks[..i]), FoldCore(h, NewCore(book), es, clocks);
      assert AcceptedSet(es) == AcceptedSet(init) + (if e.OrderAccepted? then {e.order.id} else {});
      hide FoldCore, Accept, AcceptedSet;
      forall k | k in c'.pending ensures k.1 in AcceptedSet(es) {
        if e.OrderAccepted? { AcceptKeys(h, c, e.order, e.receipt, MatchTime(e.matchTimestampUs, clocks[i]), k); }
      }
    }
  }

  lemma LiveTakers(h: Hashes, book: Book, w: World)
    requires Simulates(h, book, w, false) && w.alive
    ensures TakersIn(w.node.core.pending.Keys, AcceptedSet(w.trace.acted.entries))
  {
    LiveBook(h, book, w);
    PendingTakers(h, book, w.trace.acted.entries, w.trace.acted.clocks);
    hide FoldCore, Simulates, AcceptedSet;
  }

  lemma ConfirmFollows(h: Hashes, book: Book, w: World, key: Key, tradeHash: Id, write: Write)
    requires Simulates(h, book, w, false) && Apart(h, book, w) && BothFollow(w) && w.alive
    ensures BothFollow(ConfirmPending(w, key, tradeHash, write))
  {
    var n := w.node;
    if key in n.core.pending {
      LiveKeyed(h, book, w, false);
      LiveTakers(h, book, w);
      var m := n.core.pending[key];
      var core := n.core.(pending := n.core.pending - {key});
      hide Simulates, Apart, BothFollow, Durably, SettlementRuns.Confirm, AcceptedSet;
      DurablyFollows(h, book, w, CommitConfirmed(m, tradeHash), 0, write, ConfirmLocally(n.(core := core), m,
          tradeHash), n);
    }
  }

  lemma HeadFollows(h: Hashes, book: Book, w: World, ts: Option<u64>, clock: u64, write: Write)
    requires Apart(h, book, w) && BothFollow(w) && w.alive && w.inflight != []
    ensures BothFollow(ApplyHead(h, w, ts, clock, write))
  {
    var w' := w.(inflight := w.inflight[1..]);
    SameApart(h, book, w, w');
    assert BothFollow(w');
    hide Apart, BothFollow, Durably, CoreStep, AcceptedSet, ConfirmKeys;
    var id := w.inflight[0];
    if id in w.node.data {
      var (o, r) := w.node.data[id];
      var taken := w.node.(data := w.node.data - {id});
      var e := OrderAccepted(o, r, ts);
      DurablyFollows(h, book, w', e, clock, write, taken.(core := CoreStep(h, taken.core, e, clock)), taken);
    }
  }

  lemma IntakeFollows(h: Hashes, book: Book, w: World, o: Order, r: Receipt, write: Write)
    requires Apart(h, book, w) && BothFollow(w) && w.alive
    ensures BothFollow(Intake(w, o, r, write))
  {
    hide Apart, BothFollow, Durably, AcceptedSet, ConfirmKeys;
    var n := w.node;
    if o.id !in n.data && o.id !in n.core.applied {
      DurablyFollows(h, book, w, OrderQueued(o, r), 0, write, n.(buffer := n.buffer + [o.id],
          data := n.data[o.id := (o, r)]), n);
    }
  }

  lemma CheckpointFollows(h: Hashes, book: Book, w: World, write: Write)
    requires Apart(h, book, w) && Recorded(w) && BothFollow(w) && w.alive
    ensures BothFollow(Checkpoint(w, write))
  {
    var w' := w.(settler := w.settler.(stage := Idle));
    SameApart(h, book, w, w');
    assert BothFollow(w');
    if w.settler.stage.Landed? {
      var keys := w.settler.stage.keys;
      assert FollowsNext(w.trace.acted.entries, BatchSubmitted(keys));
      hide Apart, BothFollow, Durably, FollowsNext;
      DurablyFollows(h, book, w', BatchSubmitted(keys), 0, write, w.node, w.node);
    }
  }

  lemma StepFollows(h: Hashes, book: Book, w: World, op: Op)
    requires Simulates(h, book, w, false) && Apart(h, book, w) && Recorded(w) && BothFollow(w)
    ensures BothFollow(Do(h, book, w, op))
  {
    var n := w.node;
    if MemoryOp(op) { MemoryStep(h, book, w, op); }
    hide Simulates, Apart, Recorded, Follows, CoreStep, Recover, Trim, Intake, ConfirmPending, Durably, ApplyHead,
         Truncate, BuildSnapshot, Process, PrepareChunk, Submit, Checkpoint, Reconcile, Candidates, SettledKeys,
             AcceptedSet,
         ConfirmKeys;
    if w.alive && !op.Crash? && !MemoryOp(op) {
      match op
      case Queue(o, r, write) => IntakeFollows(h, book, w, o, r, write);
      case AcceptNow(o, r, clock, write) =>
        var e := OrderAccepted(o, r, None);
        DurablyFollows(h, book, w, e, clock, write, n.(core := CoreStep(h, n.core, e, clock)), n);
      case ApplyNext(ts, clock, write) => if w.inflight != [] { HeadFollows(h, book, w, ts, clock, write); }
      case ConfirmOp(key, tradeHash, write) => ConfirmFollows(h, book, w, key, tradeHash, write);
      case CheckpointOp(write) => CheckpointFollows(h, book, w, write);
      case SnapshotCycle(_, _, _, _) =>
    }
  }

  /** In every run, with any failed writes, snapshots and crashes, no checkpoint is written before the
      confirmations it settles, nor a confirmation before its order. */
  lemma {:induction false} EveryRunFollows(h: Hashes, book: Book, ops: seq<Op>)
    ensures BothFollow(Run(h, book, ops))
    decreases |ops|
  {
    if ops != [] {
      hide Do, BothFollow, Apart, Recorded, Simulates;
      EveryRunFollows(h, book, ops[..|ops| - 1]);
      EveryRunSimulates(h, book, ops[..|ops| - 1], false);
      EveryRunApart(h, book, ops[..|ops| - 1]);
      EveryRunRecorded(h, book, ops[..|ops| - 1]);
      StepFollows(h, book, Run(h, book, ops[..|ops| - 1]), ops[|ops| - 1]);
    }
  }

  // ---- Keys carry the taker's id, so distinct orders make distinct keys ----

  ghost predicate Distinct(ids: seq<Id>) {
    forall i, j :: 0 <= i < j < |ids| ==> ids[i] != ids[j]
  }

  lemma DistinctIdsSnoc(ids: seq<Id>, id: Id)
    ensures Distinct(ids + [id]) <==> Distinct(ids) && id !in ids
  {
    var more := ids + [id];
    assert forall i :: 0 <= i < |ids| ==> more[i] == ids[i];
    assert more[|ids|] == id;
    if Distinct(more) {
      forall i, j | 0 <= i < j < |ids| ensures ids[i] != ids[j] { assert more[i] != more[j]; }
    }
  }

  lemma {:induction false} AcceptedMember(es: seq<WalEntry>, id: Id)
    ensures id in AcceptedIds(es) <==> id in AcceptedSet(es)
  {
    if es != [] { AcceptedMember(es[..|es| - 1], id); }
  }

  /** One more entry keeps the accepted ids distinct exactly if it accepts no id again. */
  lemma DistinctNext(es: seq<WalEntry>, e: WalEntry)
    ensures Distinct(AcceptedIds(es + [e]))
            <==> Distinct(AcceptedIds(es)) && (e.OrderAccepted? ==> e.order.id !in AcceptedSet(es))
  {
    hide AcceptedIds, AcceptedSet, Distinct;
    AcceptedSnoc(es, e);
    if e.OrderAccepted? {
      AcceptedMember(es, e.order.id);
      DistinctIdsSnoc(AcceptedIds(es), e.order.id);
    } else {
      assert AcceptedIds(es) + [] == AcceptedIds(es);
    }
  }

  /** What a log with distinct accepted ids guarantees about keys. */
  ghost predicate KeysOnce(es: seq<WalEntry>, pending: set<Key>) {
    && TakersIn(pending, AcceptedSet(es)) && TakersIn(ConfirmKeys(es), AcceptedSet(es))
    && pending !! ConfirmKeys(es)
    && SettledKeys(es) <= ConfirmKeys(es)
  }

  lemma NextKeysOnce(h: Hashes, c: Core, es: seq<WalEntry>, e: WalEntry, clock: u64)
    requires KeysOnce(es, c.pending.Keys) && FollowsNext(es, e)
    requires e.OrderAccepted? ==> e.order.id !in AcceptedSet(es)
    ensures KeysOnce(es + [e], CoreStep(h, c, e, clock).pending.Keys)
  {
    EntrySnoc(es, e);
    hide ConfirmKeys, AcceptedSet, AcceptedIds, SettledKeys, Accept;
    var c' := CoreStep(h, c, e, clock);
    forall k | k in c'.pending ensures k.1 in AcceptedSet(es + [e]) && k !in ConfirmKeys(es + [e]) {
      if e.OrderAccepted? { AcceptKeys(h, c, e.order, e.receipt, MatchTime(e.matchTimestampUs, clock), k); }
    }
  }

  /** Distinct accepted ids keep pending and confirmed keys apart. */
  lemma {:induction false} DistinctKeysOnce(h: Hashes, book: Book, es: seq<WalEntry>, clocks: seq<u64>)
    requires |clocks| == |es| && Follows(es) && Distinct(AcceptedIds(es))
    ensures KeysOnce(es, FoldCore(h, NewCore(book), es, clocks).pending.Keys)
    decreases |es|
  {
    if es != [] {
      var i := |es| - 1;
      var init, e := es[..i], es[i];
      assert es == init + [e];
      FoldLast(h, NewCore(book), es, clocks);
      hide FoldCore, CoreStep, AcceptedIds, Distinct, KeysOnce, FollowsNext, AcceptedSet;
      DistinctNext(init, e);
      DistinctKeysOnce(h, book, init, clocks[..i]);
      NextKeysOnce(h, FoldCore(h, NewCore(book), init, clocks[..i]), init, e, clocks[i]);
    }
  }

  lemma {:induction false} FollowsPrefix(es: seq<WalEntry>, n: nat)
    requires Follows(es) && n <= |es|
    ensures Follows(es[..n])
    decreases |es|
  {
    if n == |es| {
      assert es[..n] == es;
    } else {
      var i := |es| - 1;
      FollowsPrefix(es[..i], n);
      assert es[..i][..n] == es[..n];
    }
  }

  lemma {:induction false} FollowsSettled(es: seq<WalEntry>)
    requires Follows(es)
    ensures SettledKeys(es) <= ConfirmKeys(es)
  {
    if es != [] { FollowsSettled(es[..|es| - 1]); }
  }

  /** A match confirmed once is confirmed on one side of any split. */
  lemma OnceSplits(es: seq<WalEntry>, n: nat)
    requires ConfirmedOnce(es) && n <= |es|
    ensures ConfirmKeys(es[..n]) !! ConfirmKeys(es[n..])
    ensures ConfirmedOnce(es[..n]) && ConfirmedOnce(es[n..])
  {
    var p, q := es[..n], es[n..];
    hide ConfirmKeys;
    forall k | k in ConfirmKeys(q) ensures k !in ConfirmKeys(p) {
      var j := ConfirmKeyEntry(q, k);
      assert es[n + j] == q[j];
      if k in ConfirmKeys(p) {
        var i := ConfirmKeyEntry(p, k);
        assert false;
      }
    }
  }

  /** When no match is confirmed twice, a checkpoint before any split never names a trade confirmed
      after it. */
  lemma SplitsSettledAfterConfirmed(es: seq<WalEntry>, n: nat)
    requires Follows(es) && ConfirmedOnce(es) && n <= |es|
    ensures SettledAfterConfirmed(es[..n], es[n..])
  {
    hide Follows, ConfirmKeys, SettledKeys, ConfirmedOnce;
    FollowsPrefix(es, n);
    FollowsSettled(es[..n]);
    OnceSplits(es, n);
  }

  lemma ConfirmEntryKey(es: seq<WalEntry>, i: nat)
    requires i < |es| && es[i].CommitConfirmed?
    ensures KeyOf(es[i].m) in ConfirmKeys(es)
  {
    ConfirmKeyIff(es, KeyOf(es[i].m));
  }

  /** One more entry keeps every match confirmed once exactly if it confirms none again. */
  lemma ConfirmedOnceNext(es: seq<WalEntry>, e: WalEntry)
    ensures ConfirmedOnce(es + [e])
            <==> ConfirmedOnce(es) && (e.CommitConfirmed? ==> KeyOf(e.m) !in ConfirmKeys(es))
  {
    hide ConfirmKeys;
    var more := es + [e];
    assert more[|es|] == e && forall i :: 0 <= i < |es| ==> more[i] == es[i];
    if ConfirmedOnce(es) && (e.CommitConfirmed? ==> KeyOf(e.m) !in ConfirmKeys(es)) {
      forall i, j | 0 <= i < j < |more| && more[i].CommitConfirmed? && more[j].CommitConfirmed?
        ensures KeyOf(more[i].m) != KeyOf(more[j].m)
      {
        if j == |es| { ConfirmEntryKey(es, i); }
      }
    }
    if ConfirmedOnce(more) {
      forall i, j | 0 <= i < j < |es| && es[i].CommitConfirmed? && es[j].CommitConfirmed?
        ensures KeyOf(es[i].m) != KeyOf(es[j].m)
      {
        assert more[i] == es[i] && more[j] == es[j];
      }
      if e.CommitConfirmed? && KeyOf(e.m) in ConfirmKeys(es) {
        var i := ConfirmKeyEntry(es, KeyOf(e.m));
        assert false;
      }
    }
  }
}
