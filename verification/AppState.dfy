/** The node as it runs: the write-ahead log as an object, and the application state updated field by
    field, in loops, by the same operations live and at boot. */
module MutableNode {
  import opened Types
  import opened Engine
  import opened HashChain
  import opened Settlement
  import opened SettlementRuns
  import opened NodeState
  import opened Recovery
  import opened NodeRuns
  import Archive
  import Sequencer

  type Evidence = map<Id, Sequencer.Witness>

  class PersistenceLog {
    var entries: seq<Rec>
    var nextId: nat

    ghost predicate Valid()
      reads this
    {
      KeysOk(entries, nextId)
    }

    constructor ()
      ensures Valid() && entries == []
    {
      entries, nextId := [], 0;
    }

    /** Inserts, then flushes. Either may fail; if only the flush does, the entry is in the log all the
        same. */
    method AppendEntry(e: WalEntry, inserted: bool, flushed: bool) returns (ok: bool)
      requires Valid()
      modifies this
      ensures Valid() && ok == (inserted && flushed)
      ensures entries == if inserted then old(entries) + [Rec(old(nextId), e)] else old(entries)
    {
      var id := nextId;
      nextId := nextId + 1;
      if !inserted { return false; }
      entries := entries + [Rec(id, e)];
      ok := flushed;
    }

    /** Every entry after a sequence number, or all, in the order they were appended. */
    method Entries(after: Option<nat>) returns (es: seq<WalEntry>)
      ensures es == After(entries, after)
    {
      es := [];
      assert entries[..0] == [];
      for i := 0 to |entries|
        invariant es == After(entries[..i], after)
      {
        assert entries[..i + 1][..i] == entries[..i];
        if after.None? || entries[i].key > after.value {
          es := es + [entries[i].entry];
        }
      }
      assert entries[..|entries|] == entries;
    }

    /** The newest key: nothing is replayed after it. */
    method LatestSeq() returns (latest: Option<nat>)
      requires Valid()
      ensures latest.None? <==> entries == []
      ensures latest.Some? ==> After(entries, latest) == [] && exists r :: r in entries && r.key == latest.value
    {
      if entries == [] { return None; }
      var r := entries[|entries| - 1];
      NothingAfterLast(entries, nextId, r.key);
      assert r in entries;
      latest := Some(r.key);
    }

    /** Deletes covered entries from the front; may stop after `limit` of them. What is replayed after
        the covered sequence number does not change. */
    method TruncateUpTo(upTo: nat, limit: nat) returns (removed: nat)
      requires Valid()
      modifies this`entries
      ensures Valid()
      ensures After(entries, Some(upTo)) == After(old(entries), Some(upTo))
      ensures removed <= limit && removed <= |old(entries)| && entries == old(entries)[removed..]
      ensures removed < limit ==> forall i :: 0 <= i < |entries| ==> entries[i].key > upTo
    {
      removed := 0;
      assert entries[0..] == entries;
      while removed < limit && entries != [] && entries[0].key <= upTo
        invariant removed <= limit && removed <= |old(entries)| && entries == old(entries)[removed..]
        invariant After(entries, Some(upTo)) == After(old(entries), Some(upTo))
        decreases limit - removed
      {
        AfterTail(entries, upTo);
        entries := entries[1..];
        removed := removed + 1;
      }
    }
  }

  lemma {:induction false} AfterTail(recs: seq<Rec>, covers: nat)
    requires recs != [] && recs[0].key <= covers
    ensures After(recs[1..], Some(covers)) == After(recs, Some(covers))
  {
    if |recs| == 1 {
      assert recs[..0] == [] && recs[1..] == [];
    } else {
      var n := |recs| - 1;
      AfterTail(recs[..n], covers);
      assert recs[1..][..n - 1] == recs[..n][1..];
    }
  }

  class AppState {
    var book: Book
    var orderLog: Chain<Receipt>
    var matchLog: Chain<Match>
    var pending: map<Key, Match>
    var applied: set<Id>
    var hashes: map<Key, Id>
    var pool: Pool
    var buffer: seq<Id>
    var data: map<Id, Buffered>

    function View(): Node
      reads this
    {
      Node(Core(book, orderLog, matchLog, pending, applied), hashes, pool, buffer, data)
    }

    constructor (book: Book)
      ensures View() == NewNode(book)
    {
      this.book, orderLog, matchLog, pending, applied := book, EmptyChain(), EmptyChain(), map[], {};
      hashes, pool, buffer, data := map[], Pool(EMPTY_QUEUES, map[]), [], map[];
    }

    /** Applying an accepted order: the id, the order log, the book, then one match after another. */
    method ApplyAcceptedOrderLocally(h: Hashes, o: Order, r: Receipt, ts: Option<u64>,
        clock: u64) returns (matches: seq<Match>)
      modifies this
      ensures View() == old(View()).(core := CoreStep(h, old(View()).core, OrderAccepted(o, r, ts), clock))
      ensures matches == Add(old(book), o, if ts.Some? then ts.value else clock).matches
      ensures MatchedAt(matches, o.id, ts, clock)
    {
      AcceptedAt(book, o, ts, clock);
      hide Add, AppendAll, MatchedAt;
      applied := applied + {o.id};
      orderLog := Append(h.ofReceipt, orderLog, r);
      var added := Add(book, o, MatchTime(ts, clock));
      book, matches := added.book, added.matches;
      assert matches[..0] == [];
      Archive.NoneAppended(h.ofMatch, matchLog);
      for i := 0 to |matches|
        invariant matchLog == AppendAll(h.ofMatch, old(matchLog), matches[..i])
        invariant pending == AddPending(old(pending), matches[..i])
        invariant View() == old(View()).(core := Core(added.book, Append(h.ofReceipt, old(orderLog), r), matchLog,
            pending, old(applied) + {o.id}))
      {
        assert matches[..i + 1] == matches[..i] + [matches[i]] && matches[..i + 1][..i] == matches[..i];
        Archive.AppendAllSnoc(h.ofMatch, old(matchLog), matches[..i], matches[i]);
        matchLog := Append(h.ofMatch, matchLog, matches[i]);
        pending := pending[KeyOf(matches[i]) := matches[i]];
      }
      assert matches[..|matches|] == matches;
    }

    /** Write ahead, then apply; if the write is reported failed, nothing is applied, though its entry is
        in the log if it was inserted. */
    method ApplyAcceptedOrder(h: Hashes, log: PersistenceLog, o: Order, r: Receipt, ts: Option<u64>, clock: u64,
        inserted: bool, flushed: bool)
      returns (ok: bool)
      requires log.Valid()
      modifies this, log
      ensures log.Valid() && ok == (inserted && flushed)
      ensures View() == if ok then old(View()).(core := CoreStep(h, old(View()).core, OrderAccepted(o, r, ts), clock))
                        else old(View())
      ensures log.entries == if inserted then old(log.entries) + [Rec(old(log.nextId), OrderAccepted(o, r, ts))]
                             else old(log.entries)
    {
      hide CoreStep;
      ok := log.AppendEntry(OrderAccepted(o, r, ts), inserted, flushed);
      if ok {
        var _ := ApplyAcceptedOrderLocally(h, o, r, ts, clock);
      }
    }

    method QueueForSequencing(log: PersistenceLog, o: Order, r: Receipt, inserted: bool, flushed: bool)
      returns (ok: bool)
      requires log.Valid()
      modifies this, log
      ensures log.Valid() && ok == (inserted && flushed)
      ensures View() == if ok then old(View()).(buffer := old(buffer) + [o.id], data := old(data)[o.id := (o, r)])
                        else old(View())
      ensures log.entries == if inserted then old(log.entries) + [Rec(old(log.nextId), OrderQueued(o, r))]
                             else old(log.entries)
    {
      ok := log.AppendEntry(OrderQueued(o, r), inserted, flushed);
      if ok {
        buffer := buffer + [o.id];
        data := data[o.id := (o, r)];
      }
    }

    method ConfirmCommittedLocally(m: Match, tradeHash: Id)
      modifies this
      ensures View() == ConfirmLocally(old(View()), m, tradeHash)
    {
      hashes := hashes[KeyOf(m) := tradeHash];
      pool := Confirm(pool, m);
    }

    /** The match leaves the pending map first and returns to it if the write is reported failed. */
    method ConfirmCommitted(log: PersistenceLog, key: Key, tradeHash: Id, inserted: bool, flushed: bool)
      returns (ok: bool)
      requires log.Valid()
      modifies this, log
      ensures log.Valid() && (ok <==> key in old(pending) && inserted && flushed)
      ensures ok ==> key in old(pending) &&
                     View() == ConfirmLocally(old(View()).(core := old(View()).core.(pending := old(pending) - {key})),
                                              old(pending)[key], tradeHash)
      ensures !ok ==> View() == old(View())
      ensures key in old(pending) && inserted ==>
                log.entries == old(log.entries) + [Rec(old(log.nextId), CommitConfirmed(old(pending)[key], tradeHash))]
      ensures !(key in old(pending) && inserted) ==> log.entries == old(log.entries)
    {
      if key !in pending { return false; }
      var m := pending[key];
      pending := pending - {key};
      ok := log.AppendEntry(CommitConfirmed(m, tradeHash), inserted, flushed);
      if !ok {
        pending := pending[key := m];
        assert pending == old(pending);
        return;
      }
      ConfirmCommittedLocally(m, tradeHash);
    }

    /** A replayed confirmation found settled on-chain: out of the hashes and the queues, then
        checkpointed. */
    method MarkReconciledAsSettled(log: PersistenceLog, key: Key, inserted: bool, flushed: bool)
      requires log.Valid()
      modifies this, log
      ensures log.Valid()
      ensures View() == old(View()).(hashes := old(hashes) - {key},
                                     pool := old(pool).(queues := RetainPending(old(pool).queues, {key})))
      ensures log.entries == if inserted then old(log.entries) + [Rec(old(log.nextId), BatchSubmitted([key]))]
                             else old(log.entries)
    {
      hashes := hashes - {key};
      pool := pool.(queues := RetainPending(pool.queues, {key}));
      var _ := log.AppendEntry(BatchSubmitted([key]), inserted, flushed);
    }

    /** Boot: collect the settled keys, replay every entry, then queue what was never applied. */
    method ReplayPersistenceLog(h: Hashes, es: seq<WalEntry>, clocks: seq<u64>) returns (candidates: seq<Candidate>)
      requires |clocks| == |es|
      modifies this
      ensures View() == Replay(h, old(View()), es, clocks)
      ensures candidates == Candidates(es, SettledKeys(es))
    {
      var settled := CollectSettled(es);
      var queued;
      candidates, queued := ReplayEntries(h, es, clocks, settled);
      RequeueOrders(queued);
    }

    static method CollectSettled(es: seq<WalEntry>) returns (settled: set<Key>)
      ensures settled == SettledKeys(es)
    {
      settled := {};
      assert es[..0] == [];
      for i := 0 to |es|
        invariant settled == SettledKeys(es[..i])
      {
        assert es[..i + 1][..i] == es[..i];
        if es[i].BatchSubmitted? {
          settled := settled + set k | k in es[i].keys;
        }
      }
      assert es[..|es|] == es;
    }

    method ReplayEntries(h: Hashes, es: seq<WalEntry>, clocks: seq<u64>, settled: set<Key>)
      returns (candidates: seq<Candidate>, queued: seq<Buffered>)
      requires |clocks| == |es|
      modifies this
      ensures View() == ReplayFold(h, old(View()), es, clocks, settled)
      ensures candidates == Candidates(es, settled) && queued == QueuedOrders(es)
    {
      candidates, queued := [], [];
      assert es[..0] == [] && clocks[..0] == [];
      for i := 0 to |es|
        invariant View() == ReplayFold(h, old(View()), es[..i], clocks[..i], settled)
        invariant candidates == Candidates(es[..i], settled) && queued == QueuedOrders(es[..i])
      {
        assert es[..i + 1][..i] == es[..i] && clocks[..i + 1][..i] == clocks[..i];
        hide Accept, Confirm;
        match es[i]
        case OrderAccepted(o, r, ts) =>
          var _ := ApplyAcceptedOrderLocally(h, o, r, ts, clocks[i]);
        case CommitConfirmed(m, tradeHash) =>
          pending := pending - {KeyOf(m)};
          if KeyOf(m) !in settled {
            candidates := candidates + [(m, tradeHash)];
            ConfirmCommittedLocally(m, tradeHash);
          }
        case BatchSubmitted(_) =>
        case OrderQueued(o, r) =>
          queued := queued + [(o, r)];
      }
      assert es[..|es|] == es && clocks[..|es|] == clocks;
    }

    method RequeueOrders(queued: seq<Buffered>)
      modifies this
      ensures View() == Requeue(old(View()), queued)
    {
      assert queued[..0] == [];
      for i := 0 to |queued|
        invariant View() == Requeue(old(View()), queued[..i])
        invariant applied == old(applied)
      {
        assert queued[..i + 1][..i] == queued[..i];
        var q := queued[i];
        if q.0.id !in applied {
          buffer := buffer + [q.0.id];
          data := data[q.0.id := q];
        }
      }
      assert queued[..|queued|] == queued;
    }

    /** Overwrites the derived state with a snapshot and queues its trades one by one. */
    method RestoreSnapshot(s: Snapshot)
      modifies this
      ensures View() == ApplySnapshot(old(View()), s)
    {
      book := book.(bids := s.bids, asks := s.asks, cursor := s.cursor);
      orderLog, matchLog, pending, hashes, applied := s.orderLog, s.matchLog, s.pending, s.hashes, s.applied;
      assert s.queued[..0] == [];
      for i := 0 to |s.queued|
        invariant View() == ApplySnapshot(old(View()), s.(queued := s.queued[..i]))
      {
        assert s.queued[..i + 1][..i] == s.queued[..i];
        pool := pool.(queues := Enqueue(pool.queues, s.queued[i]));
      }
      assert s.queued[..|s.queued|] == s.queued;
    }

    /** Boot from the latest snapshot, if any, and the log after it. */
    method LoadPersistence(h: Hashes, log: PersistenceLog, saved: Option<Saved>,
        clock: nat -> u64) returns (candidates: seq<Candidate>)
      modifies this
      ensures var after := if saved.Some? then Some(saved.value.covers) else None;
              var es := After(log.entries, after);
              var base := if saved.Some? then ApplySnapshot(old(View()), saved.value.snapshot) else old(View());
              View() == Replay(h, base, es, Times(clock, |es|)) && candidates == Candidates(es, SettledKeys(es))
    {
      hide Replay, ApplySnapshot, After, Candidates;
      match saved
      case None =>
        var es := log.Entries(None);
        candidates := ReplayPersistenceLog(h, es, Times(clock, |es|));
      case Some(s) =>
        RestoreSnapshot(s.snapshot);
        var es := log.Entries(Some(s.covers));
        candidates := ReplayPersistenceLog(h, es, Times(clock, |es|));
    }

    /** One order of a resolved batch: skipped if its data is gone, dropped if its write is reported
        failed. */
    method ResolveNext(h: Hashes, log: PersistenceLog, id: Id, ts: Option<u64>, a: Attempt)
      requires log.Valid()
      modifies this, log
      ensures log.Valid() && View() == ResolveOne(h, old(View()), id, ts, a)
      ensures After(log.entries, None) == After(old(log.entries), None) + EntryOf(old(View()), id, ts, a)
    {
      hide CoreStep, After;
      if id in data {
        var (o, r) := data[id];
        AfterSnoc(log.entries, Rec(log.nextId, OrderAccepted(o, r, ts)), None);
        data := data - {id};
        var _ := ApplyAcceptedOrder(h, log, o, r, ts, a.clock, a.inserted, a.flushed);
      }
    }

    /** A resolved batch, order by order, each at the clock's reading then; an order without data is
        skipped, one whose write is reported failed is dropped. The log gains exactly the entries inserted,
        in order. */
    method ApplyResolvedBatch(h: Hashes, log: PersistenceLog, resolved: seq<Id>, evidence: Evidence,
        attempts: nat -> Attempt)
      requires log.Valid()
      modifies this, log
      ensures log.Valid()
      ensures View() == ResolveAll(h, old(View()), resolved, evidence, attempts)
      ensures After(log.entries, None) ==
              After(old(log.entries), None) + ResolvedEntries(h, old(View()), resolved, evidence, attempts)
    {
      hide After, ResolveOne, EntryOf;
      assert resolved[..0] == [];
      for i := 0 to |resolved|
        invariant log.Valid()
        invariant View() == ResolveAll(h, old(View()), resolved[..i], evidence, attempts)
        invariant After(log.entries, None) ==
                  After(old(log.entries), None) + ResolvedEntries(h, old(View()), resolved[..i], evidence, attempts)
      {
        assert resolved[..i + 1] == resolved[..i] + [resolved[i]];
        hide ResolveAll, ResolvedEntries;
        ResolvedSnoc(h, old(View()), resolved[..i], resolved[i], evidence, attempts);
        ResolveNext(h, log, resolved[i], EvidenceTime(evidence, resolved[i]), attempts(i));
      }
      assert resolved[..|resolved|] == resolved;
    }
  }

  /** Milliseconds as whole microseconds, out-of-range values held to the ends of the range. */
  function Micros(ms: real): u64 {
    var us := ms * 1000.0;
    if us < 0.0 then 0 else if us >= TWO_64 as real then TWO_64 - 1 else us.Floor
  }

  /** The match time shared by all nodes with this evidence; without evidence there is none. */
  function EvidenceTime(evidence: Evidence, id: Id): Option<u64> {
    if id in evidence then Some(Micros(evidence[id].timeMs)) else None
  }

  /** One order's turn: the wall clock, and whether the insert and the flush of its entry succeed. */
  datatype Attempt = Attempt(clock: u64, inserted: bool, flushed: bool)

  function ResolveOne(h: Hashes, n: Node, id: Id, ts: Option<u64>, a: Attempt): Node {
    if id !in n.data then n
    else
      var (o, r) := n.data[id];
      var taken := n.(data := n.data - {id});
      if a.inserted && a.flushed then taken.(core := CoreStep(h, taken.core, OrderAccepted(o, r, ts),
          a.clock)) else taken
  }

  /** The entry an order's turn leaves in the log, if any. */
  function EntryOf(n: Node, id: Id, ts: Option<u64>, a: Attempt): seq<WalEntry> {
    if id in n.data && a.inserted then [OrderAccepted(n.data[id].0, n.data[id].1, ts)] else []
  }

  function ResolveAll(h: Hashes, n: Node, ids: seq<Id>, evidence: Evidence, attempts: nat -> Attempt): Node
    decreases |ids|
  {
    if ids == [] then n
    else
      var i := |ids| - 1;
      ResolveOne(h, ResolveAll(h, n, ids[..i], evidence, attempts), ids[i], EvidenceTime(evidence, ids[i]), attempts(i))
  }

  function ResolvedEntries(h: Hashes, n: Node, ids: seq<Id>, evidence: Evidence, attempts: nat -> Attempt):
      seq<WalEntry>
    decreases |ids|
  {
    if ids == [] then []
    else
      var i := |ids| - 1;
      ResolvedEntries(h, n, ids[..i], evidence, attempts)
      + EntryOf(ResolveAll(h, n, ids[..i], evidence, attempts), ids[i], EvidenceTime(evidence, ids[i]), attempts(i))
  }

  lemma ResolvedSnoc(h: Hashes, n: Node, ids: seq<Id>, id: Id, evidence: Evidence, attempts: nat -> Attempt)
    ensures var n' := ResolveAll(h, n, ids, evidence, attempts);
            var ts, a := EvidenceTime(evidence, id), attempts(|ids|);
            && ResolveAll(h, n, ids + [id], evidence, attempts) == ResolveOne(h, n', id, ts, a)
            && ResolvedEntries(h, n, ids + [id], evidence, attempts) ==
               ResolvedEntries(h, n, ids, evidence, attempts) + EntryOf(n', id, ts, a)
  {
    hide ResolveOne, EntryOf;
    assert (ids + [id])[..|ids|] == ids;
  }

  // ---- What a batch logs ----

  /** The evidence's time to the microsecond, if there is evidence. */
  ghost predicate Clocked(recorded: Option<u64>, evidence: Evidence, id: Id) {
    && (recorded.Some? <==> id in evidence)
    && (recorded.Some? ==>
          var us, t := evidence[id].timeMs * 1000.0, recorded.value as real;
          && (us < 0.0 ==> t == 0.0)
          && (0.0 <= us < 18446744073709551616.0 ==> t <= us < t + 1.0)
          && (us >= 18446744073709551616.0 ==> t == 18446744073709551615.0))
  }

  lemma EvidenceIsClocked(evidence: Evidence, id: Id)
    ensures Clocked(EvidenceTime(evidence, id), evidence, id)
  {
  }

  /** The turns that log: the first turn of an id whose order is held, if its entry is inserted. */
  function Turns(n: Node, ids: seq<Id>, attempts: nat -> Attempt): set<nat> {
    set j: nat | j < |ids| && ids[j] in n.data && ids[j] !in ids[..j] && attempts(j).inserted
  }

  ghost predicate EntriesFor(es: seq<WalEntry>, done: seq<Id>, n: Node, evidence: Evidence) {
    && |es| == |done|
    && forall i :: 0 <= i < |es| ==> EntryFor(es[i], done[i], n, evidence)
  }

  ghost predicate EntryFor(e: WalEntry, id: Id, n: Node, evidence: Evidence) {
    && id in n.data && e.OrderAccepted? && (e.order, e.receipt) == n.data[id]
    && Clocked(e.matchTimestampUs, evidence, id)
  }

  lemma {:induction false} DataAfter(h: Hashes, n: Node, ids: seq<Id>, evidence: Evidence, attempts: nat -> Attempt,
      id: Id)
    ensures var data := ResolveAll(h, n, ids, evidence, attempts).data;
            (id in data <==> id in n.data && id !in ids) && (id in data ==> data[id] == n.data[id])
    decreases |ids|
  {
    if ids != [] {
      DataAfter(h, n, ids[..|ids| - 1], evidence, attempts, id);
      assert ids == ids[..|ids| - 1] + [ids[|ids| - 1]];
      hide CoreStep;
    }
  }

  lemma {:induction false} EntriesUpTo(h: Hashes, n: Node, ids: seq<Id>, k: nat, evidence: Evidence,
      attempts: nat -> Attempt) returns (done: seq<Id>)
    requires k <= |ids|
    ensures Filters(done, ids[..k], Turns(n, ids, attempts))
    ensures EntriesFor(ResolvedEntries(h, n, ids[..k], evidence, attempts), done, n, evidence)
  {
    hide Filters, ResolveAll, ResolveOne, EntryOf, EntryFor, EvidenceTime;
    if k == 0 {
      done := ids[..0];
      FiltersNone(done, Turns(n, ids, attempts));
    } else {
      var init, id := ids[..k - 1], ids[k - 1];
      done := EntriesUpTo(h, n, ids, k - 1, evidence, attempts);
      assert ids[..k] == init + [id];
      hide ResolvedEntries, EntriesFor;
      FiltersNext(done, init, Turns(n, ids, attempts), id);
      ResolvedSnoc(h, n, init, id, evidence, attempts);
      TurnLogs(h, n, init, id, evidence, attempts);
      assert k - 1 in Turns(n, ids, attempts) <==> id in n.data && id !in init && attempts(|init|).inserted;
      var es := ResolvedEntries(h, n, init, evidence, attempts);
      if k - 1 in Turns(n, ids, attempts) {
        EntriesSnoc(es, done, EntryOf(ResolveAll(h, n, init, evidence, attempts), id, EvidenceTime(evidence, id),
            attempts(|init|))[0], id, n, evidence);
        done := done + [id];
      } else {
        assert es + [] == es;
      }
    }
  }

  lemma TurnLogs(h: Hashes, n: Node, init: seq<Id>, id: Id, evidence: Evidence, attempts: nat -> Attempt)
    ensures var es := EntryOf(ResolveAll(h, n, init, evidence, attempts), id, EvidenceTime(evidence, id),
                attempts(|init|));
            if id in n.data && id !in init && attempts(|init|).inserted
            then |es| == 1 && es == [es[0]] && EntryFor(es[0], id, n, evidence) else es == []
  {
    hide ResolveAll;
    DataAfter(h, n, init, evidence, attempts, id);
    EvidenceIsClocked(evidence, id);
    hide Clocked;
  }

  lemma EntriesSnoc(es: seq<WalEntry>, done: seq<Id>, e: WalEntry, id: Id, n: Node, evidence: Evidence)
    requires EntriesFor(es, done, n, evidence) && EntryFor(e, id, n, evidence)
    ensures EntriesFor(es + [e], done + [id], n, evidence)
  {
    hide EntryFor;
  }

  /** A resolved batch logs exactly one acceptance for each order it holds, in the batch's order, except
      those whose insert failed; each carries the order's own receipt and the evidence's time. */
  lemma BatchEntries(h: Hashes, n: Node, ids: seq<Id>, evidence: Evidence, attempts: nat -> Attempt)
    returns (done: seq<Id>)
    ensures Filters(done, ids, Turns(n, ids, attempts))
    ensures EntriesFor(ResolvedEntries(h, n, ids, evidence, attempts), done, n, evidence)
  {
    done := EntriesUpTo(h, n, ids, |ids|, evidence, attempts);
    assert ids[..|ids|] == ids;
  }

  // ---- A batch is a run of single steps ----

  function Outcome(a: Attempt): Write {
    if !a.inserted then WriteFailed else if a.flushed then Written else Unflushed
  }

  function OpFor(id: Id, evidence: Evidence, a: Attempt): Op {
    ApplyNext(EvidenceTime(evidence, id), a.clock, Outcome(a))
  }

  function ApplyOps(ids: seq<Id>, evidence: Evidence, attempts: nat -> Attempt): (ops: seq<Op>)
    ensures |ops| == |ids|
  {
    seq(|ids|, i requires 0 <= i < |ids| => OpFor(ids[i], evidence, attempts(i)))
  }

  function DoAll(h: Hashes, book: Book, w: World, ops: seq<Op>): World
    decreases |ops|
  {
    if ops == [] then w else NodeRuns.Do(h, book, DoAll(h, book, w, ops[..|ops| - 1]), ops[|ops| - 1])
  }

  lemma StepIsResolve(h: Hashes, book: Book, w: World, ts: Option<u64>, a: Attempt)
    requires w.alive && w.inflight != []
    ensures var w' := NodeRuns.Do(h, book, w, ApplyNext(ts, a.clock, Outcome(a)));
            && w'.node == ResolveOne(h, w.node, w.inflight[0], ts, a)
            && w'.trace.logged.entries == w.trace.logged.entries + EntryOf(w.node, w.inflight[0], ts, a)
            && w'.inflight == w.inflight[1..] && w'.alive
  {
    hide CoreStep, Renewed;
    assert w.trace.logged.entries + [] == w.trace.logged.entries;
  }

  lemma BatchSnoc(h: Hashes, book: Book, w: World, ids: seq<Id>, id: Id, evidence: Evidence,
      attempts: nat -> Attempt)
    ensures DoAll(h, book, w, ApplyOps(ids + [id], evidence, attempts)) ==
            NodeRuns.Do(h, book, DoAll(h, book, w, ApplyOps(ids, evidence, attempts)), OpFor(id, evidence,
                attempts(|ids|)))
  {
    hide NodeRuns.Do;
    var ops := ApplyOps(ids + [id], evidence, attempts);
    assert (ids + [id])[..|ids|] == ids;
    assert ops[..|ids|] == ApplyOps(ids, evidence, attempts);
    assert ops[|ids|] == OpFor(id, evidence, attempts(|ids|));
  }

  /** Applying a batch in one go is applying the batch in flight order by order, as the run theorems take
      it: the same node and the same entries logged. */
  lemma {:induction false} BatchIsSteps(h: Hashes, book: Book, w: World, ids: seq<Id>, rest: seq<Id>,
                                        evidence: Evidence, attempts: nat -> Attempt)
    requires w.alive && w.inflight == ids + rest
    ensures var w' := DoAll(h, book, w, ApplyOps(ids, evidence, attempts));
            && w'.node == ResolveAll(h, w.node, ids, evidence, attempts)
            && w'.trace.logged.entries == w.trace.logged.entries + ResolvedEntries(h, w.node, ids, evidence, attempts)
            && w'.inflight == rest && w'.alive
    decreases |ids|
  {
    if ids == [] {
      assert ids + rest == rest;
    } else {
      var init, id := SplitLast(ids);
      ConcatAssociates(init, [id], rest);
      BatchIsSteps(h, book, w, init, [id] + rest, evidence, attempts);
      hide DoAll, ApplyOps, ResolveAll, ResolvedEntries, ResolveOne, EntryOf, NodeRuns.Do;
      BatchSnoc(h, book, w, init, id, evidence, attempts);
      ResolvedSnoc(h, w.node, init, id, evidence, attempts);
      StepIsResolve(h, book, DoAll(h, book, w, ApplyOps(init, evidence, attempts)), EvidenceTime(evidence, id),
          attempts(|init|));
      assert ([id] + rest)[1..] == rest;
    }
  }
}
