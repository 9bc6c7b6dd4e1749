/** A node over its whole life: operations that write ahead and then act, the settlement loop, snapshots
    with partial truncation, and crashes at any point. Whatever happens, recovery rebuilds what the log
    determines. */
module NodeRuns {
  import opened Types
  import opened Engine
  import opened HashChain
  import opened Settlement
  import opened SettlementRuns
  import opened SettlementLoop
  import opened NodeState
  import opened Recovery
  import opened RecoveryTheorems
  import BookTheorems
  import Batcher

  // ---- The log on disk ----

  datatype Rec = Rec(key: nat, entry: WalEntry)

  datatype Saved = Saved(snapshot: Snapshot, covers: nat)

  /** The entries with a key above `covers`, or all of them. */
  function After(recs: seq<Rec>, covers: Option<nat>): seq<WalEntry> {
    if recs == [] then []
    else
      var r := recs[|recs| - 1];
      After(recs[..|recs| - 1], covers) + (if covers.None? || r.key > covers.value then [r.entry] else [])
  }

  /** Deleting covered entries; `removed` says which deletions happened. */
  function Truncate(recs: seq<Rec>, covers: nat, removed: set<nat>): seq<Rec> {
    if recs == [] then []
    else
      var r := recs[|recs| - 1];
      Truncate(recs[..|recs| - 1], covers, removed) + (if r.key <= covers && r.key in removed then [] else [r])
  }

  /** Keys ascend and stay below the next one. */
  ghost predicate KeysOk(recs: seq<Rec>, next: nat) {
    && (forall i, j :: 0 <= i < j < |recs| ==> recs[i].key < recs[j].key)
    && (forall i :: 0 <= i < |recs| ==> recs[i].key < next)
  }

  lemma AfterSnoc(recs: seq<Rec>, r: Rec, covers: Option<nat>)
    ensures After(recs + [r], covers) ==
            After(recs, covers) + (if covers.None? || r.key > covers.value then [r.entry] else [])
  {
    assert (recs + [r])[..|recs|] == recs;
  }

  /** Removing any subset of the covered entries changes nothing that is replayed. */
  lemma {:induction false} TruncationInvisible(recs: seq<Rec>, covers: nat, removed: set<nat>)
    ensures After(Truncate(recs, covers, removed), Some(covers)) == After(recs, Some(covers))
  {
    if recs != [] {
      var init, r := recs[..|recs| - 1], recs[|recs| - 1];
      TruncationInvisible(init, covers, removed);
      if r.key <= covers && r.key in removed {
        assert Truncate(recs, covers, removed) == Truncate(init, covers, removed);
      } else {
        AfterSnoc(Truncate(init, covers, removed), r, Some(covers));
      }
    }
  }

  lemma {:induction false} TruncateKeys(recs: seq<Rec>, next: nat, covers: nat, removed: set<nat>)
    requires KeysOk(recs, next)
    ensures KeysOk(Truncate(recs, covers, removed), next)
  {
    if recs != [] {
      var init, r := recs[..|recs| - 1], recs[|recs| - 1];
      assert KeysOk(init, r.key);
      TruncateKeys(init, r.key, covers, removed);
    }
  }

  lemma {:induction false} NothingAfterLast(recs: seq<Rec>, next: nat, covers: nat)
    requires KeysOk(recs, next) && forall i :: 0 <= i < |recs| ==> recs[i].key <= covers
    ensures After(recs, Some(covers)) == []
  {
    if recs != [] { NothingAfterLast(recs[..|recs| - 1], next, covers); }
  }

  // ---- The world ----

  /** Log entries and the wall clock when each was written. */
  datatype Journal = Journal(entries: seq<WalEntry>, clocks: seq<u64>)

  const NO_ENTRIES := Journal([], [])

  function Then(j: Journal, e: WalEntry, clock: u64): Journal {
    Journal(j.entries + [e], j.clocks + [clock])
  }

  /** Confirmed trades whose hash, or whose place in the queue, was taken and not put back. */
  datatype Out = Out(hashes: set<Key>, trades: set<Key>)

  const NOTHING_OUT := Out({}, {})

  /** A record of the run that no operation reads. `logged` is what recovery reflects: the entries the
      snapshot reflects (the first `covered`) and those that would be replayed. `acted` is what the
      running node reflects. The two differ by writes that reached the log and were reported failed
      since the last snapshot or restart: the orders `lost` and the confirmations `retracted`. Of the
      latter, `stale` are those whose match was not produced again. `out` and `savedOut` are what the
      settlement loop has taken out, now and when the snapshot was saved. */
  datatype Trace = Trace(
    logged: Journal, acted: Journal, covered: nat, lost: set<Id>, retracted: set<Key>, stale: set<Key>,
    out: Out, savedOut: Out)

  /** One chunk at a time: submitted and waiting for the chain, or settled and not yet checkpointed. */
  datatype Stage = Idle | Submitting(chunk: seq<Match>, trades: seq<SettlementTrade>) | Landed(keys: seq<Key>)

  /** The settlement loop: reconciliation candidates first, then chunk after chunk of each flush. */
  datatype Settler = Settler(ready: seq<seq<Match>>, stage: Stage, candidates: seq<Candidate>)

  datatype World = World(
    node: Node, inflight: seq<Id>, settler: Settler, alive: bool, wal: seq<Rec>, nextKey: nat, saved: Option<Saved>,
    trace: Trace)

  /** A durable write succeeds; fails and leaves no trace; reaches the log, is reported failed because the
      flush failed, and is on disk when the node restarts; or succeeds just before the process dies. */
  datatype Write = Written | WriteFailed | Unflushed | Died

  datatype Op =
    | Queue(order: Order, receipt: Receipt, write: Write)
    | AcceptNow(accepted: Order, acceptedReceipt: Receipt, clock: u64, write: Write)
    | Flush(resolved: seq<Id>)
    | ApplyNext(matchTimestampUs: Option<u64>, clock: u64, write: Write)
    | Diverge
    | ConfirmOp(key: Key, tradeHash: Id, write: Write)
    | ProcessOp(express: bool, standard: bool, size: nat, prover: Batcher.Prover)
    | PrepareOp(accepts: bool, resolve: Resolver)
    | SubmitOp(ok: bool)
    | CheckpointOp(write: Write)
    | ReconcileOp(settled: bool)
    | SnapshotCycle(keepOrders: nat, keepMatches: nat, saves: bool, removed: set<nat>)
    | Crash(bootClock: nat -> u64, gap: nat)

  function Initial(book: Book): World {
    World(NewNode(book), [], Settler([], Idle, []), true, [], 0, None,
          Trace(NO_ENTRIES, NO_ENTRIES, 0, {}, {}, {}, NOTHING_OUT, NOTHING_OUT))
  }

  function Covers(w: World): Option<nat> {
    match w.saved
    case None => None
    case Some(s) => Some(s.covers)
  }

  function Tail(w: World): seq<WalEntry> {
    After(w.wal, Covers(w))
  }

  function Log(w: World, e: WalEntry, clock: u64): World {
    w.(wal := w.wal + [Rec(w.nextKey, e)], nextKey := w.nextKey + 1,
       trace := w.trace.(logged := Then(w.trace.logged, e, clock)))
  }

  /** The keys of the matches an entry produces. */
  function Renewed(c: Core, e: WalEntry, clock: u64): set<Key> {
    if e.OrderAccepted? then ChunkKeys(Add(c.book, e.order, MatchTime(e.matchTimestampUs, clock)).matches) else {}
  }

  function Act(w: World, e: WalEntry, clock: u64, acted: Node): World {
    w.(node := acted,
       trace := w.trace.(acted := Then(w.trace.acted, e, clock),
                         stale := w.trace.stale - Renewed(w.node.core, e, clock)))
  }

  function Missed(t: Trace, e: WalEntry): Trace {
    match e
    case OrderAccepted(o, _, _) => t.(lost := t.lost + {o.id})
    case CommitConfirmed(m, _) => t.(retracted := t.retracted + {KeyOf(m)}, stale := t.stale + {KeyOf(m)})
    case BatchSubmitted(_) => t
    case OrderQueued(_, _) => t
  }

  /** Write ahead, then act. A checkpoint has nothing to act on, so its caller goes on either way. */
  function Durably(w: World, e: WalEntry, clock: u64, write: Write, acted: Node, failed: Node): World {
    match write
    case Written => Act(Log(w, e, clock), e, clock, acted)
    case WriteFailed => w.(node := failed)
    case Unflushed =>
      if e.BatchSubmitted? then Act(Log(w, e, clock), e, clock, acted)
      else
        var w' := Log(w, e, clock);
        w'.(node := failed, trace := Missed(w'.trace, e))
    case Died => Log(w, e, clock).(alive := false)
  }

  function Restored(book: Book, saved: Option<Saved>): Node {
    match saved
    case None => NewNode(book)
    case Some(s) => ApplySnapshot(NewNode(book), s.snapshot)
  }

  function Times(clock: nat -> u64, n: nat): (ts: seq<u64>)
    ensures |ts| == n
  {
    seq(n, i requires 0 <= i < n => clock(i))
  }

  function Recover(h: Hashes, book: Book, w: World, clock: nat -> u64): Node {
    Replay(h, Restored(book, w.saved), Tail(w), Times(clock, |Tail(w)|))
  }

  function Restart(h: Hashes, book: Book, w: World, clock: nat -> u64, gap: nat): World {
    var t := w.trace;
    World(Recover(h, book, w, clock), [], Settler([], Idle, Candidates(Tail(w), SettledKeys(Tail(w)))), true,
          w.wal, w.nextKey + gap, w.saved,
          Trace(t.logged, t.logged, t.covered, {}, {}, {}, t.savedOut, t.savedOut))
  }

  function CycleSnapshot(w: World, core: Core, saves: bool, removed: set<nat>): World {
    var w' := w.(node := w.node.(core := core));
    if w.wal == [] || !saves then w'
    else
      var last, t := w.wal[|w.wal| - 1].key, w.trace;
      w'.(saved := Some(Saved(BuildSnapshot(w'.node), last)), wal := Truncate(w.wal, last, removed),
          trace := Trace(t.acted, t.acted, |t.acted.entries|, {}, {}, {}, t.out, t.out))
  }

  function ApplyHead(h: Hashes, w: World, ts: Option<u64>, clock: u64, write: Write): World
    requires w.inflight != []
  {
    var id := w.inflight[0];
    var w' := w.(inflight := w.inflight[1..]);
    if id !in w.node.data then w'
    else
      var (o, r) := w.node.data[id];
      var taken := w.node.(data := w.node.data - {id});
      var e := OrderAccepted(o, r, ts);
      Durably(w', e, clock, write, taken.(core := CoreStep(h, taken.core, e, clock)), taken)
  }

  /** Intake, from a client or from gossip: an order already buffered or applied is ignored. */
  function Intake(w: World, o: Order, r: Receipt, write: Write): World {
    var n := w.node;
    if o.id in n.data || o.id in n.core.applied then w
    else Durably(w, OrderQueued(o, r), 0, write, n.(buffer := n.buffer + [o.id], data := n.data[o.id := (o, r)]), n)
  }

  /** Confirming a pending match; on a failed write it stays pending. */
  function ConfirmPending(w: World, key: Key, tradeHash: Id, write: Write): World {
    var n := w.node;
    if key !in n.core.pending then w
    else
      var m := n.core.pending[key];
      var core := n.core.(pending := n.core.pending - {key});
      Durably(w, CommitConfirmed(m, tradeHash), 0, write, ConfirmLocally(n.(core := core), m, tradeHash), n)
  }

  // ---- The settlement loop ----

  function QueuedKeys(q: Queues): set<Key> {
    ChunkKeys(QueuedTrades(q))
  }

  function TradeKeys(trades: seq<SettlementTrade>): (keys: seq<Key>)
    ensures |keys| == |trades|
  {
    seq(|trades|, i requires 0 <= i < |trades| => (trades[i].makerId, trades[i].takerId))
  }

  function TakeOut(w: World, hashes: set<Key>, trades: set<Key>): World {
    w.(trace := w.trace.(out := Out(w.trace.out.hashes + hashes, w.trace.out.trades + trades)))
  }

  function PutBack(w: World, keys: set<Key>): World {
    w.(trace := w.trace.(out := Out(w.trace.out.hashes - keys, w.trace.out.trades - keys)))
  }

  /** One interval: flush the batcher; its chunks are submitted one after another. */
  function Process(w: World, express: bool, standard: bool, size: nat, prover: Batcher.Prover): World {
    if size == 0 || w.settler.ready != [] || !w.settler.stage.Idle? || w.settler.candidates != [] then w
    else
      var f := ProcessBatches(w.node.pool, express, standard, size, prover);
      TakeOut(w, {}, QueuedKeys(w.node.pool.queues) - QueuedKeys(f.pool.queues))
      .(node := w.node.(pool := f.pool), settler := w.settler.(ready := ProvenChunks(f.batches)))
  }

  /** The next chunk: skipped, refused after consuming some of its hashes, or submitted. */
  function PrepareChunk(w: World, accepts: bool, resolve: Resolver): World {
    if w.settler.ready == [] || !w.settler.stage.Idle? then w
    else
      var chunk := w.settler.ready[0];
      var settler := w.settler.(ready := w.settler.ready[1..]);
      if !accepts then w.(settler := settler)
      else
        var p := Prepare(w.node.hashes, chunk, resolve);
        TakeOut(w, w.node.hashes.Keys - p.hashes.Keys, {})
        .(node := w.node.(hashes := p.hashes),
          settler := settler.(stage := if p.ok then Submitting(chunk, p.trades) else Idle))
  }

  /** The chain's answer: settled, or failed and everything is put back. */
  function Submit(w: World, ok: bool): World {
    var n := w.node;
    match w.settler.stage
    case Submitting(chunk, trades) =>
      if ok then w.(settler := w.settler.(stage := Landed(TradeKeys(trades))))
      else if |trades| != |chunk| then w
      else
        PutBack(w, ChunkKeys(chunk))
        .(node := n.(hashes := RestoreHashes(n.hashes, chunk, trades),
                     pool := n.pool.(queues := EnqueueAll(n.pool.queues, chunk))),
          settler := w.settler.(stage := Idle))
    case _ => w
  }

  function Checkpoint(w: World, write: Write): World {
    match w.settler.stage
    case Landed(keys) =>
      Durably(w.(settler := w.settler.(stage := Idle)), BatchSubmitted(keys), 0, write, w.node, w.node)
    case _ => w
  }

  /** The next candidate: left as it is, or found settled on-chain and withdrawn. */
  function Reconcile(w: World, settled: bool): World {
    var n := w.node;
    if w.settler.candidates == [] || !w.settler.stage.Idle? then w
    else
      var key := KeyOf(w.settler.candidates[0].0);
      var settler := w.settler.(candidates := w.settler.candidates[1..]);
      if !settled then w.(settler := settler)
      else
        TakeOut(w, {key}, {key})
        .(node := n.(hashes := n.hashes - {key}, pool := n.pool.(queues := RetainPending(n.pool.queues, {key}))),
          settler := settler.(stage := Landed([key])))
  }

  function Do(h: Hashes, book: Book, w: World, op: Op): World {
    var n := w.node;
    if op.Crash? then Restart(h, book, w, op.bootClock, op.gap)
    else if !w.alive then w
    else match op
      case Queue(o, r, write) => Intake(w, o, r, write)
      case AcceptNow(o, r, clock, write) =>
        var e := OrderAccepted(o, r, None);
        Durably(w, e, clock, write, n.(core := CoreStep(h, n.core, e, clock)), n)
      case Flush(resolved) =>
        if w.inflight == [] && multiset(resolved) == multiset(n.buffer)
        then w.(inflight := resolved, node := n.(buffer := []))
        else w
      case ApplyNext(ts, clock, write) => if w.inflight == [] then w else ApplyHead(h, w, ts, clock, write)
      case Diverge => w.(node := n.(buffer := n.buffer + w.inflight), inflight := [])
      case ConfirmOp(key, tradeHash, write) => ConfirmPending(w, key, tradeHash, write)
      case ProcessOp(express, standard, size, prover) => Process(w, express, standard, size, prover)
      case PrepareOp(accepts, resolve) => PrepareChunk(w, accepts, resolve)
      case SubmitOp(ok) => Submit(w, ok)
      case CheckpointOp(write) => Checkpoint(w, write)
      case ReconcileOp(settled) => Reconcile(w, settled)
      case SnapshotCycle(keepOrders, keepMatches, saves, removed) =>
        CycleSnapshot(w, Trim(n.core, keepOrders, keepMatches), saves, removed)
  }

  function Run(h: Hashes, book: Book, ops: seq<Op>): World
    decreases |ops|
  {
    if ops == [] then Initial(book) else Do(h, book, Run(h, book, ops[..|ops| - 1]), ops[|ops| - 1])
  }

  // ---- Simulation ----

  predicate JournalOk(j: Journal) {
    |j.clocks| == |j.entries|
  }

  /** The core a journal determines. */
  function Ideal(h: Hashes, book: Book, j: Journal): Core
    requires JournalOk(j)
  {
    FoldCore(h, NewCore(book), j.entries, j.clocks)
  }

  function FirstOf(j: Journal, n: nat): Journal
    requires JournalOk(j) && n <= |j.entries|
  {
    Journal(j.entries[..n], j.clocks[..n])
  }

  /** The disk: what would be replayed is what was logged after what the snapshot reflects. */
  ghost predicate DiskOk(w: World) {
    && JournalOk(w.trace.logged) && JournalOk(w.trace.acted) && w.trace.covered <= |w.trace.logged.entries|
    && KeysOk(w.wal, w.nextKey)
    && (w.saved.Some? ==> w.saved.value.covers < w.nextKey)
    && Tail(w) == w.trace.logged.entries[w.trace.covered..]
    && (w.saved.None? ==> w.trace.covered == 0)
  }

  /** The snapshot's core agrees with the entries it reflects. */
  ghost predicate SavedOk(h: Hashes, book: Book, w: World, exact: bool)
    requires JournalOk(w.trace.logged) && w.trace.covered <= |w.trace.logged.entries|
  {
    Agrees(exact, Ideal(h, book, FirstOf(w.trace.logged, w.trace.covered)), Restored(book, w.saved).core)
  }

  ghost predicate StampedOk(w: World, exact: bool) {
    exact ==> AllStamped(w.trace.logged.entries) && AllStamped(w.trace.acted.entries)
  }

  ghost predicate Simulates(h: Hashes, book: Book, w: World, exact: bool) {
    && DiskOk(w)
    && SavedOk(h, book, w, exact)
    && StampedOk(w, exact)
    && (w.alive ==> Agrees(exact, Ideal(h, book, w.trace.acted), w.node.core))
  }

  /** Every accepted order carries its match time. */
  ghost predicate Dated(ops: seq<Op>) {
    forall i :: 0 <= i < |ops| ==> DatedOp(ops[i])
  }

  predicate DatedOp(op: Op) {
    !op.AcceptNow? && (op.ApplyNext? ==> op.matchTimestampUs.Some?)
  }

  lemma LogKeepsDisk(w: World, e: WalEntry, clock: u64)
    requires DiskOk(w)
    ensures DiskOk(Log(w, e, clock))
  {
    var w' := Log(w, e, clock);
    hide After, KeysOk;
    AfterSnoc(w.wal, Rec(w.nextKey, e), Covers(w));
    KeysSnoc(w.wal, w.nextKey, e);
    assert w'.trace.logged.entries[w.trace.covered..] == w.trace.logged.entries[w.trace.covered..] + [e];
  }

  lemma KeysSnoc(recs: seq<Rec>, next: nat, e: WalEntry)
    requires KeysOk(recs, next)
    ensures KeysOk(recs + [Rec(next, e)], next + 1)
  {
  }

  lemma LogKeepsSaved(h: Hashes, book: Book, w: World, e: WalEntry, clock: u64, exact: bool)
    requires DiskOk(w) && SavedOk(h, book, w, exact)
    ensures SavedOk(h, book, Log(w, e, clock), exact)
  {
    var j, j' := w.trace.logged, Log(w, e, clock).trace.logged;
    assert FirstOf(j', w.trace.covered) == FirstOf(j, w.trace.covered) by {
      assert j'.entries[..w.trace.covered] == j.entries[..w.trace.covered];
      assert j'.clocks[..w.trace.covered] == j.clocks[..w.trace.covered];
    }
    hide FoldCore, Agrees, Restored;
  }

  lemma StampedSnoc(es: seq<WalEntry>, e: WalEntry)
    requires AllStamped(es) && Stamped(e)
    ensures AllStamped(es + [e])
  {
  }

  lemma IdealSnoc(h: Hashes, book: Book, j: Journal, e: WalEntry, clock: u64)
    requires JournalOk(j)
    ensures JournalOk(Then(j, e, clock))
    ensures Ideal(h, book, Then(j, e, clock)) == CoreStep(h, Ideal(h, book, j), e, clock)
  {
    FoldSnoc(h, NewCore(book), j.entries, j.clocks, e, clock);
  }

  /** Disk facts do not depend on memory. */
  lemma SameDisk(h: Hashes, book: Book, w: World, w': World, exact: bool)
    requires DiskOk(w) && SavedOk(h, book, w, exact) && JournalOk(w'.trace.acted)
    requires w'.wal == w.wal && w'.nextKey == w.nextKey && w'.saved == w.saved
    requires w'.trace.logged == w.trace.logged && w'.trace.covered == w.trace.covered
    ensures DiskOk(w') && SavedOk(h, book, w', exact)
  {
    hide FoldCore, Agrees, Restored, After, KeysOk;
    assert Tail(w') == Tail(w);
  }

  lemma DiskLengths(w: World)
    requires DiskOk(w)
    ensures JournalOk(w.trace.logged) && JournalOk(w.trace.acted) && w.trace.covered <= |w.trace.logged.entries|
  {
  }

  /** Logging an entry and acting as replay would keeps the node and what it acted on together, however
      the write turns out. */
  lemma DurablySimulates(h: Hashes, book: Book, w: World, e: WalEntry, clock: u64, write: Write, acted: Node,
      failed: Node, exact: bool)
    requires Simulates(h, book, w, exact) && w.alive && (exact ==> Stamped(e))
    requires acted.core == CoreStep(h, w.node.core, e, clock) && failed.core == w.node.core
    ensures Simulates(h, book, Durably(w, e, clock, write, acted, failed), exact)
  {
    hide DiskOk, SavedOk, Agrees, CoreStep, Ideal, Renewed, AllStamped, Stamped;
    DiskLengths(w);
    var w' := Durably(w, e, clock, write, acted, failed);
    if write.WriteFailed? {
      SameDisk(h, book, w, w', exact);
    } else {
      LogKeepsDisk(w, e, clock);
      LogKeepsSaved(h, book, w, e, clock, exact);
      IdealSnoc(h, book, w.trace.acted, e, clock);
      StepAgrees(h, exact, Ideal(h, book, w.trace.acted), w.node.core, e, clock, clock);
      SameDisk(h, book, Log(w, e, clock), w', exact);
      if exact {
        StampedSnoc(w.trace.logged.entries, e);
        StampedSnoc(w.trace.acted.entries, e);
      }
    }
  }

  /** The same disk and the same core, whatever else changes in memory. */
  ghost predicate InMemory(w: World, w': World) {
    && w'.alive == w.alive && w'.wal == w.wal && w'.nextKey == w.nextKey && w'.saved == w.saved
    && w'.trace == w.trace.(out := w'.trace.out)
    && w'.node.core == w.node.core
  }

  lemma MemorySimulates(h: Hashes, book: Book, w: World, w': World, exact: bool)
    requires Simulates(h, book, w, exact) && InMemory(w, w')
    ensures Simulates(h, book, w', exact)
  {
    SameDisk(h, book, w, w', exact);
    hide DiskOk, SavedOk, Agrees, FoldCore, AllStamped;
  }

  // ---- Crash and recovery ----

  /** Recovery replays the tail on the restored snapshot. */
  lemma RecoverCore(h: Hashes, book: Book, w: World, clock: nat -> u64)
    ensures Recover(h, book, w, clock).core ==
            FoldCore(h, Restored(book, w.saved).core, Tail(w), Times(clock, |Tail(w)|))
  {
    hide FoldCore, HashAll, ConfirmAll, Candidates, SettledKeys, Unapplied, IdsIn, DataAll, Replay, QueuedOrders,
        Restored, After, Times;
    ReplayParts(h, Restored(book, w.saved), Tail(w), Times(clock, |Tail(w)|));
  }

  lemma SuffixStamped(es: seq<WalEntry>, n: nat)
    requires AllStamped(es) && n <= |es|
    ensures AllStamped(es[n..])
  {
  }

  /** Recovery at any point, reading any clock, agrees with what was logged. */
  lemma RecoveryAgrees(h: Hashes, book: Book, w: World, clock: nat -> u64, exact: bool)
    requires Simulates(h, book, w, exact)
    ensures Agrees(exact, Ideal(h, book, w.trace.logged), Recover(h, book, w, clock).core)
  {
    var n, j := w.trace.covered, w.trace.logged;
    var p, cp, q, cq := j.entries[..n], j.clocks[..n], j.entries[n..], j.clocks[n..];
    assert p + q == j.entries && cp + cq == j.clocks;
    if exact { SuffixStamped(j.entries, n); }
    hide FoldCore, Agrees, Restored, After, KeysOk, Times, AllStamped;
    FoldConcat(h, NewCore(book), p, cp, q, cq);
    RecoverCore(h, book, w, clock);
    FoldAgrees(h, exact, FoldCore(h, NewCore(book), p, cp), Restored(book, w.saved).core, q, cq, Times(clock, |q|));
  }

  lemma KeysLater(recs: seq<Rec>, next: nat, gap: nat)
    requires KeysOk(recs, next)
    ensures KeysOk(recs, next + gap)
  {
  }

  lemma RestartSimulates(h: Hashes, book: Book, w: World, clock: nat -> u64, gap: nat, exact: bool)
    requires Simulates(h, book, w, exact)
    ensures Simulates(h, book, Restart(h, book, w, clock, gap), exact)
  {
    RecoveryAgrees(h, book, w, clock, exact);
    var w' := Restart(h, book, w, clock, gap);
    hide FoldCore, Agrees, Restored, After, Recover, KeysOk, AllStamped, Candidates, SettledKeys;
    KeysLater(w.wal, w.nextKey, gap);
    assert Tail(w') == Tail(w);
  }

  // ---- Snapshots ----

  lemma AgreesConfig(h: Hashes, book: Book, j: Journal, exact: bool, c: Core)
    requires JournalOk(j) && Agrees(exact, Ideal(h, book, j), c)
    ensures SameConfig(book, c.book)
  {
    FoldKeepsConfig(h, NewCore(book), j.entries, j.clocks);
  }

  lemma RestoredCore(book: Book, n: Node, covers: nat)
    requires SameConfig(book, n.core.book)
    ensures Restored(book, Some(Saved(BuildSnapshot(n), covers))).core == n.core
  {
    hide EnqueueAll, QueuedTrades;
  }

  lemma CycleDisk(w: World, core: Core, saves: bool, removed: set<nat>)
    requires DiskOk(w)
    ensures DiskOk(CycleSnapshot(w, core, saves, removed))
    ensures w.wal != [] && saves ==> Tail(CycleSnapshot(w, core, saves, removed)) == []
  {
    var w' := CycleSnapshot(w, core, saves, removed);
    if w.wal == [] || !saves {
      assert Tail(w') == Tail(w);
    } else {
      var last := w.wal[|w.wal| - 1].key;
      hide After, Truncate, BuildSnapshot;
      TruncationInvisible(w.wal, last, removed);
      TruncateKeys(w.wal, w.nextKey, last, removed);
      NothingAfterLast(w.wal, w.nextKey, last);
    }
  }

  lemma CycleSimulates(h: Hashes, book: Book, w: World, core: Core, saves: bool, removed: set<nat>, exact: bool)
    requires Simulates(h, book, w, exact) && w.alive && Agrees(exact, w.node.core, core)
    ensures Simulates(h, book, CycleSnapshot(w, core, saves, removed), exact)
  {
    var w', j := CycleSnapshot(w, core, saves, removed), w.trace.acted;
    CycleDisk(w, core, saves, removed);
    AgreesTrans(exact, Ideal(h, book, j), w.node.core, core);
    AgreesConfig(h, book, j, exact, core);
    if w.wal != [] && saves {
      RestoredCore(book, w'.node, w.wal[|w.wal| - 1].key);
      assert FirstOf(j, |j.entries|) == j by {
        assert j.entries[..|j.entries|] == j.entries && j.clocks[..|j.entries|] == j.clocks;
      }
    }
    hide FoldCore, Agrees, Restored, DiskOk, BuildSnapshot, Truncate, AllStamped;
  }

  // ---- Confirmations act on the entry at their own key ----

  ghost predicate Keyed(pending: map<Key, Match>) {
    forall k :: k in pending ==> KeyOf(pending[k]) == k
  }

  lemma {:induction false} AddPendingKeyed(pending: map<Key, Match>, ms: seq<Match>)
    requires Keyed(pending)
    ensures Keyed(AddPending(pending, ms))
  {
    if ms != [] { AddPendingKeyed(pending, ms[..|ms| - 1]); }
  }

  lemma {:induction false} FoldKeyed(h: Hashes, c: Core, es: seq<WalEntry>, clocks: seq<u64>)
    requires |clocks| == |es| && Keyed(c.pending)
    ensures Keyed(FoldCore(h, c, es, clocks).pending)
    decreases |es|
  {
    if es != [] {
      var i := |es| - 1;
      FoldKeyed(h, c, es[..i], clocks[..i]);
      var prev := FoldCore(h, c, es[..i], clocks[..i]);
      hide Add, AppendAll, Append, FoldCore, AddPending;
      if es[i].OrderAccepted? {
        AddPendingKeyed(prev.pending, Add(prev.book, es[i].order, MatchTime(es[i].matchTimestampUs,
            clocks[i])).matches);
      }
      FoldLast(h, c, es, clocks);
    }
  }

  lemma FoldLast(h: Hashes, c: Core, es: seq<WalEntry>, clocks: seq<u64>)
    requires |clocks| == |es| && es != []
    ensures var i := |es| - 1;
            FoldCore(h, c, es, clocks) == CoreStep(h, FoldCore(h, c, es[..i], clocks[..i]), es[i], clocks[i])
  {
  }

  lemma LiveKeyed(h: Hashes, book: Book, w: World, exact: bool)
    requires Simulates(h, book, w, exact) && w.alive
    ensures Keyed(w.node.core.pending)
  {
    var j := w.trace.acted;
    FoldKeyed(h, NewCore(book), j.entries, j.clocks);
    var ideal := Ideal(h, book, j).pending;
    hide FoldCore, DiskOk, SavedOk;
    forall k | k in w.node.core.pending ensures KeyOf(w.node.core.pending[k]) == k {
      assert BookTheorems.Erase(ideal[k]) == BookTheorems.Erase(w.node.core.pending[k]);
    }
  }

  // ---- Every step, every run ----

  lemma PlainStep(h: Hashes, c: Core, e: WalEntry, clock: u64)
    requires e.OrderQueued? || e.BatchSubmitted?
    ensures CoreStep(h, c, e, clock) == c
  {
  }

  lemma HeadSimulates(h: Hashes, book: Book, w: World, ts: Option<u64>, clock: u64, write: Write, exact: bool)
    requires Simulates(h, book, w, exact) && w.alive && w.inflight != [] && (exact ==> ts.Some?)
    ensures Simulates(h, book, ApplyHead(h, w, ts, clock, write), exact)
  {
    var w' := w.(inflight := w.inflight[1..]);
    MemorySimulates(h, book, w, w', exact);
    hide Simulates, CoreStep, Durably;
    var id := w.inflight[0];
    if id in w.node.data {
      var (o, r) := w.node.data[id];
      var taken := w.node.(data := w.node.data - {id});
      var e := OrderAccepted(o, r, ts);
      DurablySimulates(h, book, w', e, clock, write, taken.(core := CoreStep(h, taken.core, e, clock)), taken, exact);
    }
  }

  lemma RemoveStep(h: Hashes, c: Core, key: Key, tradeHash: Id)
    requires Keyed(c.pending) && key in c.pending
    ensures CoreStep(h, c, CommitConfirmed(c.pending[key], tradeHash), 0) == c.(pending := c.pending - {key})
  {
  }

  lemma IntakeSimulates(h: Hashes, book: Book, w: World, o: Order, r: Receipt, write: Write, exact: bool)
    requires Simulates(h, book, w, exact) && w.alive
    ensures Simulates(h, book, Intake(w, o, r, write), exact)
  {
    var n := w.node;
    hide Simulates, CoreStep, Durably;
    if o.id !in n.data && o.id !in n.core.applied {
      PlainStep(h, n.core, OrderQueued(o, r), 0);
      DurablySimulates(h, book, w, OrderQueued(o, r), 0, write, n.(buffer := n.buffer + [o.id],
          data := n.data[o.id := (o, r)]), n, exact);
    }
  }

  lemma ConfirmSimulates(h: Hashes, book: Book, w: World, key: Key, tradeHash: Id, write: Write, exact: bool)
    requires Simulates(h, book, w, exact) && w.alive
    ensures Simulates(h, book, ConfirmPending(w, key, tradeHash, write), exact)
  {
    var n := w.node;
    hide Simulates, Durably, Confirm, CoreStep, Keyed;
    if key in n.core.pending {
      LiveKeyed(h, book, w, exact);
      RemoveStep(h, n.core, key, tradeHash);
      var m := n.core.pending[key];
      var core := n.core.(pending := n.core.pending - {key});
      DurablySimulates(h, book, w, CommitConfirmed(m, tradeHash), 0, write, ConfirmLocally(n.(core := core), m,
          tradeHash), n, exact);
    }
  }

  lemma CheckpointSimulates(h: Hashes, book: Book, w: World, write: Write, exact: bool)
    requires Simulates(h, book, w, exact) && w.alive
    ensures Simulates(h, book, Checkpoint(w, write), exact)
  {
    var w' := w.(settler := w.settler.(stage := Idle));
    MemorySimulates(h, book, w, w', exact);
    hide Simulates, Durably, CoreStep;
    if w.settler.stage.Landed? {
      var e := BatchSubmitted(w.settler.stage.keys);
      PlainStep(h, w.node.core, e, 0);
      DurablySimulates(h, book, w', e, 0, write, w.node, w.node, exact);
    }
  }

  /** Steps that write nothing and leave the core alone. */
  predicate MemoryOp(op: Op) {
    op.Flush? || op.Diverge? || op.ProcessOp? || op.PrepareOp? || op.SubmitOp? || op.ReconcileOp?
  }

  lemma MemoryStep(h: Hashes, book: Book, w: World, op: Op)
    requires MemoryOp(op)
    ensures InMemory(w, Do(h, book, w, op))
  {
    hide ProcessBatches, Prepare, RestoreHashes, EnqueueAll, RetainPending, ProvenChunks, QueuedKeys, TradeKeys,
        ChunkKeys;
  }

  lemma StepSimulates(h: Hashes, book: Book, w: World, op: Op, exact: bool)
    requires Simulates(h, book, w, exact) && (exact ==> DatedOp(op))
    ensures Simulates(h, book, Do(h, book, w, op), exact)
  {
    var n, w' := w.node, Do(h, book, w, op);
    if MemoryOp(op) { MemoryStep(h, book, w, op); }
    hide Simulates, CoreStep, Agrees, Restart, CycleSnapshot, Trim, Intake, ConfirmPending, Durably, ApplyHead,
         Process, PrepareChunk, Submit, Checkpoint, Reconcile, InMemory;
    if op.Crash? {
      RestartSimulates(h, book, w, op.bootClock, op.gap, exact);
    } else if w.alive {
      if MemoryOp(op) {
        MemorySimulates(h, book, w, w', exact);
      } else {
        match op
        case Queue(o, r, write) => IntakeSimulates(h, book, w, o, r, write, exact);
        case AcceptNow(o, r, clock, write) =>
          var e := OrderAccepted(o, r, None);
          DurablySimulates(h, book, w, e, clock, write, n.(core := CoreStep(h, n.core, e, clock)), n, exact);
        case ApplyNext(ts, clock, write) =>
          if w.inflight != [] { HeadSimulates(h, book, w, ts, clock, write, exact); }
        case ConfirmOp(key, tradeHash, write) => ConfirmSimulates(h, book, w, key, tradeHash, write, exact);
        case CheckpointOp(write) => CheckpointSimulates(h, book, w, write, exact);
        case SnapshotCycle(keepOrders, keepMatches, saves, removed) =>
          TrimAgrees(h, exact, n.core, keepOrders, keepMatches);
          CycleSimulates(h, book, w, Trim(n.core, keepOrders, keepMatches), saves, removed, exact);
      }
    }
  }

  lemma InitialSimulates(h: Hashes, book: Book, exact: bool)
    ensures Simulates(h, book, Initial(book), exact)
  {
    AgreesRefl(exact, NewCore(book));
  }

  lemma DatedInit(ops: seq<Op>)
    requires Dated(ops) && ops != []
    ensures Dated(ops[..|ops| - 1]) && DatedOp(ops[|ops| - 1])
  {
  }

  /** In every run, whatever becomes of its writes, the running core agrees with the entries the node
      acted on and recovery with the entries logged; exactly so if accepted orders carry their match
      times. */
  lemma {:induction false} EveryRunSimulates(h: Hashes, book: Book, ops: seq<Op>, exact: bool)
    requires exact ==> Dated(ops)
    ensures Simulates(h, book, Run(h, book, ops), exact)
    decreases |ops|
  {
    if ops == [] {
      InitialSimulates(h, book, exact);
    } else {
      if exact { DatedInit(ops); }
      hide Do, Simulates, Dated, DatedOp;
      EveryRunSimulates(h, book, ops[..|ops| - 1], exact);
      StepSimulates(h, book, Run(h, book, ops[..|ops| - 1]), ops[|ops| - 1], exact);
    }
  }
}
