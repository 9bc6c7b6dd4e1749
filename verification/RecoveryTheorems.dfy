/** Snapshot-plus-tail recovery against full-log recovery, and what a full replay leaves to settle. */
module RecoveryTheorems {
  import opened Types
  import opened Engine
  import opened HashChain
  import opened Ledger
  import opened Settlement
  import opened SettlementRuns
  import opened NodeState
  import opened Recovery
  import Batcher

  /** The node recovered from the whole log. */
  function Full(h: Hashes, book: Book, es: seq<WalEntry>, clocks: seq<u64>): Node
    requires |clocks| == |es|
  {
    Replay(h, NewNode(book), es, clocks)
  }

  /** The node recovered from a snapshot and the entries after it. */
  function FromSnapshot(h: Hashes, book: Book, s: Snapshot, tail: seq<WalEntry>, clocks: seq<u64>): Node
    requires |clocks| == |tail|
  {
    Replay(h, ApplySnapshot(NewNode(book), s), tail, clocks)
  }

  // ---- The configuration of a book never changes ----

  lemma AddKeepsConfig(b: Book, o: Order, t: u64)
    ensures SameConfig(b, Add(b, o, t).book)
  {
    hide Sweep, Place, Reverse, MatchesOf, CursorAfter;
  }

  lemma {:induction false} FoldKeepsConfig(h: Hashes, c: Core, es: seq<WalEntry>, clocks: seq<u64>)
    requires |clocks| == |es|
    ensures SameConfig(c.book, FoldCore(h, c, es, clocks).book)
    decreases |es|
  {
    if es != [] {
      var i := |es| - 1;
      FoldKeepsConfig(h, c, es[..i], clocks[..i]);
      hide Add, AppendAll, Append, AddPending;
      if es[i].OrderAccepted? {
        AddKeepsConfig(FoldCore(h, c, es[..i], clocks[..i]).book, es[i].order, MatchTime(es[i].matchTimestampUs,
            clocks[i]));
      }
    }
  }

  // ---- The restored node, part by part ----

  /** The node restored from a snapshot of the replayed prefix, before its tail is replayed. */
  lemma RestoredPrefix(h: Hashes, book: Book, p: seq<WalEntry>, cp: seq<u64>)
    requires |cp| == |p|
    ensures var cs := Candidates(p, SettledKeys(p));
            var n := Full(h, book, p, cp);
            && n.core == FoldCore(h, NewCore(book), p, cp)
            && n.hashes == HashAll(map[], cs)
            && n.pool.queues == EnqueueAll(EMPTY_QUEUES, MatchesIn(cs))
            && ApplySnapshot(NewNode(book), BuildSnapshot(n)) ==
               n.(pool := Pool(n.pool.queues, map[]), buffer := [], data := map[])
  {
    var cs := Candidates(p, SettledKeys(p));
    var n := Full(h, book, p, cp);
    hide FoldCore, HashAll, ConfirmAll, Candidates, SettledKeys, Unapplied, IdsIn, DataAll, Replay, EnqueueAll,
        MatchesIn, ApplySnapshot, BuildSnapshot;
    ReplayParts(h, NewNode(book), p, cp);
    ConfirmAllQueues(NewNode(book).pool, cs);
    EnqueueAllTiers(EMPTY_QUEUES, MatchesIn(cs));
    FoldKeepsConfig(h, NewCore(book), p, cp);
    SnapshotRoundTrip(n, NewNode(book));
  }

  /** Book, cursor, log tips, pending matches and applied ids: recovery from a snapshot and the tail
      always agrees with recovery from the whole log, exactly so if match times are recorded. */
  lemma SnapshotTailCore(h: Hashes, book: Book, p: seq<WalEntry>, cp: seq<u64>, tail: seq<WalEntry>, ct: seq<u64>,
                         cf: seq<u64>, exact: bool)
    requires |cp| == |p| && |ct| == |tail| && |cf| == |p + tail|
    requires exact ==> AllStamped(p + tail)
    ensures Agrees(exact, Full(h, book, p + tail, cf).core, FromSnapshot(h, book, BuildSnapshot(Full(h, book, p, cp)),
        tail, ct).core)
  {
    var n := Full(h, book, p, cp);
    RestoredPrefix(h, book, p, cp);
    hide FoldCore, HashAll, ConfirmAll, Candidates, SettledKeys, Unapplied, IdsIn, DataAll, Replay, EnqueueAll,
        MatchesIn,
         ApplySnapshot, BuildSnapshot, Agrees, QueuedOrders;
    ReplayParts(h, NewNode(book), p + tail, cf);
    ReplayParts(h, ApplySnapshot(NewNode(book), BuildSnapshot(n)), tail, ct);
    FoldConcat(h, NewCore(book), p, cp, tail, ct);
    AgreesRefl(exact, NewCore(book));
    FoldAgrees(h, exact, NewCore(book), NewCore(book), p + tail, cf, cp + ct);
  }

  /** A batch is checkpointed only after its trades were confirmed. */
  ghost predicate SettledAfterConfirmed(p: seq<WalEntry>, tail: seq<WalEntry>) {
    ConfirmKeys(tail) !! SettledKeys(p)
  }

  lemma SettlementSides(h: Hashes, book: Book, s: Snapshot, p: seq<WalEntry>, tail: seq<WalEntry>, ct: seq<u64>,
      cf: seq<u64>)
    requires |ct| == |tail| && |cf| == |p + tail| && SettledAfterConfirmed(p, tail)
    ensures var owed := Candidates(p, SettledKeys(p + tail));
            var last := Candidates(tail, SettledKeys(tail));
            var full := Full(h, book, p + tail, cf);
            var restored := FromSnapshot(h, book, s, tail, ct);
            && full.hashes == HashAll(HashAll(map[], owed), last)
            && full.pool.queues == EnqueueAll(EnqueueAll(EMPTY_QUEUES, MatchesIn(owed)), MatchesIn(last))
            && restored.hashes == HashAll(s.hashes, last)
            && restored.pool.queues == EnqueueAll(EnqueueAll(EMPTY_QUEUES, s.queued), MatchesIn(last))
  {
    var settled, last := SettledKeys(p + tail), Candidates(tail, SettledKeys(tail));
    LogConcat(p, tail, settled);
    assert ConfirmKeys(tail) * settled == ConfirmKeys(tail) * SettledKeys(tail);
    var base := ApplySnapshot(NewNode(book), s);
    assert base.hashes == s.hashes && base.pool.queues == EnqueueAll(EMPTY_QUEUES, s.queued);
    hide FoldCore, HashAll, ConfirmAll, Candidates, SettledKeys, ConfirmKeys, Unapplied, IdsIn, DataAll, Replay,
        EnqueueAll, MatchesIn, ApplySnapshot, QueuedOrders;
    SameCandidates(tail, settled, SettledKeys(tail));
    ReplayParts(h, NewNode(book), p + tail, cf);
    var owed := Candidates(p, settled);
    ConfirmAllQueues(NewNode(book).pool, owed + last);
    ReplayParts(h, base, tail, ct);
    ConfirmAllQueues(base.pool, last);
    MatchesConcat(owed, last);
    EnqueueConcat(EMPTY_QUEUES, MatchesIn(owed), MatchesIn(last));
  }

  lemma {:induction false} HashAllAt(a: map<Key, Id>, b: map<Key, Id>, cs: seq<Candidate>, k: Key)
    ensures k in KeysIn(cs) ==> k in HashAll(a, cs) && k in HashAll(b, cs) && HashAll(a, cs)[k] == HashAll(b, cs)[k]
    ensures k !in KeysIn(cs) ==> (k in HashAll(a, cs) <==> k in a) && (k in a ==> HashAll(a, cs)[k] == a[k])
  {
    if cs != [] {
      var init, c := cs[..|cs| - 1], cs[|cs| - 1];
      HashAllAt(a, b, init, k);
      KeysSnoc(init, c);
      assert cs == init + [c];
      hide KeysIn;
    }
  }

  /** Confirming the same candidates gives the same hashes exactly if the hashes before agree elsewhere. */
  lemma HashAllSameIff(a: map<Key, Id>, b: map<Key, Id>, cs: seq<Candidate>)
    ensures HashAll(a, cs) == HashAll(b, cs) <==> a - KeysIn(cs) == b - KeysIn(cs)
  {
    hide HashAll, KeysIn;
    var x, y, u, v := HashAll(a, cs), HashAll(b, cs), a - KeysIn(cs), b - KeysIn(cs);
    forall k ensures k in x && k !in KeysIn(cs) <==> k in u { HashAllAt(a, b, cs, k); }
    forall k ensures k in y && k !in KeysIn(cs) <==> k in v { HashAllAt(b, a, cs, k); }
    forall k | k in u ensures x[k] == u[k] { HashAllAt(a, b, cs, k); }
    forall k | k in v ensures y[k] == v[k] { HashAllAt(b, a, cs, k); }
    if u == v {
      forall k ensures k in x <==> k in y { HashAllAt(a, b, cs, k); HashAllAt(b, a, cs, k); }
      forall k | k in x ensures x[k] == y[k] { HashAllAt(a, b, cs, k); HashAllAt(b, a, cs, k); }
    }
    if x == y {
      assert forall k :: k in u <==> k in v;
      assert forall k :: k in u ==> u[k] == v[k];
    }
  }

  lemma EnqueueSame(a: Queues, b: Queues, m: Match)
    requires Enqueue(a, m) == Enqueue(b, m)
    ensures a == b
  {
    assert Enqueue(a, m).instant == Enqueue(b, m).instant && Enqueue(a, m).express == Enqueue(b, m).express
           && Enqueue(a, m).standard == Enqueue(b, m).standard;
    match m.tier
    case Instant => SnocSame(a.instant, b.instant, m);
    case Express => SnocSame(a.express, b.express, m);
    case Standard => SnocSame(a.standard, b.standard, m);
  }

  lemma SnocSame<T>(a: seq<T>, b: seq<T>, x: T)
    requires a + [x] == b + [x]
    ensures a == b
  {
    assert |a| == |a + [x]| - 1 && |b| == |b + [x]| - 1;
    assert (a + [x])[..|a|] == a && (b + [x])[..|b|] == b;
  }

  lemma {:induction false} EnqueueAllSameIff(a: Queues, b: Queues, ms: seq<Match>)
    ensures EnqueueAll(a, ms) == EnqueueAll(b, ms) <==> a == b
  {
    if ms != [] {
      var init, m := ms[..|ms| - 1], ms[|ms| - 1];
      EnqueueAllSameIff(a, b, init);
      hide Enqueue;
      if EnqueueAll(a, ms) == EnqueueAll(b, ms) { EnqueueSame(EnqueueAll(a, init), EnqueueAll(b, init), m); }
    }
  }

  /** Two queues with the same trades, in any order. */
  ghost predicate SameTrades(a: Queues, b: Queues) {
    multiset(QueuedTrades(a)) == multiset(QueuedTrades(b))
  }

  lemma EnqueueAllBagIff(a: seq<Match>, b: seq<Match>, ms: seq<Match>)
    ensures SameTrades(EnqueueAll(EnqueueAll(EMPTY_QUEUES, a), ms), EnqueueAll(EnqueueAll(EMPTY_QUEUES, b), ms))
            <==> multiset(a) == multiset(b)
  {
    var x, y := EnqueueAll(EMPTY_QUEUES, a), EnqueueAll(EMPTY_QUEUES, b);
    EnqueueAllBag(EMPTY_QUEUES, a);
    EnqueueAllBag(EMPTY_QUEUES, b);
    EnqueueAllBag(x, ms);
    EnqueueAllBag(y, ms);
    NothingQueued();
    hide EnqueueAll, QueuedTrades;
    assert multiset(QueuedTrades(x)) == multiset(a) && multiset(QueuedTrades(y)) == multiset(b);
    CancelBag(multiset(a), multiset(b), multiset(ms));
  }

  /** Whatever the snapshot holds, recovery from it and the tail agrees with recovery from the whole log,
      given that no checkpoint precedes what it settles: on the confirmed hashes if and only if the
      snapshot's hashes are those of the confirmations before it that no checkpoint names, then or since,
      leaving aside keys the tail confirms again; on the queues if and only if its queue is theirs. */
  lemma SnapshotTailSettlementIff(h: Hashes, book: Book, s: Snapshot, p: seq<WalEntry>, tail: seq<WalEntry>,
      ct: seq<u64>, cf: seq<u64>)
    requires |ct| == |tail| && |cf| == |p + tail| && SettledAfterConfirmed(p, tail)
    ensures var owed := Candidates(p, SettledKeys(p + tail));
            var again := KeysIn(Candidates(tail, SettledKeys(tail)));
            var full := Full(h, book, p + tail, cf);
            var restored := FromSnapshot(h, book, s, tail, ct);
            && (full.hashes == restored.hashes <==> HashAll(map[], owed) - again == s.hashes - again)
            && (full.pool.queues == restored.pool.queues
                <==> EnqueueAll(EMPTY_QUEUES, MatchesIn(owed)) == EnqueueAll(EMPTY_QUEUES, s.queued))
            && (SameTrades(full.pool.queues, restored.pool.queues) <==> multiset(MatchesIn(owed)) == multiset(s.queued))
  {
    hide *;
    var owed := Candidates(p, SettledKeys(p + tail));
    var last := Candidates(tail, SettledKeys(tail));
    SettlementSides(h, book, s, p, tail, ct, cf);
    HashAllSameIff(HashAll(map[], owed), s.hashes, last);
    EnqueueAllSameIff(EnqueueAll(EMPTY_QUEUES, MatchesIn(owed)), EnqueueAll(EMPTY_QUEUES, s.queued), MatchesIn(last));
    EnqueueAllBagIff(MatchesIn(owed), s.queued, MatchesIn(last));
  }

  // ---- The sequencing buffer ----

  lemma {:induction false} AppliedByFold(h: Hashes, c: Core, es: seq<WalEntry>, clocks: seq<u64>)
    requires |clocks| == |es|
    ensures FoldCore(h, c, es, clocks).applied == c.applied + AcceptedSet(es)
    decreases |es|
  {
    if es != [] {
      var i := |es| - 1;
      AppliedByFold(h, c, es[..i], clocks[..i]);
      hide Add, AppendAll, Append, AddPending;
    }
  }

  function AcceptedSet(es: seq<WalEntry>): set<Id> {
    if es == [] then {}
    else
      AcceptedSet(es[..|es| - 1]) + (if es[|es| - 1].OrderAccepted? then {es[|es| - 1].order.id} else {})
  }

  lemma AppliedByReplay(h: Hashes, book: Book, es: seq<WalEntry>, clocks: seq<u64>)
    requires |clocks| == |es|
    ensures Full(h, book, es, clocks).core.applied == AcceptedSet(es)
  {
    hide FoldCore, HashAll, ConfirmAll, Candidates, SettledKeys, Unapplied, IdsIn, DataAll, Replay, AcceptedSet;
    ReplayParts(h, NewNode(book), es, clocks);
    AppliedByFold(h, NewCore(book), es, clocks);
  }

  lemma {:induction false} UnappliedConcat(a: seq<Buffered>, b: seq<Buffered>, applied: set<Id>)
    ensures Unapplied(a + b, applied) == Unapplied(a, applied) + Unapplied(b, applied)
  {
    if b == [] {
      assert a + b == a;
    } else {
      assert (a + b)[..|a + b| - 1] == a + b[..|b| - 1];
      UnappliedConcat(a, b[..|b| - 1], applied);
    }
  }

  lemma {:induction false} UnappliedEmptyIff(qs: seq<Buffered>, applied: set<Id>)
    ensures Unapplied(qs, applied) == [] <==> forall i :: 0 <= i < |qs| ==> qs[i].0.id in applied
  {
    if qs != [] {
      var init := qs[..|qs| - 1];
      UnappliedEmptyIff(init, applied);
      assert forall i :: 0 <= i < |init| ==> init[i] == qs[i];
    }
  }

  lemma BufferSides(h: Hashes, book: Book, p: seq<WalEntry>, cp: seq<u64>, tail: seq<WalEntry>, ct: seq<u64>,
      cf: seq<u64>)
    requires |cp| == |p| && |ct| == |tail| && |cf| == |p + tail|
    ensures var full := Full(h, book, p + tail, cf);
            var restored := FromSnapshot(h, book, BuildSnapshot(Full(h, book, p, cp)), tail, ct);
            var u := Unapplied(QueuedOrders(p), full.core.applied);
            var v := Unapplied(QueuedOrders(tail), full.core.applied);
            && full.buffer == IdsIn(u + v) && full.data == DataAll(map[], u + v)
            && restored.buffer == IdsIn(v) && restored.data == DataAll(map[], v)
  {
    SnapshotTailCore(h, book, p, cp, tail, ct, cf, false);
    RestoredPrefix(h, book, p, cp);
    hide FoldCore, HashAll, ConfirmAll, Candidates, SettledKeys, Unapplied, IdsIn, DataAll, Replay, EnqueueAll,
        MatchesIn,
         ApplySnapshot, BuildSnapshot, QueuedOrders;
    ReplayParts(h, NewNode(book), p + tail, cf);
    ReplayParts(h, ApplySnapshot(NewNode(book), BuildSnapshot(Full(h, book, p, cp))), tail, ct);
    LogConcat(p, tail, {});
    UnappliedConcat(QueuedOrders(p), QueuedOrders(tail), Full(h, book, p + tail, cf).core.applied);
    assert forall x: seq<Id> :: [] + x == x;
  }

  /** The sequencing buffer is not in the snapshot: it agrees if and only if every order queued before
      the snapshot is accepted somewhere in the log. */
  lemma SnapshotTailBufferIff(h: Hashes, book: Book, p: seq<WalEntry>, cp: seq<u64>, tail: seq<WalEntry>,
      ct: seq<u64>, cf: seq<u64>)
    requires |cp| == |p| && |ct| == |tail| && |cf| == |p + tail|
    ensures var full := Full(h, book, p + tail, cf);
            var restored := FromSnapshot(h, book, BuildSnapshot(Full(h, book, p, cp)), tail, ct);
            && (full.buffer == restored.buffer
                <==> forall i :: 0 <= i < |QueuedOrders(p)| ==> QueuedOrders(p)[i].0.id in AcceptedSet(p + tail))
            && (full.buffer == restored.buffer ==> full.data == restored.data)
  {
    var full := Full(h, book, p + tail, cf);
    BufferSides(h, book, p, cp, tail, ct, cf);
    AppliedByReplay(h, book, p + tail, cf);
    hide Full, FromSnapshot, AcceptedSet, Unapplied, IdsIn, DataAll, QueuedOrders;
    var u := Unapplied(QueuedOrders(p), full.core.applied);
    var v := Unapplied(QueuedOrders(tail), full.core.applied);
    UnappliedEmptyIff(QueuedOrders(p), full.core.applied);
    if u == [] {
      assert u + v == v;
    } else {
      assert |IdsIn(u + v)| == |u| + |v| && |IdsIn(v)| == |v|;
    }
  }

  // ---- What a full replay leaves to settle ----

  /** No match is confirmed twice. */
  ghost predicate ConfirmedOnce(es: seq<WalEntry>) {
    forall i, j | 0 <= i < j < |es| && es[i].CommitConfirmed? && es[j].CommitConfirmed? ::
      KeyOf(es[i].m) != KeyOf(es[j].m)
  }

  ghost predicate Submitted(es: seq<WalEntry>, k: Key) {
    exists j :: 0 <= j < |es| && es[j].BatchSubmitted? && k in es[j].keys
  }

  /** The confirmation of `m` is in the log and no checkpoint names it. */
  ghost predicate Outstanding(es: seq<WalEntry>, m: Match, tradeHash: Id) {
    CommitConfirmed(m, tradeHash) in es && !Submitted(es, KeyOf(m))
  }

  lemma {:induction false} SettledIsSubmitted(es: seq<WalEntry>, k: Key)
    ensures k in SettledKeys(es) <==> Submitted(es, k)
  {
    if es != [] {
      var init := es[..|es| - 1];
      SettledIsSubmitted(init, k);
      assert forall i :: 0 <= i < |init| ==> init[i] == es[i];
      if Submitted(init, k) {
        var j :| 0 <= j < |init| && init[j].BatchSubmitted? && k in init[j].keys;
        assert es[j].BatchSubmitted? && k in es[j].keys;
      }
      if Submitted(es, k) {
        var j :| 0 <= j < |es| && es[j].BatchSubmitted? && k in es[j].keys;
        if j < |init| { assert init[j].BatchSubmitted? && k in init[j].keys; }
      }
    }
  }

  lemma {:induction false} CandidateIsEntry(es: seq<WalEntry>, settled: set<Key>, c: Candidate)
    ensures c in Candidates(es, settled) <==> CommitConfirmed(c.0, c.1) in es && KeyOf(c.0) !in settled
  {
    if es != [] {
      CandidateIsEntry(es[..|es| - 1], settled, c);
      assert es == es[..|es| - 1] + [es[|es| - 1]];
    }
  }

  ghost predicate DistinctKeys(cs: seq<Candidate>) {
    forall i, j :: 0 <= i < j < |cs| ==> KeyOf(cs[i].0) != KeyOf(cs[j].0)
  }

  lemma ConfirmedOncePrefix(es: seq<WalEntry>)
    requires es != [] && ConfirmedOnce(es)
    ensures ConfirmedOnce(es[..|es| - 1])
    ensures es[|es| - 1].CommitConfirmed? ==> KeyOf(es[|es| - 1].m) !in ConfirmKeys(es[..|es| - 1])
  {
    var init, e := es[..|es| - 1], es[|es| - 1];
    assert forall i :: 0 <= i < |init| ==> init[i] == es[i];
    if e.CommitConfirmed? && KeyOf(e.m) in ConfirmKeys(init) {
      var i := ConfirmKeyEntry(init, KeyOf(e.m));
      assert false;
    }
  }

  lemma {:induction false} ConfirmKeyEntry(es: seq<WalEntry>, k: Key) returns (i: nat)
    requires k in ConfirmKeys(es)
    ensures i < |es| && es[i].CommitConfirmed? && KeyOf(es[i].m) == k
  {
    var e := es[|es| - 1];
    if e.CommitConfirmed? && KeyOf(e.m) == k {
      i := |es| - 1;
    } else {
      i := ConfirmKeyEntry(es[..|es| - 1], k);
    }
  }

  lemma {:induction false} CandidatesDistinct(es: seq<WalEntry>, settled: set<Key>)
    requires ConfirmedOnce(es)
    ensures DistinctKeys(Candidates(es, settled))
  {
    if es != [] {
      var init, e := es[..|es| - 1], es[|es| - 1];
      ConfirmedOncePrefix(es);
      CandidatesDistinct(init, settled);
      CandidateKeys(init, settled);
      if e.CommitConfirmed? && KeyOf(e.m) !in settled {
        DistinctSnoc(Candidates(init, settled), (e.m, e.tradeHash));
      } else {
        assert Candidates(init, settled) + [] == Candidates(init, settled);
      }
    }
  }

  lemma DistinctSnoc(cs: seq<Candidate>, c: Candidate)
    requires DistinctKeys(cs) && KeyOf(c.0) !in KeysIn(cs)
    ensures DistinctKeys(cs + [c])
  {
    forall i | 0 <= i < |cs| ensures KeyOf(cs[i].0) != KeyOf(c.0) {
      assert KeyOf(cs[i].0) in KeysIn(cs);
    }
  }

  lemma {:induction false} HashOf(cs: seq<Candidate>, i: nat)
    requires DistinctKeys(cs) && i < |cs|
    ensures KeyOf(cs[i].0) in HashAll(map[], cs) && HashAll(map[], cs)[KeyOf(cs[i].0)] == cs[i].1
  {
    if i < |cs| - 1 {
      HashOf(cs[..|cs| - 1], i);
      assert KeyOf(cs[i].0) != KeyOf(cs[|cs| - 1].0);
    }
  }

  lemma {:induction false} MatchOnce(cs: seq<Candidate>, m: Match)
    requires DistinctKeys(cs)
    ensures multiset(MatchesIn(cs))[m] == if m in MatchesIn(cs) then 1 else 0
  {
    if cs != [] {
      var init, c := cs[..|cs| - 1], cs[|cs| - 1];
      MatchOnce(init, m);
      MatchesMember(init, c.0);
      assert forall i :: 0 <= i < |init| ==> init[i] == cs[i] && KeyOf(cs[i].0) != KeyOf(c.0);
    }
  }

  /** The confirmed hashes are those of the candidates. */
  ghost predicate HashesAre(hashes: map<Key, Id>, cs: seq<Candidate>) {
    && hashes.Keys == KeysIn(cs)
    && forall i :: 0 <= i < |cs| ==> KeyOf(cs[i].0) in hashes && hashes[KeyOf(cs[i].0)] == cs[i].1
  }

  /** The queues hold the candidates' matches, each once. */
  ghost predicate QueuesAre(q: Queues, cs: seq<Candidate>) {
    && (forall m :: m in QueuedTrades(q) <==> m in MatchesIn(cs))
    && (forall m :: multiset(QueuedTrades(q))[m] <= 1)
  }

  lemma HashesOfCandidates(cs: seq<Candidate>)
    requires DistinctKeys(cs)
    ensures HashesAre(HashAll(map[], cs), cs)
  {
    hide HashAll, KeysIn;
    HashAllKeys(map[], cs);
    forall i | 0 <= i < |cs|
      ensures KeyOf(cs[i].0) in HashAll(map[], cs) && HashAll(map[], cs)[KeyOf(cs[i].0)] == cs[i].1
    {
      HashOf(cs, i);
    }
  }

  lemma QueuesOfCandidates(cs: seq<Candidate>)
    requires DistinctKeys(cs)
    ensures QueuesAre(EnqueueAll(EMPTY_QUEUES, MatchesIn(cs)), cs)
  {
    var q := EnqueueAll(EMPTY_QUEUES, MatchesIn(cs));
    EnqueueAllBag(EMPTY_QUEUES, MatchesIn(cs));
    assert multiset(QueuedTrades(q)) == multiset(MatchesIn(cs));
    hide EnqueueAll, MatchesIn, QueuedTrades, DistinctKeys;
    forall m ensures m in QueuedTrades(q) <==> m in MatchesIn(cs) {
      assert m in QueuedTrades(q) <==> m in multiset(QueuedTrades(q));
      assert m in MatchesIn(cs) <==> m in multiset(MatchesIn(cs));
    }
    forall m ensures multiset(QueuedTrades(q))[m] <= 1 { MatchOnce(cs, m); }
  }

  /** After a full replay, the reconciliation list, the confirmed hashes and the batcher's queue hold
      exactly the confirmations no checkpoint names, each once. */
  lemma ReplayLeavesOutstanding(h: Hashes, book: Book, es: seq<WalEntry>, clocks: seq<u64>)
    requires |clocks| == |es| && ConfirmedOnce(es)
    ensures var n := Full(h, book, es, clocks);
            var cs := Candidates(es, SettledKeys(es));
            && DistinctKeys(cs) && (forall c :: c in cs <==> Outstanding(es, c.0, c.1))
            && HashesAre(n.hashes, cs) && QueuesAre(n.pool.queues, cs)
  {
    var cs := Candidates(es, SettledKeys(es));
    RestoredPrefix(h, book, es, clocks);
    CandidatesDistinct(es, SettledKeys(es));
    hide Full, HashAll, Candidates, SettledKeys, EnqueueAll, MatchesIn, FoldCore, ApplySnapshot, BuildSnapshot,
         ConfirmedOnce, Submitted, HashesAre, QueuesAre, DistinctKeys;
    HashesOfCandidates(cs);
    QueuesOfCandidates(cs);
    forall c ensures c in cs <==> Outstanding(es, c.0, c.1) {
      CandidateIsEntry(es, SettledKeys(es), c);
      SettledIsSubmitted(es, KeyOf(c.0));
    }
  }

  // ---- What a full replay can pay ----

  /** Each replayed confirmation deposits its value, so an account holds what it has to pay, modulo the
      width of the balance. */
  lemma {:induction false} ReplayedBalance(cs: seq<Candidate>, a: Account)
    ensures BalanceOf(ConfirmAll(Pool(EMPTY_QUEUES, map[]), cs).ledger, a) == Batcher.NeedBy(MatchesIn(cs), a) % TWO_64
    decreases |cs|
  {
    hide *;
    if cs == [] {
      NothingReplayed(a);
    } else {
      var init, c := SplitLast(cs);
      ReplayedBalance(init, a);
      AllSnoc(map[], Pool(EMPTY_QUEUES, map[]), init, c);
      ConfirmBalance(ConfirmAll(Pool(EMPTY_QUEUES, map[]), init), c.0, a);
      Batcher.NeedSnoc(MatchesIn(init), c.0, a);
      WrapSum(Batcher.NeedBy(MatchesIn(init), a), Batcher.Value(c.0));
    }
  }

  lemma NothingReplayed(a: Account)
    ensures BalanceOf(ConfirmAll(Pool(EMPTY_QUEUES, map[]), []).ledger, a) == 0 && Batcher.NeedBy(MatchesIn([]), a) == 0
  {
  }

  lemma ConfirmBalance(p: Pool, m: Match, a: Account)
    ensures BalanceOf(Confirm(p, m).ledger, a) ==
            if Batcher.Taker(m) == a then (BalanceOf(p.ledger, a) + Batcher.Value(m)) % TWO_64
            else BalanceOf(p.ledger, a)
  {
    hide Enqueue, Batcher.Value;
  }

  ghost predicate NeedsFit(ms: seq<Match>) {
    forall a :: Batcher.NeedBy(ms, a) < TWO_64
  }

  lemma ReplayPaysIff(cs: seq<Candidate>)
    ensures Batcher.CanPay(ConfirmAll(Pool(EMPTY_QUEUES, map[]), cs).ledger, MatchesIn(cs)) <==> NeedsFit(MatchesIn(cs))
  {
    hide ConfirmAll, MatchesIn, Batcher.NeedBy;
    var l := ConfirmAll(Pool(EMPTY_QUEUES, map[]), cs).ledger;
    forall a ensures Batcher.NeedBy(MatchesIn(cs), a) <= BalanceOf(l, a)
                     <==> Batcher.NeedBy(MatchesIn(cs), a) < TWO_64 {
      ReplayedBalance(cs, a);
    }
  }

  lemma CoveredIff(l: Balances, q: Queues, ms: seq<Match>)
    requires multiset(QueuedTrades(q)) == multiset(ms)
    ensures Covered(Pool(q, l)) <==> Batcher.Bounded(ms) && Batcher.CanPay(l, ms)
  {
    hide Batcher.Bounded, Batcher.CanPay, QueuedTrades;
    if Covered(Pool(q, l)) {
      BoundedBag(QueuedTrades(q), ms);
      CanPayBag(l, QueuedTrades(q), ms);
    }
    if Batcher.Bounded(ms) && Batcher.CanPay(l, ms) {
      BoundedBag(ms, QueuedTrades(q));
      CanPayBag(l, ms, QueuedTrades(q));
    }
  }

  /** A full replay deposits for every trade it queues: the rebuilt ledger covers the rebuilt queue if
      and only if no trade's value overflows and no taker's outstanding trades together do. */
  lemma ReplayedQueueCoveredIff(h: Hashes, book: Book, es: seq<WalEntry>, clocks: seq<u64>)
    requires |clocks| == |es|
    ensures var ms := MatchesIn(Candidates(es, SettledKeys(es)));
            Covered(Full(h, book, es, clocks).pool)
            <==> Batcher.Bounded(ms) && NeedsFit(ms)
  {
    var cs := Candidates(es, SettledKeys(es));
    var pool := ConfirmAll(Pool(EMPTY_QUEUES, map[]), cs);
    hide FoldCore, HashAll, ConfirmAll, Candidates, SettledKeys, Unapplied, IdsIn, DataAll, Replay, MatchesIn,
         Covered, QueuedOrders, Batcher.NeedBy, Batcher.Bounded, Batcher.CanPay, NeedsFit, EnqueueAll, QueuedTrades;
    ReplayParts(h, NewNode(book), es, clocks);
    ConfirmAllQueues(Pool(EMPTY_QUEUES, map[]), cs);
    EnqueueAllBag(EMPTY_QUEUES, MatchesIn(cs));
    NothingQueued();
    CoveredIff(pool.ledger, pool.queues, MatchesIn(cs));
    assert Full(h, book, es, clocks).pool == pool;
    assert multiset(QueuedTrades(pool.queues)) == multiset(MatchesIn(cs));
    ReplayPaysIff(cs);
  }

  lemma NothingQueued()
    ensures QueuedTrades(EMPTY_QUEUES) == []
  {
  }
}
