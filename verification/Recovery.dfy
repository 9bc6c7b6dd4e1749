/** Rebuilding a node from its write-ahead log, from a snapshot and the tail of the log, and when the
    two agree. */
module Recovery {
  import opened Types
  import opened Engine
  import opened HashChain
  import opened Settlement
  import opened SettlementRuns
  import opened NodeState

  type Candidate = (Match, Id)

  type Buffered = (Order, Receipt)

  // ---- Replay: two passes over the entries and a final one over the queued orders ----

  function SettledKeys(es: seq<WalEntry>): set<Key> {
    if es == [] then {}
    else
      var e := es[|es| - 1];
      SettledKeys(es[..|es| - 1]) + (if e.BatchSubmitted? then set k | k in e.keys else {})
  }

  function QueuedOrders(es: seq<WalEntry>): seq<Buffered> {
    if es == [] then []
    else
      var e := es[|es| - 1];
      QueuedOrders(es[..|es| - 1]) + (if e.OrderQueued? then [(e.queued, e.queuedReceipt)] else [])
  }

  /** The confirmations whose key is not settled, in log order. */
  function Candidates(es: seq<WalEntry>, settled: set<Key>): seq<Candidate> {
    if es == [] then []
    else
      var e := es[|es| - 1];
      Candidates(es[..|es| - 1], settled)
      + (if e.CommitConfirmed? && KeyOf(e.m) !in settled then [(e.m, e.tradeHash)] else [])
  }

  function ConfirmLocally(n: Node, m: Match, tradeHash: Id): Node {
    n.(hashes := n.hashes[KeyOf(m) := tradeHash], pool := Confirm(n.pool, m))
  }

  function ReplayStep(h: Hashes, n: Node, e: WalEntry, clock: u64, settled: set<Key>): Node {
    var n' := n.(core := CoreStep(h, n.core, e, clock));
    if e.CommitConfirmed? && KeyOf(e.m) !in settled then ConfirmLocally(n', e.m, e.tradeHash) else n'
  }

  function ReplayFold(h: Hashes, n: Node, es: seq<WalEntry>, clocks: seq<u64>, settled: set<Key>): Node
    requires |clocks| == |es|
    decreases |es|
  {
    if es == [] then n
    else
      var i := |es| - 1;
      ReplayStep(h, ReplayFold(h, n, es[..i], clocks[..i], settled), es[i], clocks[i], settled)
  }

  function Requeue(n: Node, qs: seq<Buffered>): Node {
    if qs == [] then n
    else
      var n', q := Requeue(n, qs[..|qs| - 1]), qs[|qs| - 1];
      if q.0.id in n.core.applied then n'
      else n'.(buffer := n'.buffer + [q.0.id], data := n'.data[q.0.id := q])
  }

  function Replay(h: Hashes, n: Node, es: seq<WalEntry>, clocks: seq<u64>): Node
    requires |clocks| == |es|
  {
    Requeue(ReplayFold(h, n, es, clocks, SettledKeys(es)), QueuedOrders(es))
  }

  // ---- Snapshots ----

  datatype Snapshot = Snapshot(
    bids: seq<Level>, asks: seq<Level>, cursor: nat, orderLog: Chain<Receipt>, matchLog: Chain<Match>,
    pending: map<Key, Match>, hashes: map<Key, Id>, applied: set<Id>, queued: seq<Match>)

  function BuildSnapshot(n: Node): Snapshot {
    var c := n.core;
    Snapshot(c.book.bids, c.book.asks, c.book.cursor, c.orderLog, c.matchLog, c.pending, n.hashes, c.applied,
             QueuedTrades(n.pool.queues))
  }

  function ApplySnapshot(n: Node, s: Snapshot): Node {
    n.(core := Core(n.core.book.(bids := s.bids, asks := s.asks, cursor := s.cursor),
                    s.orderLog, s.matchLog, s.pending, s.applied),
       hashes := s.hashes,
       pool := n.pool.(queues := EnqueueAll(n.pool.queues, s.queued)))
  }

  /** The configured part of a book, which a snapshot does not carry. */
  ghost predicate SameConfig(a: Book, b: Book) {
    a.symbol == b.symbol && a.activeNodes == b.activeNodes && a.fees == b.fees
  }

  /** Restoring a snapshot on a newly configured node gives back everything but the ledger and the
      sequencing buffer. */
  lemma SnapshotRoundTrip(n: Node, base: Node)
    requires TiersOk(n.pool.queues) && SameConfig(n.core.book, base.core.book) && base.pool.queues == EMPTY_QUEUES
    ensures ApplySnapshot(base, BuildSnapshot(n)) ==
            n.(pool := Pool(n.pool.queues, base.pool.ledger), buffer := base.buffer, data := base.data)
  {
    hide EnqueueAll;
    RequeueRestores(n.pool.queues);
  }

  // ---- What replay computes, part by part ----

  function HashAll(hashes: map<Key, Id>, cs: seq<Candidate>): map<Key, Id> {
    if cs == [] then hashes
    else HashAll(hashes, cs[..|cs| - 1])[KeyOf(cs[|cs| - 1].0) := cs[|cs| - 1].1]
  }

  function ConfirmAll(p: Pool, cs: seq<Candidate>): Pool {
    if cs == [] then p else Confirm(ConfirmAll(p, cs[..|cs| - 1]), cs[|cs| - 1].0)
  }

  function MatchesIn(cs: seq<Candidate>): seq<Match> {
    if cs == [] then [] else MatchesIn(cs[..|cs| - 1]) + [cs[|cs| - 1].0]
  }

  lemma AllSnoc(hashes: map<Key, Id>, p: Pool, cs: seq<Candidate>, c: Candidate)
    ensures HashAll(hashes, cs + [c]) == HashAll(hashes, cs)[KeyOf(c.0) := c.1]
    ensures ConfirmAll(p, cs + [c]) == Confirm(ConfirmAll(p, cs), c.0)
    ensures MatchesIn(cs + [c]) == MatchesIn(cs) + [c.0]
  {
    assert (cs + [c])[..|cs|] == cs;
  }

  lemma {:induction false} ReplayFoldParts(h: Hashes, n: Node, es: seq<WalEntry>, clocks: seq<u64>, settled: set<Key>)
    requires |clocks| == |es|
    ensures ReplayFold(h, n, es, clocks, settled) ==
            Node(FoldCore(h, n.core, es, clocks), HashAll(n.hashes, Candidates(es, settled)),
                 ConfirmAll(n.pool, Candidates(es, settled)), n.buffer, n.data)
    decreases |es|
  {
    if es != [] {
      var i := |es| - 1;
      ReplayFoldParts(h, n, es[..i], clocks[..i], settled);
      var cs := Candidates(es[..i], settled);
      var step := if es[i].CommitConfirmed? && KeyOf(es[i].m) !in settled then [(es[i].m, es[i].tradeHash)] else [];
      assert Candidates(es, settled) == cs + step;
      hide CoreStep, HashAll, ConfirmAll, Confirm, Candidates;
      if step != [] {
        AllSnoc(n.hashes, n.pool, cs, step[0]);
      } else {
        assert cs + step == cs;
      }
    }
  }

  /** The orders that were queued and never applied, in log order. */
  function Unapplied(qs: seq<Buffered>, applied: set<Id>): seq<Buffered> {
    if qs == [] then []
    else
      Unapplied(qs[..|qs| - 1], applied) + (if qs[|qs| - 1].0.id in applied then [] else [qs[|qs| - 1]])
  }

  function IdsIn(qs: seq<Buffered>): (ids: seq<Id>)
    ensures |ids| == |qs|
  {
    seq(|qs|, i requires 0 <= i < |qs| => qs[i].0.id)
  }

  function DataAll(data: map<Id, Buffered>, qs: seq<Buffered>): map<Id, Buffered> {
    if qs == [] then data else DataAll(data, qs[..|qs| - 1])[qs[|qs| - 1].0.id := qs[|qs| - 1]]
  }

  lemma DataSnoc(data: map<Id, Buffered>, qs: seq<Buffered>, q: Buffered)
    ensures DataAll(data, qs + [q]) == DataAll(data, qs)[q.0.id := q] && IdsIn(qs + [q]) == IdsIn(qs) + [q.0.id]
  {
    assert (qs + [q])[..|qs|] == qs;
  }

  lemma {:induction false} RequeueParts(n: Node, qs: seq<Buffered>)
    ensures var u := Unapplied(qs, n.core.applied);
            Requeue(n, qs) == n.(buffer := n.buffer + IdsIn(u), data := DataAll(n.data, u))
  {
    if qs != [] {
      var q := qs[|qs| - 1];
      RequeueParts(n, qs[..|qs| - 1]);
      var u := Unapplied(qs[..|qs| - 1], n.core.applied);
      hide DataAll, IdsIn;
      if q.0.id in n.core.applied {
        assert u + [] == u;
      } else {
        DataSnoc(n.data, u, q);
        ConcatAssociates(n.buffer, IdsIn(u), [q.0.id]);
      }
    } else {
      assert n.buffer + IdsIn([]) == n.buffer;
    }
  }

  /** Replay in closed form: the core by folding, hashes and batcher from the unsettled
      confirmations, the buffer from the queued orders never applied. */
  lemma ReplayParts(h: Hashes, n: Node, es: seq<WalEntry>, clocks: seq<u64>)
    requires |clocks| == |es|
    ensures var core := FoldCore(h, n.core, es, clocks);
            var cs := Candidates(es, SettledKeys(es));
            var u := Unapplied(QueuedOrders(es), core.applied);
            Replay(h, n, es, clocks) ==
            Node(core, HashAll(n.hashes, cs), ConfirmAll(n.pool, cs), n.buffer + IdsIn(u), DataAll(n.data, u))
  {
    hide FoldCore, HashAll, ConfirmAll, Candidates, Unapplied, IdsIn, DataAll, Requeue, ReplayFold;
    ReplayFoldParts(h, n, es, clocks, SettledKeys(es));
    RequeueParts(ReplayFold(h, n, es, clocks, SettledKeys(es)), QueuedOrders(es));
  }

  // ---- Splitting a log ----

  lemma LogSnoc(es: seq<WalEntry>, e: WalEntry, settled: set<Key>)
    ensures SettledKeys(es + [e]) == SettledKeys(es) + (if e.BatchSubmitted? then set k | k in e.keys else {})
    ensures QueuedOrders(es + [e]) == QueuedOrders(es) + (if e.OrderQueued? then [(e.queued, e.queuedReceipt)] else [])
    ensures Candidates(es + [e], settled) == Candidates(es, settled)
            + (if e.CommitConfirmed? && KeyOf(e.m) !in settled then [(e.m, e.tradeHash)] else [])
    ensures ConfirmKeys(es + [e]) == ConfirmKeys(es) + (if e.CommitConfirmed? then {KeyOf(e.m)} else {})
  {
    assert (es + [e])[..|es|] == es;
  }

  function ConfirmKeys(es: seq<WalEntry>): set<Key> {
    if es == [] then {}
    else
      ConfirmKeys(es[..|es| - 1]) + (if es[|es| - 1].CommitConfirmed? then {KeyOf(es[|es| - 1].m)} else {})
  }

  lemma EmptyLog(p: seq<WalEntry>, settled: set<Key>)
    ensures p + [] == p && SettledKeys([]) == {} && QueuedOrders([]) == [] && ConfirmKeys([]) == {}
    ensures Candidates([], settled) == []
  {
  }

  lemma {:induction false} LogConcat(p: seq<WalEntry>, q: seq<WalEntry>, settled: set<Key>)
    ensures SettledKeys(p + q) == SettledKeys(p) + SettledKeys(q)
    ensures QueuedOrders(p + q) == QueuedOrders(p) + QueuedOrders(q)
    ensures Candidates(p + q, settled) == Candidates(p, settled) + Candidates(q, settled)
    decreases |q|
  {
    hide SettledKeys, QueuedOrders, Candidates, ConfirmKeys;
    if q == [] {
      EmptyLog(p, settled);
    } else {
      var init, e := SplitLast(q);
      LogConcat(p, init, settled);
      assert p + q == (p + init) + [e];
      LogSnoc(p + init, e, settled);
      LogSnoc(init, e, settled);
    }
  }

  function KeysIn(cs: seq<Candidate>): set<Key> {
    set i | 0 <= i < |cs| :: KeyOf(cs[i].0)
  }

  lemma {:induction false} CandidateKeys(es: seq<WalEntry>, settled: set<Key>)
    ensures KeysIn(Candidates(es, settled)) == ConfirmKeys(es) - settled
  {
    if es != [] {
      var i := |es| - 1;
      CandidateKeys(es[..i], settled);
      var cs := Candidates(es[..i], settled);
      if es[i].CommitConfirmed? && KeyOf(es[i].m) !in settled {
        KeysSnoc(cs, (es[i].m, es[i].tradeHash));
      } else {
        assert cs + [] == cs;
      }
    }
  }

  lemma KeysSnoc(cs: seq<Candidate>, c: Candidate)
    ensures KeysIn(cs + [c]) == KeysIn(cs) + {KeyOf(c.0)}
  {
    forall k | k in KeysIn(cs) + {KeyOf(c.0)} ensures k in KeysIn(cs + [c]) {
      if k == KeyOf(c.0) {
        assert (cs + [c])[|cs|] == c;
      } else {
        var i :| 0 <= i < |cs| && KeyOf(cs[i].0) == k;
        assert (cs + [c])[i] == cs[i];
      }
    }
  }

  lemma {:induction false} HashAllKeys(hashes: map<Key, Id>, cs: seq<Candidate>)
    ensures HashAll(hashes, cs).Keys == hashes.Keys + KeysIn(cs)
  {
    if cs != [] {
      HashAllKeys(hashes, cs[..|cs| - 1]);
      KeysSnoc(cs[..|cs| - 1], cs[|cs| - 1]);
      assert cs == cs[..|cs| - 1] + [cs[|cs| - 1]];
    }
  }

  /** Two settled sets that treat every confirmation alike leave the same candidates. */
  lemma {:induction false} SameCandidates(es: seq<WalEntry>, s: set<Key>, t: set<Key>)
    requires ConfirmKeys(es) * s == ConfirmKeys(es) * t
    ensures Candidates(es, s) == Candidates(es, t)
  {
    if es != [] {
      var init, e := es[..|es| - 1], es[|es| - 1];
      assert ConfirmKeys(init) <= ConfirmKeys(es);
      assert ConfirmKeys(init) * s == ConfirmKeys(init) * (ConfirmKeys(es) * s);
      assert ConfirmKeys(init) * t == ConfirmKeys(init) * (ConfirmKeys(es) * t);
      SameCandidates(init, s, t);
      if e.CommitConfirmed? {
        assert KeyOf(e.m) in ConfirmKeys(es);
        assert KeyOf(e.m) in s <==> KeyOf(e.m) in ConfirmKeys(es) * s;
        assert KeyOf(e.m) in t <==> KeyOf(e.m) in ConfirmKeys(es) * t;
      }
    }
  }

  // ---- Queues after confirmations ----

  lemma {:induction false} ConfirmAllQueues(p: Pool, cs: seq<Candidate>)
    ensures ConfirmAll(p, cs).queues == EnqueueAll(p.queues, MatchesIn(cs))
  {
    if cs != [] {
      ConfirmAllQueues(p, cs[..|cs| - 1]);
      EnqueueSnoc(p.queues, MatchesIn(cs[..|cs| - 1]), cs[|cs| - 1].0);
    }
  }

  lemma {:induction false} EnqueueAllBag(q: Queues, ms: seq<Match>)
    ensures multiset(QueuedTrades(EnqueueAll(q, ms))) == multiset(QueuedTrades(q)) + multiset(ms)
  {
    hide QueuedTrades, Enqueue;
    if ms != [] {
      EnqueueAllBag(q, ms[..|ms| - 1]);
      EnqueueBag(EnqueueAll(q, ms[..|ms| - 1]), ms[|ms| - 1]);
      assert ms == ms[..|ms| - 1] + [ms[|ms| - 1]];
    }
  }

  lemma {:induction false} EnqueueAllTiers(q: Queues, ms: seq<Match>)
    requires TiersOk(q)
    ensures TiersOk(EnqueueAll(q, ms))
  {
    if ms != [] { EnqueueAllTiers(q, ms[..|ms| - 1]); }
  }

  lemma {:induction false} MatchesConcat(a: seq<Candidate>, b: seq<Candidate>)
    ensures MatchesIn(a + b) == MatchesIn(a) + MatchesIn(b)
    ensures forall hashes: map<Key, Id> :: HashAll(hashes, a + b) == HashAll(HashAll(hashes, a), b)
  {
    if b == [] {
      assert a + b == a;
    } else {
      assert (a + b)[..|a + b| - 1] == a + b[..|b| - 1];
      MatchesConcat(a, b[..|b| - 1]);
    }
  }

  lemma {:induction false} MatchesMember(cs: seq<Candidate>, m: Match)
    ensures m in MatchesIn(cs) <==> exists i :: 0 <= i < |cs| && cs[i].0 == m
  {
    if cs != [] {
      MatchesMember(cs[..|cs| - 1], m);
      assert forall i :: 0 <= i < |cs| - 1 ==> cs[..|cs| - 1][i] == cs[i];
    }
  }
}
