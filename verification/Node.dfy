/** The state of one node and the write-ahead log entries that drive it. */
module NodeState {
  import opened Types
  import opened Engine
  import opened HashChain
  import opened Settlement
  import opened SettlementRuns
  import BookTheorems

  datatype WalEntry =
    | OrderAccepted(order: Order, receipt: Receipt, matchTimestampUs: Option<u64>)
    | CommitConfirmed(m: Match, tradeHash: Id)
    | BatchSubmitted(keys: seq<Key>)
    | OrderQueued(queued: Order, queuedReceipt: Receipt)

  /** The hashes of the two logs. */
  datatype Hashes = Hashes(ofReceipt: (nat, Id, Receipt) -> Id, ofMatch: (nat, Id, Match) -> Id)

  /** The part of the state that accepted orders and confirmations alone determine. */
  datatype Core = Core(
    book: Book, orderLog: Chain<Receipt>, matchLog: Chain<Match>, pending: map<Key, Match>, applied: set<Id>)

  /** The whole node: besides the core, the settlement side (confirmed hashes, batcher) and the
      sequencing buffer (arrival order and data of every order not yet applied). */
  datatype Node = Node(
    core: Core, hashes: map<Key, Id>, pool: Pool, buffer: seq<Id>, data: map<Id, (Order, Receipt)>)

  function NewCore(book: Book): Core {
    Core(book, EmptyChain(), EmptyChain(), map[], {})
  }

  function NewNode(book: Book): Node {
    Node(NewCore(book), map[], Pool(EMPTY_QUEUES, map[]), [], map[])
  }

  function AddPending(pending: map<Key, Match>, ms: seq<Match>): map<Key, Match> {
    if ms == [] then pending
    else AddPending(pending, ms[..|ms| - 1])[KeyOf(ms[|ms| - 1]) := ms[|ms| - 1]]
  }

  /** Applying an accepted order at time `t`. */
  function Accept(h: Hashes, c: Core, o: Order, r: Receipt, t: u64): Core {
    var added := Add(c.book, o, t);
    Core(added.book, Append(h.ofReceipt, c.orderLog, r), AppendAll(h.ofMatch, c.matchLog, added.matches),
         AddPending(c.pending, added.matches), c.applied + {o.id})
  }

  /** The time an accepted order is matched at: the recorded one, or the clock if none was recorded. */
  function MatchTime(recorded: Option<u64>, clock: u64): u64 {
    match recorded
    case Some(t) => t
    case None => clock
  }

  /** Matches of one order, all at the recorded time, or at the clock's when none was recorded. */
  ghost predicate MatchedAt(ms: seq<Match>, taker: Id, recorded: Option<u64>, clock: u64) {
    forall i :: 0 <= i < |ms| ==>
      ms[i].takerId == taker && ms[i].timestampUs == if recorded.Some? then recorded.value else clock
  }

  lemma AcceptedAt(b: Book, o: Order, recorded: Option<u64>, clock: u64)
    ensures MatchedAt(Add(b, o, MatchTime(recorded, clock)).matches, o.id, recorded, clock)
  {
    hide Sweep, Settle;
  }

  function CoreStep(h: Hashes, c: Core, e: WalEntry, clock: u64): Core {
    match e
    case OrderAccepted(o, r, ts) => Accept(h, c, o, r, MatchTime(ts, clock))
    case CommitConfirmed(m, _) => c.(pending := c.pending - {KeyOf(m)})
    case BatchSubmitted(_) => c
    case OrderQueued(_, _) => c
  }

  /** Running entries against a core; `clocks` is the wall clock at each of them. */
  function FoldCore(h: Hashes, c: Core, es: seq<WalEntry>, clocks: seq<u64>): Core
    requires |clocks| == |es|
    decreases |es|
  {
    if es == [] then c
    else CoreStep(h, FoldCore(h, c, es[..|es| - 1], clocks[..|es| - 1]), es[|es| - 1], clocks[|es| - 1])
  }

  predicate Stamped(e: WalEntry) {
    e.OrderAccepted? ==> e.matchTimestampUs.Some?
  }

  ghost predicate AllStamped(es: seq<WalEntry>) {
    forall i :: 0 <= i < |es| ==> Stamped(es[i])
  }

  lemma FoldSnoc(h: Hashes, c: Core, es: seq<WalEntry>, clocks: seq<u64>, e: WalEntry, t: u64)
    requires |clocks| == |es|
    ensures FoldCore(h, c, es + [e], clocks + [t]) == CoreStep(h, FoldCore(h, c, es, clocks), e, t)
  {
    assert (es + [e])[..|es|] == es && (clocks + [t])[..|es|] == clocks;
  }

  lemma FoldNothing(h: Hashes, c: Core)
    ensures FoldCore(h, c, [], []) == c
  {
  }

  lemma SplitLast<T>(q: seq<T>) returns (init: seq<T>, last: T)
    requires q != []
    ensures q == init + [last] && forall p: seq<T> {:trigger p + q} :: p + q == (p + init) + [last]
  {
    init, last := q[..|q| - 1], q[|q| - 1];
  }

  lemma {:induction false} FoldConcat(h: Hashes, c: Core, p: seq<WalEntry>, cp: seq<u64>, q: seq<WalEntry>,
      cq: seq<u64>)
    requires |cp| == |p| && |cq| == |q|
    ensures FoldCore(h, c, p + q, cp + cq) == FoldCore(h, FoldCore(h, c, p, cp), q, cq)
    decreases |q|
  {
    hide FoldCore, CoreStep;
    if q == [] {
      assert p + q == p && cp + cq == cp;
      FoldNothing(h, FoldCore(h, c, p, cp));
    } else {
      var init, e := SplitLast(q);
      var times, t := SplitLast(cq);
      FoldConcat(h, c, p, cp, init, times);
      assert p + q == (p + init) + [e] && cp + cq == (cp + times) + [t];
      FoldSnoc(h, c, p + init, cp + times, e, t);
      FoldSnoc(h, FoldCore(h, c, p, cp), init, times, e, t);
    }
  }

  // ---- When two cores agree ----

  ghost predicate SameTip<T>(a: Chain<T>, b: Chain<T>) {
    Root(a) == Root(b) && NextSeq(a) == NextSeq(b)
  }

  ghost predicate SameUpToClock(a: map<Key, Match>, b: map<Key, Match>) {
    a.Keys == b.Keys && forall k :: k in a ==> BookTheorems.Erase(a[k]) == BookTheorems.Erase(b[k])
  }

  /** Exactly: book and cursor, both log tips, pending matches and applied ids. Otherwise pending
      matches agree up to the clock's two fields, and the match log in its length only. */
  ghost predicate Agrees(exact: bool, a: Core, b: Core) {
    && a.book == b.book
    && a.applied == b.applied
    && SameTip(a.orderLog, b.orderLog)
    && NextSeq(a.matchLog) == NextSeq(b.matchLog)
    && SameUpToClock(a.pending, b.pending)
    && (exact ==> SameTip(a.matchLog, b.matchLog) && a.pending == b.pending)
  }

  lemma AppendTip<T>(h: (nat, Id, T) -> Id, a: Chain<T>, b: Chain<T>, p: T)
    ensures NextSeq(Append(h, a, p)) == NextSeq(a) + 1
    ensures SameTip(a, b) ==> SameTip(Append(h, a, p), Append(h, b, p))
  {
  }

  lemma {:induction false} AppendAllTip<T>(h: (nat, Id, T) -> Id, a: Chain<T>, b: Chain<T>, ps: seq<T>)
    ensures NextSeq(AppendAll(h, a, ps)) == NextSeq(a) + |ps|
    ensures SameTip(a, b) ==> SameTip(AppendAll(h, a, ps), AppendAll(h, b, ps))
    decreases |ps|
  {
    if ps != [] {
      AppendTip(h, a, b, ps[0]);
      AppendAllTip(h, Append(h, a, ps[0]), Append(h, b, ps[0]), ps[1..]);
    }
  }

  lemma {:induction false} PendingUpToClock(a: map<Key, Match>, b: map<Key, Match>, ms: seq<Match>, ns: seq<Match>)
    requires SameUpToClock(a, b) && BookTheorems.EraseAll(ms) == BookTheorems.EraseAll(ns)
    ensures SameUpToClock(AddPending(a, ms), AddPending(b, ns))
    decreases |ms|
  {
    assert |ms| == |ns| by { assert |BookTheorems.EraseAll(ms)| == |BookTheorems.EraseAll(ns)|; }
    if ms != [] {
      var n := |ms| - 1;
      LastErased(ms, ns);
      PendingUpToClock(a, b, ms[..n], ns[..n]);
    }
  }

  lemma LastErased(ms: seq<Match>, ns: seq<Match>)
    requires BookTheorems.EraseAll(ms) == BookTheorems.EraseAll(ns) && |ms| == |ns| > 0
    ensures var n := |ms| - 1;
            && BookTheorems.Erase(ms[n]) == BookTheorems.Erase(ns[n]) && KeyOf(ms[n]) == KeyOf(ns[n])
            && BookTheorems.EraseAll(ms[..n]) == BookTheorems.EraseAll(ns[..n])
  {
    var n := |ms| - 1;
    forall i | 0 <= i <= n ensures BookTheorems.Erase(ms[i]) == BookTheorems.Erase(ns[i]) {
      assert BookTheorems.EraseAll(ms)[i] == BookTheorems.EraseAll(ns)[i];
    }
    assert KeyOf(ms[n]) == KeyOf(BookTheorems.Erase(ms[n])) && KeyOf(ns[n]) == KeyOf(BookTheorems.Erase(ns[n]));
  }

  lemma AcceptAgrees(h: Hashes, exact: bool, a: Core, b: Core, o: Order, r: Receipt, t: u64, u: u64)
    requires Agrees(exact, a, b) && (exact ==> t == u)
    ensures Agrees(exact, Accept(h, a, o, r, t), Accept(h, b, o, r, u))
  {
    BookTheorems.AddIgnoresClock(a.book, o, t, u);
    hide Add, AppendAll, Append, AddPending, BookTheorems.EraseAll, SameTip, SameUpToClock;
    var ms, ns := Add(a.book, o, t).matches, Add(b.book, o, u).matches;
    assert |BookTheorems.EraseAll(ms)| == |BookTheorems.EraseAll(ns)|;
    AppendTip(h.ofReceipt, a.orderLog, b.orderLog, r);
    AppendAllTip(h.ofMatch, a.matchLog, b.matchLog, ms);
    AppendAllTip(h.ofMatch, b.matchLog, b.matchLog, ns);
    PendingUpToClock(a.pending, b.pending, ms, ns);
  }

  lemma StepAgrees(h: Hashes, exact: bool, a: Core, b: Core, e: WalEntry, t: u64, u: u64)
    requires Agrees(exact, a, b) && (exact ==> Stamped(e) || t == u)
    ensures Agrees(exact, CoreStep(h, a, e, t), CoreStep(h, b, e, u))
  {
    if e.OrderAccepted? {
      hide Agrees, Accept;
      AcceptAgrees(h, exact, a, b, e.order, e.receipt, MatchTime(e.matchTimestampUs, t), MatchTime(e.matchTimestampUs,
          u));
    }
  }

  /** Replaying the same entries at other moments gives an agreeing core; exactly equal in every
      compared part if each accepted order carries its match time. */
  lemma {:induction false} FoldAgrees(h: Hashes, exact: bool, a: Core, b: Core, es: seq<WalEntry>, ca: seq<u64>,
      cb: seq<u64>)
    requires |ca| == |es| == |cb|
    requires Agrees(exact, a, b) && (exact ==> AllStamped(es))
    ensures Agrees(exact, FoldCore(h, a, es, ca), FoldCore(h, b, es, cb))
    decreases |es|
  {
    if es != [] {
      var n := |es| - 1;
      hide Agrees, CoreStep;
      FoldAgrees(h, exact, a, b, es[..n], ca[..n], cb[..n]);
      StepAgrees(h, exact, FoldCore(h, a, es[..n], ca[..n]), FoldCore(h, b, es[..n], cb[..n]), es[n], ca[n], cb[n]);
    }
  }

  lemma AgreesRefl(exact: bool, a: Core)
    ensures Agrees(exact, a, a)
  {
  }

  lemma AgreesTrans(exact: bool, a: Core, b: Core, c: Core)
    requires Agrees(exact, a, b) && Agrees(exact, b, c)
    ensures Agrees(exact, a, c)
  {
  }

  lemma AgreesSym(exact: bool, a: Core, b: Core)
    requires Agrees(exact, a, b)
    ensures Agrees(exact, b, a)
  {
  }

  /** Moving old log entries to cold storage does not show. */
  function Trim(c: Core, keepOrders: nat, keepMatches: nat): Core {
    c.(orderLog := SplitOffArchived(c.orderLog, keepOrders).1, matchLog := SplitOffArchived(c.matchLog, keepMatches).1)
  }

  lemma TrimAgrees(h: Hashes, exact: bool, c: Core, keepOrders: nat, keepMatches: nat)
    ensures Agrees(exact, c, Trim(c, keepOrders, keepMatches))
  {
    hide SplitOffArchived, Verified, VerifySegment;
    SplitKeepsTip(h.ofReceipt, c.orderLog, keepOrders);
    SplitKeepsTip(h.ofMatch, c.matchLog, keepMatches);
  }
}
