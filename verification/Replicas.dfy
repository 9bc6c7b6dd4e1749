/** Independent replicas: batches are identified by a key over the set of ids, voted on by a hash of the
    resolved sequence, and applied in that order, each replica stamping its own times. */
module Replicas {
  import opened Types
  import opened Engine
  import opened BookTheorems
  import opened Quorum

  /** A hash of a list of ids. */
  type Digest = seq<Id> -> Id

  ghost predicate InjectiveDigest(digest: Digest) {
    forall a, b :: digest(a) == digest(b) ==> a == b
  }

  // ---- Batch keys ----

  function InsertSorted(ids: seq<Id>, id: Id): seq<Id> {
    if ids == [] || id <= ids[0] then [id] + ids else [ids[0]] + InsertSorted(ids[1..], id)
  }

  function SortIds(ids: seq<Id>): seq<Id> {
    if ids == [] then [] else InsertSorted(SortIds(ids[..|ids| - 1]), ids[|ids| - 1])
  }

  function BatchKey(digest: Digest, ids: seq<Id>): Id {
    digest(SortIds(ids))
  }

  function ProposalHash(digest: Digest, resolved: seq<Id>): Id {
    digest(resolved)
  }

  ghost predicate AtLeast(x: Id, ids: seq<Id>) {
    forall i :: 0 <= i < |ids| ==> x <= ids[i]
  }

  ghost predicate Ascending(ids: seq<Id>) {
    ids == [] || (AtLeast(ids[0], ids[1..]) && Ascending(ids[1..]))
  }

  lemma HeadBag(head: Id, rest: seq<Id>)
    ensures multiset([head] + rest) == multiset{head} + multiset(rest)
    ensures AtLeast(head, rest) && Ascending(rest) ==> Ascending([head] + rest)
  {
    assert ([head] + rest)[1..] == rest;
  }

  lemma AtLeastBag(x: Id, a: seq<Id>, b: seq<Id>)
    requires AtLeast(x, a) && multiset(b) <= multiset(a)
    ensures AtLeast(x, b)
  {
    forall i | 0 <= i < |b| ensures x <= b[i] {
      assert b[i] in multiset(b);
      assert b[i] in a;
    }
  }

  lemma InsertFirst(ids: seq<Id>, id: Id)
    requires Ascending(ids) && (ids == [] || id <= ids[0])
    ensures Ascending([id] + ids) && multiset([id] + ids) == multiset(ids) + multiset{id}
  {
    if ids != [] { assert forall i :: 0 < i < |ids| ==> ids[i] == ids[1..][i - 1]; }
    HeadBag(id, ids);
  }

  lemma InsertLater(head: Id, rest: seq<Id>, placed: seq<Id>, id: Id)
    requires AtLeast(head, rest) && head < id && Ascending(placed) && multiset(placed) == multiset(rest) + multiset{id}
    ensures Ascending([head] + placed) && multiset([head] + placed) == multiset([head] + rest) + multiset{id}
  {
    hide Ascending;
    assert multiset(rest + [id]) == multiset(rest) + multiset{id};
    AtLeastBag(head, rest + [id], placed);
    HeadBag(head, placed);
    HeadBag(head, rest);
  }

  lemma {:induction false} InsertSortedOk(ids: seq<Id>, id: Id)
    requires Ascending(ids)
    ensures Ascending(InsertSorted(ids, id)) && multiset(InsertSorted(ids, id)) == multiset(ids) + multiset{id}
  {
    if ids == [] || id <= ids[0] {
      InsertFirst(ids, id);
    } else {
      assert ids == [ids[0]] + ids[1..];
      InsertSortedOk(ids[1..], id);
      InsertLater(ids[0], ids[1..], InsertSorted(ids[1..], id), id);
    }
  }

  lemma SortSnoc(init: seq<Id>, id: Id)
    ensures SortIds(init + [id]) == InsertSorted(SortIds(init), id)
    ensures multiset(init + [id]) == multiset(init) + multiset{id}
  {
    assert (init + [id])[..|init|] == init;
  }

  lemma NothingToSort()
    ensures SortIds([]) == [] && Ascending([])
  {
  }

  lemma {:induction false} SortIdsOk(ids: seq<Id>)
    ensures Ascending(SortIds(ids)) && multiset(SortIds(ids)) == multiset(ids)
  {
    hide *;
    if ids == [] {
      NothingToSort();
    } else {
      var init, id := ids[..|ids| - 1], ids[|ids| - 1];
      assert ids == init + [id];
      SortIdsOk(init);
      SortSnoc(init, id);
      InsertSortedOk(SortIds(init), id);
    }
  }

  lemma SameLeast(a: seq<Id>, b: seq<Id>)
    requires a != [] && b != [] && Ascending(a) && multiset(a) == multiset(b)
    ensures a[0] <= b[0]
  {
    assert b[0] in multiset(a);
    assert a == [a[0]] + a[1..];
  }

  lemma DropHead(x: Id, a: seq<Id>, b: seq<Id>)
    requires multiset([x] + a) == multiset([x] + b)
    ensures multiset(a) == multiset(b)
  {
    HeadBag(x, a);
    HeadBag(x, b);
    assert multiset(a) == (multiset{x} + multiset(a)) - multiset{x};
    assert multiset(b) == (multiset{x} + multiset(b)) - multiset{x};
  }

  lemma {:induction false} AscendingUnique(a: seq<Id>, b: seq<Id>)
    requires Ascending(a) && Ascending(b) && multiset(a) == multiset(b)
    ensures a == b
  {
    if a == [] || b == [] {
      assert |multiset(a)| == |a| && |multiset(b)| == |b|;
    } else {
      SameLeast(a, b);
      SameLeast(b, a);
      assert a == [a[0]] + a[1..] && b == [a[0]] + b[1..];
      DropHead(a[0], a[1..], b[1..]);
      AscendingUnique(a[1..], b[1..]);
    }
  }

  /** Two nodes derive one batch key exactly when they hold the same ids, in whatever order. */
  lemma BatchKeyIff(digest: Digest, a: seq<Id>, b: seq<Id>)
    requires InjectiveDigest(digest)
    ensures BatchKey(digest, a) == BatchKey(digest, b) <==> multiset(a) == multiset(b)
  {
    SortIdsOk(a);
    SortIdsOk(b);
    if multiset(a) == multiset(b) { AscendingUnique(SortIds(a), SortIds(b)); }
  }

  // ---- What a node does with a batch ----

  datatype Decision = Apply | Requeue

  /** Apply what the quorum agreed on if it is what this node resolved, or its own resolution when no
      agreement arrives in time; otherwise queue the batch again. */
  function Decide(digest: Digest, resolved: seq<Id>, confirmed: Option<Id>): Decision {
    match confirmed
    case None => Apply
    case Some(agreed) => if agreed == ProposalHash(digest, resolved) then Apply else Requeue
  }

  /** A node goes ahead exactly when no agreement arrived in time or the agreement is on the very
      sequence it resolved; an agreement on any other sequence holds it back. */
  lemma DecideIff(digest: Digest, resolved: seq<Id>, confirmed: Option<Id>, other: seq<Id>)
    requires InjectiveDigest(digest)
    ensures Decide(digest, resolved, None) == Apply
    ensures confirmed == Some(ProposalHash(digest, other)) ==>
              (Decide(digest, resolved, confirmed) == Apply <==> other == resolved)
    ensures confirmed.Some? && (forall s :: confirmed.value != ProposalHash(digest, s)) ==>
              Decide(digest, resolved, confirmed) == Requeue
  {
  }

  /** Two nodes that apply a batch key's confirmed batch apply the same sequence. */
  lemma ConfirmedSequencesEqual(digest: Digest, ps: seq<Proposal>, qs: seq<Proposal>, minReporters: nat, window: real,
                                reporters: set<Reporter>, a: seq<Id>, b: seq<Id>)
    requires InjectiveDigest(digest)
    requires Confirms(ps, minReporters, window) && Confirms(qs, minReporters, window)
    requires ps[|ps| - 1].key == qs[|qs| - 1].key && NonEquivocating(ps, qs)
    requires forall i :: 0 <= i < |ps| ==> ps[i].reporter in reporters
    requires forall i :: 0 <= i < |qs| ==> qs[i].reporter in reporters
    requires |reporters| < 2 * minReporters
    requires Decide(digest, a, Some(ps[|ps| - 1].hash)) == Apply && Decide(digest, b, Some(qs[|qs| - 1].hash)) == Apply
    ensures a == b
  {
    NodesAgree(ps, qs, minReporters, window, reporters);
  }

  // ---- Replicas over runs ----

  /** A replica's book, the orders it holds but has not applied, and every match it produced. */
  datatype Replica = Replica(book: Book, data: map<Id, Order>, produced: seq<Match>)

  /** An order becomes known, or a batch has been resolved and its quorum has answered or timed out. */
  datatype Event = Learn(order: Order) | Flush(resolved: seq<Id>, confirmed: Option<Id>, times: Id -> u64)

  function ApplyOne(r: Replica, id: Id, t: u64): Replica {
    if id !in r.data then r
    else
      var added := Add(r.book, r.data[id], t);
      Replica(added.book, r.data - {id}, r.produced + added.matches)
  }

  function ApplyResolved(r: Replica, ids: seq<Id>, times: Id -> u64): Replica
    decreases |ids|
  {
    if ids == [] then r
    else ApplyOne(ApplyResolved(r, ids[..|ids| - 1], times), ids[|ids| - 1], times(ids[|ids| - 1]))
  }

  /** A batch that is queued again leaves the replica's book and orders as they are. */
  function React(digest: Digest, r: Replica, e: Event): Replica {
    match e
    case Learn(o) => r.(data := r.data[o.id := o])
    case Flush(ids, confirmed, times) =>
      match Decide(digest, ids, confirmed)
      case Apply => ApplyResolved(r, ids, times)
      case Requeue => r
  }

  function RunReplica(digest: Digest, r: Replica, es: seq<Event>): Replica {
    if es == [] then r else React(digest, RunReplica(digest, r, es[..|es| - 1]), es[|es| - 1])
  }

  // ---- What a replica computes, whenever it learned its orders ----

  datatype Trace = Trace(book: Book, produced: seq<Match>)

  datatype Batch = Batch(resolved: seq<Id>, times: Id -> u64)

  function TraceOf(r: Replica): Trace {
    Trace(r.book, r.produced)
  }

  function TraceOne(tr: Trace, o: Order, t: u64): Trace {
    var added := Add(tr.book, o, t);
    Trace(added.book, tr.produced + added.matches)
  }

  /** A batch applied to the orders its ids stand for. */
  function TraceIds(tr: Trace, ids: seq<Id>, orders: Id -> Order, times: Id -> u64): Trace
    decreases |ids|
  {
    if ids == [] then tr
    else
      var id := ids[|ids| - 1];
      TraceOne(TraceIds(tr, ids[..|ids| - 1], orders, times), orders(id), times(id))
  }

  function TraceBatches(tr: Trace, bs: seq<Batch>, orders: Id -> Order): Trace
    decreases |bs|
  {
    if bs == [] then tr
    else
      var b := bs[|bs| - 1];
      TraceIds(TraceBatches(tr, bs[..|bs| - 1], orders), b.resolved, orders, b.times)
  }

  /** Agreed on as this replica resolved it, or its quorum timed out. */
  predicate TakesEffect(digest: Digest, e: Event) {
    e.Flush? && (e.confirmed.None? || e.confirmed.value == ProposalHash(digest, e.resolved))
  }

  function Batches(digest: Digest, es: seq<Event>): seq<Batch> {
    if es == [] then []
    else
      var e := es[|es| - 1];
      Batches(digest, es[..|es| - 1]) + (if TakesEffect(digest, e) then [Batch(e.resolved, e.times)] else [])
  }

  /** An id stands for one order wherever it is learned. */
  ghost predicate Consistent(data: map<Id, Order>, orders: Id -> Order) {
    forall id :: id in data ==> data[id] == orders(id)
  }

  ghost predicate DistinctIds(ids: seq<Id>) {
    forall i, j :: 0 <= i < j < |ids| ==> ids[i] != ids[j]
  }

  /** Whatever else happens when, each batch finds its orders learned. */
  ghost predicate Ready(digest: Digest, r: Replica, es: seq<Event>, orders: Id -> Order)
    decreases |es|
  {
    es == [] ||
    (var init, e := es[..|es| - 1], es[|es| - 1];
     && Ready(digest, r, init, orders)
     && match e
        case Learn(o) => o == orders(o.id)
        case Flush(ids, _, _) =>
          DistinctIds(ids) && forall i :: 0 <= i < |ids| ==> ids[i] in RunReplica(digest, r, init).data)
  }

  ghost predicate AllIn(ids: seq<Id>, data: map<Id, Order>) {
    forall i :: 0 <= i < |ids| ==> ids[i] in data
  }

  lemma {:induction false} BatchIsTrace(r: Replica, ids: seq<Id>, orders: Id -> Order, times: Id -> u64)
    requires Consistent(r.data, orders) && DistinctIds(ids) && AllIn(ids, r.data)
    ensures var r' := ApplyResolved(r, ids, times);
            && TraceOf(r') == TraceIds(TraceOf(r), ids, orders, times)
            && Consistent(r'.data, orders)
            && forall id :: id in r'.data <==> id in r.data && id !in ids
    decreases |ids|
  {
    if ids != [] {
      var init, id := ids[..|ids| - 1], ids[|ids| - 1];
      assert forall i :: 0 <= i < |init| ==> init[i] == ids[i];
      assert ids == init + [id];
      BatchIsTrace(r, init, orders, times);
      assert id !in init;
      hide Add;
    }
  }

  lemma ReactIsTrace(digest: Digest, r: Replica, e: Event, orders: Id -> Order)
    requires Consistent(r.data, orders)
    requires match e
             case Learn(o) => o == orders(o.id)
             case Flush(ids, _, _) => DistinctIds(ids) && AllIn(ids, r.data)
    ensures Consistent(React(digest, r, e).data, orders)
    ensures TraceOf(React(digest, r, e)) == if TakesEffect(digest, e) then TraceIds(TraceOf(r), e.resolved, orders,
        e.times) else TraceOf(r)
  {
    if e.Flush? {
      BatchIsTrace(r, e.resolved, orders, e.times);
      hide ApplyResolved, TraceIds, DistinctIds;
    }
  }

  lemma TraceSnoc(digest: Digest, tr: Trace, init: seq<Event>, e: Event, orders: Id -> Order)
    ensures TraceBatches(tr, Batches(digest, init + [e]), orders) ==
            var before := TraceBatches(tr, Batches(digest, init), orders);
            if TakesEffect(digest, e) then TraceIds(before, e.resolved, orders, e.times) else before
  {
    var bs := Batches(digest, init);
    assert (init + [e])[..|init + [e]| - 1] == init;
    assert bs + [] == bs;
    if TakesEffect(digest, e) {
      assert (bs + [Batch(e.resolved, e.times)])[..|bs|] == bs;
    }
    hide TraceIds;
  }

  /** A replica's book and matches are those of the batches that took effect, and of nothing else. */
  lemma {:induction false} ReplicaIsTrace(digest: Digest, r: Replica, es: seq<Event>, orders: Id -> Order)
    requires Consistent(r.data, orders) && Ready(digest, r, es, orders)
    ensures TraceOf(RunReplica(digest, r, es)) == TraceBatches(TraceOf(r), Batches(digest, es), orders)
    ensures Consistent(RunReplica(digest, r, es).data, orders)
    decreases |es|
  {
    if es != [] {
      var init, e := es[..|es| - 1], es[|es| - 1];
      ReplicaIsTrace(digest, r, init, orders);
      assert es == init + [e];
      hide Consistent, DistinctIds, TraceBatches, Batches, React, TakesEffect, TraceIds;
      TraceSnoc(digest, TraceOf(r), init, e, orders);
      ReactIsTrace(digest, RunReplica(digest, r, init), e, orders);
    }
  }

  /** Equal books, cursor included, and the same matches in the same order with the same assigned
      nodes: everything but the two fields taken from the clock. */
  ghost predicate InStep(a: Trace, b: Trace) {
    a.book == b.book && EraseAll(a.produced) == EraseAll(b.produced)
  }

  lemma EraseConcat(a: seq<Match>, b: seq<Match>)
    ensures EraseAll(a + b) == EraseAll(a) + EraseAll(b)
  {
  }

  lemma OneInStep(a: Trace, b: Trace, o: Order, t: u64, u: u64)
    requires InStep(a, b)
    ensures InStep(TraceOne(a, o, t), TraceOne(b, o, u))
  {
    hide Add, EraseAll;
    AddIgnoresClock(a.book, o, t, u);
    EraseConcat(a.produced, Add(a.book, o, t).matches);
    EraseConcat(b.produced, Add(b.book, o, u).matches);
  }

  lemma {:induction false} IdsInStep(a: Trace, b: Trace, ids: seq<Id>, orders: Id -> Order, times: Id -> u64,
      others: Id -> u64)
    requires InStep(a, b)
    ensures InStep(TraceIds(a, ids, orders, times), TraceIds(b, ids, orders, others))
    decreases |ids|
  {
    if ids != [] {
      var n := |ids| - 1;
      IdsInStep(a, b, ids[..n], orders, times, others);
      hide InStep, TraceOne;
      OneInStep(TraceIds(a, ids[..n], orders, times), TraceIds(b, ids[..n], orders, others), orders(ids[n]),
                times(ids[n]), others(ids[n]));
    }
  }

  /** As many batches, each with the other's proposal hash. */
  ghost predicate SameProposals(digest: Digest, bs: seq<Batch>, cs: seq<Batch>) {
    && |bs| == |cs|
    && forall i :: 0 <= i < |bs| ==> ProposalHash(digest, bs[i].resolved) == ProposalHash(digest, cs[i].resolved)
  }

  lemma {:induction false} BatchesInStep(digest: Digest, a: Trace, b: Trace, bs: seq<Batch>, cs: seq<Batch>,
      orders: Id -> Order)
    requires InjectiveDigest(digest) && InStep(a, b) && SameProposals(digest, bs, cs)
    ensures InStep(TraceBatches(a, bs, orders), TraceBatches(b, cs, orders))
    decreases |bs|
  {
    if bs != [] {
      var n := |bs| - 1;
      BatchesInStep(digest, a, b, bs[..n], cs[..n], orders);
      assert bs[n].resolved == cs[n].resolved;
      hide InStep, TraceIds;
      IdsInStep(TraceBatches(a, bs[..n], orders), TraceBatches(b, cs[..n], orders), bs[n].resolved, orders,
          bs[n].times, cs[n].times);
    }
  }

  /** Replicas that start with equal books, learn their orders in whatever order and at whatever moment
      before the batch that needs them, and whose batches that took effect have equal proposal hashes, stay
      in step, whatever was queued again between and whatever each one's clock says. */
  lemma ReplicasStayInStep(digest: Digest, a: Replica, b: Replica, es: seq<Event>, fs: seq<Event>, orders: Id -> Order)
    requires InjectiveDigest(digest) && InStep(TraceOf(a), TraceOf(b))
    requires Consistent(a.data, orders) && Consistent(b.data, orders)
    requires Ready(digest, a, es, orders) && Ready(digest, b, fs, orders)
    requires SameProposals(digest, Batches(digest, es), Batches(digest, fs))
    ensures InStep(TraceOf(RunReplica(digest, a, es)), TraceOf(RunReplica(digest, b, fs)))
  {
    hide *;
    ReplicaIsTrace(digest, a, es, orders);
    ReplicaIsTrace(digest, b, fs, orders);
    BatchesInStep(digest, TraceOf(a), TraceOf(b), Batches(digest, es), Batches(digest, fs), orders);
  }
}
