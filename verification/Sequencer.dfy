/** Ranking a batch of pending orders by network-time evidence. */
module Sequencer {
  import opened Types

  /** The earliest witness of an order: the hop that delivered it and the estimated origin time. */
  datatype Witness = Witness(hop: nat, timeMs: real)

  datatype Pending = Pending(id: Id, arrival: nat)

  datatype Cmp = Less | Equal | Greater

  type TieBreak = (Id, nat) -> Id

  const AMBIGUITY_WINDOW_MS := 25.0

  predicate Close(a: Witness, b: Witness) {
    -AMBIGUITY_WINDOW_MS < a.timeMs - b.timeMs < AMBIGUITY_WINDOW_MS
  }

  function CompareNat(a: nat, b: nat): Cmp {
    if a < b then Less else if a == b then Equal else Greater
  }

  function CompareByEvidence(tie: TieBreak, a: Id, wa: Witness, b: Id, wb: Witness): Cmp {
    if !Close(wa, wb) then (if wa.timeMs < wb.timeMs then Less else Greater)
    else CompareNat(tie(a, wa.hop), tie(b, wb.hop))
  }

  function Compare(tie: TieBreak, ev: map<Id, Witness>, a: Pending, b: Pending): Cmp {
    if a.id in ev && b.id in ev then CompareByEvidence(tie, a.id, ev[a.id], b.id, ev[b.id])
    else if a.id in ev then Less
    else if b.id in ev then Greater
    else CompareNat(a.arrival, b.arrival)
  }

  predicate Before(tie: TieBreak, ev: map<Id, Witness>, a: Pending, b: Pending) {
    Compare(tie, ev, a, b) == Less
  }

  lemma CompareMirrors(tie: TieBreak, ev: map<Id, Witness>, a: Pending, b: Pending)
    ensures Compare(tie, ev, a, b) == Less <==> Compare(tie, ev, b, a) == Greater
    ensures Compare(tie, ev, a, b) == Equal <==> Compare(tie, ev, b, a) == Equal
  {
  }

  // ---- When the comparison is an order ----

  /** Every two distinct members compare, and the comparison is transitive among members. */
  ghost predicate Ordered(tie: TieBreak, ev: map<Id, Witness>, batch: seq<Pending>) {
    && (forall x, y :: x in batch && y in batch && x != y ==> Compare(tie, ev, x, y) != Equal)
    && (forall x, y, z | x in batch && y in batch && z in batch ::
          Before(tie, ev, x, y) && Before(tie, ev, y, z) ==> Before(tie, ev, x, z))
  }

  /** What the buffer guarantees of a batch, and injectivity of the tie-break hash on it. */
  ghost predicate Distinguishable(tie: TieBreak, ev: map<Id, Witness>, batch: seq<Pending>) {
    forall x, y :: x in batch && y in batch && x != y ==>
      && x.id != y.id && x.arrival != y.arrival
      && (x.id in ev && y.id in ev ==> tie(x.id, ev[x.id].hop) != tie(y.id, ev[y.id].hop))
  }

  /** The only way the comparison can go round: two orders clearly apart in time, a third too close
      to either, and tie-break keys that run against the clock. */
  predicate Inverted(tie: TieBreak, ev: map<Id, Witness>, early: Pending, late: Pending, between: Pending) {
    && early.id in ev && late.id in ev && between.id in ev
    && ev[early.id].timeMs + AMBIGUITY_WINDOW_MS <= ev[late.id].timeMs
    && Close(ev[late.id], ev[between.id]) && Close(ev[between.id], ev[early.id])
    && tie(late.id, ev[late.id].hop) < tie(between.id, ev[between.id].hop) < tie(early.id, ev[early.id].hop)
  }

  ghost predicate NoInversion(tie: TieBreak, ev: map<Id, Witness>, batch: seq<Pending>) {
    forall x, y, z :: x in batch && y in batch && z in batch ==> !Inverted(tie, ev, x, y, z)
  }

  lemma InversionIsCycle(tie: TieBreak, ev: map<Id, Witness>, early: Pending, late: Pending, between: Pending)
    requires Inverted(tie, ev, early, late, between)
    ensures Before(tie, ev, early, late) && Before(tie, ev, late, between) && Before(tie, ev, between, early)
    ensures !Before(tie, ev, late, early)
  {
  }

  lemma TransitiveStep(tie: TieBreak, ev: map<Id, Witness>, x: Pending, y: Pending, z: Pending)
    requires Before(tie, ev, x, y) && Before(tie, ev, y, z)
    requires Compare(tie, ev, x, z) != Equal
    requires !Inverted(tie, ev, x, y, z) && !Inverted(tie, ev, y, z, x) && !Inverted(tie, ev, z, x, y)
    ensures Before(tie, ev, x, z)
  {
    if x.id in ev && z.id in ev {
      var a, b, c := ev[x.id], ev[y.id], ev[z.id];
      if Close(a, c) && Close(a, b) && !Close(b, c) {
        assert b.timeMs + AMBIGUITY_WINDOW_MS <= c.timeMs;
      }
    }
  }

  /** The comparison orders a batch if and only if the batch has no inverted triple. */
  lemma OrderedIffNoInversion(tie: TieBreak, ev: map<Id, Witness>, batch: seq<Pending>)
    requires Distinguishable(tie, ev, batch)
    ensures Ordered(tie, ev, batch) <==> NoInversion(tie, ev, batch)
  {
    if Ordered(tie, ev, batch) {
      forall x, y, z | x in batch && y in batch && z in batch
        ensures !Inverted(tie, ev, x, y, z)
      {
        if Inverted(tie, ev, x, y, z) { InversionIsCycle(tie, ev, x, y, z); }
      }
    }
    if NoInversion(tie, ev, batch) {
      forall x, y | x in batch && y in batch && x != y
        ensures Compare(tie, ev, x, y) != Equal
      {
      }
      forall x, y, z | x in batch && y in batch && z in batch && Before(tie, ev, x, y) && Before(tie, ev, y, z)
        ensures Before(tie, ev, x, z)
      {
        CompareMirrors(tie, ev, x, y);
        TransitiveStep(tie, ev, x, y, z);
      }
    }
  }

  ghost predicate ClosenessTransitive(ev: map<Id, Witness>, batch: seq<Pending>) {
    forall x, y, z | x in batch && y in batch && z in batch && x.id in ev && y.id in ev && z.id in ev ::
      Close(ev[x.id], ev[y.id]) && Close(ev[y.id], ev[z.id]) ==> Close(ev[x.id], ev[z.id])
  }

  /** It is enough that being within the ambiguity window is transitive on the batch. */
  lemma TransitiveClosenessOrders(tie: TieBreak, ev: map<Id, Witness>, batch: seq<Pending>)
    requires Distinguishable(tie, ev, batch) && ClosenessTransitive(ev, batch)
    ensures Ordered(tie, ev, batch)
  {
    OrderedIffNoInversion(tie, ev, batch);
  }

  /** Three orders at 0, 20 and 40 ms can be ranked in a circle. */
  lemma ThreeCycle()
    ensures var tie: TieBreak := (id, hop) => 10 - Min(id, 10);
            var ev := map[1 := Witness(0, 0.0), 2 := Witness(0, 20.0), 3 := Witness(0, 40.0)];
            var a, b, c := Pending(1, 0), Pending(2, 1), Pending(3, 2);
            Before(tie, ev, a, c) && Before(tie, ev, c, b) && Before(tie, ev, b, a)
  {
  }

  // ---- Sorting ----

  ghost predicate SortedBy(tie: TieBreak, ev: map<Id, Witness>, s: seq<Pending>) {
    forall i, j :: 0 <= i < j < |s| ==> Before(tie, ev, s[i], s[j])
  }

  /** There is only one way to sort: two arrangements of the same elements, both sorted by the same
      asymmetric relation, are equal. */
  lemma {:induction false} SortedIsUnique<T>(less: (T, T) -> bool, s: seq<T>, t: seq<T>)
    requires forall i, j :: 0 <= i < j < |s| ==> less(s[i], s[j])
    requires forall i, j :: 0 <= i < j < |t| ==> less(t[i], t[j])
    requires forall x, y :: x in s && y in s && less(x, y) ==> !less(y, x)
    requires forall x :: x in s ==> x in t
    requires forall x :: x in t ==> x in s
    ensures s == t
    decreases |s|
  {
    HeadIsMember(t);
    if s != [] {
      assert s[0] in t && t[0] in s;
      assert s[0] == t[0];
      TailMembers(less, s, t);
      TailMembers(less, t, s);
      SortedIsUnique(less, s[1..], t[1..]);
      assert s == [s[0]] + s[1..] && t == [t[0]] + t[1..];
    }
  }

  lemma HeadIsMember<T>(s: seq<T>)
    ensures s != [] ==> s[0] in s
  {
  }

  lemma TailMembers<T>(less: (T, T) -> bool, s: seq<T>, t: seq<T>)
    requires forall i, j :: 0 <= i < j < |s| ==> less(s[i], s[j])
    requires forall x, y :: x in s && y in s && less(x, y) ==> !less(y, x)
    requires s != [] && t != [] && s[0] == t[0]
    requires forall x :: x in s ==> x in t
    ensures forall x :: x in s[1..] ==> x in t[1..]
  {
    forall x | x in s[1..] ensures x in t[1..] {
      var k :| 0 < k < |s| && s[k] == x;
      assert less(s[0], s[k]) && s[k] in s;
      var m :| 0 <= m < |t| && t[m] == x;
      assert m > 0;
      assert t[1..][m - 1] == x;
    }
  }

  function IdsOf(s: seq<Pending>): (ids: seq<Id>)
    ensures |ids| == |s|
  {
    seq(|s|, i requires 0 <= i < |s| => s[i].id)
  }

  /** The first position from the back where `x` may go in a sorted prefix. */
  method InsertionPoint(tie: TieBreak, ev: map<Id, Witness>, s: seq<Pending>, x: Pending) returns (j: nat)
    ensures j <= |s|
    ensures forall k :: j <= k < |s| ==> Compare(tie, ev, s[k], x) == Greater
    ensures j > 0 ==> Compare(tie, ev, s[j - 1], x) != Greater
  {
    j := |s|;
    while j > 0 && Compare(tie, ev, s[j - 1], x) == Greater
      invariant 0 <= j <= |s|
      invariant forall k :: j <= k < |s| ==> Compare(tie, ev, s[k], x) == Greater
    {
      j := j - 1;
    }
  }

  lemma InsertKeepsSorted(tie: TieBreak, ev: map<Id, Witness>, batch: seq<Pending>, s: seq<Pending>, x: Pending, j: nat)
    requires Ordered(tie, ev, batch) && SortedBy(tie, ev, s)
    requires x in batch && forall k :: 0 <= k < |s| ==> s[k] in batch && s[k] != x
    requires j <= |s|
    requires forall k :: j <= k < |s| ==> Compare(tie, ev, s[k], x) == Greater
    requires j > 0 ==> Compare(tie, ev, s[j - 1], x) != Greater
    ensures SortedBy(tie, ev, s[..j] + [x] + s[j..])
  {
    forall k | 0 <= k < j ensures Before(tie, ev, s[k], x) {
      if k < j - 1 { assert Before(tie, ev, s[k], s[j - 1]) && Before(tie, ev, s[j - 1], x); }
    }
    forall k | j <= k < |s| ensures Before(tie, ev, x, s[k]) {
      CompareMirrors(tie, ev, x, s[k]);
    }
  }

  /** Sorting by insertion. On an orderable batch the result is the sorted arrangement, so any other
      correct sort returns the same. */
  method SortBatch(tie: TieBreak, ev: map<Id, Witness>, batch: seq<Pending>) returns (s: seq<Pending>)
    requires forall i, j :: 0 <= i < j < |batch| ==> batch[i] != batch[j]
    ensures multiset(s) == multiset(batch)
    ensures Ordered(tie, ev, batch) ==> SortedBy(tie, ev, s)
  {
    s := [];
    for n := 0 to |batch|
      invariant multiset(s) == multiset(batch[..n])
      invariant Ordered(tie, ev, batch) ==> SortedBy(tie, ev, s)
    {
      hide Ordered, SortedBy, Compare;
      var x := batch[n];
      assert batch[..n + 1] == batch[..n] + [x];
      var j := InsertionPoint(tie, ev, s, x);
      InsertBag(s, x, j);
      if Ordered(tie, ev, batch) {
        InsertedAreOthers(batch, n, s);
        InsertKeepsSorted(tie, ev, batch, s, x, j);
      }
      s := s[..j] + [x] + s[j..];
    }
    assert batch[..|batch|] == batch;
  }

  lemma InsertBag(s: seq<Pending>, x: Pending, j: nat)
    requires j <= |s|
    ensures multiset(s[..j] + [x] + s[j..]) == multiset(s) + multiset{x}
  {
    assert s == s[..j] + s[j..];
  }

  lemma InsertedAreOthers(batch: seq<Pending>, n: nat, s: seq<Pending>)
    requires n < |batch| && multiset(s) == multiset(batch[..n])
    requires forall i, j :: 0 <= i < j < |batch| ==> batch[i] != batch[j]
    ensures forall k :: 0 <= k < |s| ==> s[k] in batch && s[k] != batch[n]
  {
    forall k | 0 <= k < |s| ensures s[k] in batch && s[k] != batch[n] {
      assert s[k] in multiset(s);
      assert s[k] in batch[..n];
    }
  }

  // ---- What a flush depends on ----

  /** The members with evidence, and those without, in the order they stand. */
  function Backed(ev: map<Id, Witness>, s: seq<Pending>): seq<Pending> {
    if s == [] then [] else (if s[0].id in ev then [s[0]] else []) + Backed(ev, s[1..])
  }

  function Unbacked(ev: map<Id, Witness>, s: seq<Pending>): seq<Pending> {
    if s == [] then [] else (if s[0].id in ev then [] else [s[0]]) + Unbacked(ev, s[1..])
  }

  lemma {:induction false} BackedMembers(ev: map<Id, Witness>, s: seq<Pending>, x: Pending)
    ensures x in Backed(ev, s) <==> x in s && x.id in ev
    ensures x in Unbacked(ev, s) <==> x in s && x.id !in ev
  {
    if s != [] {
      BackedMembers(ev, s[1..], x);
      assert s == [s[0]] + s[1..];
    }
  }

  lemma {:induction false} NoneBacked(ev: map<Id, Witness>, s: seq<Pending>)
    requires forall i :: 0 <= i < |s| ==> s[i].id !in ev
    ensures Backed(ev, s) == [] && Unbacked(ev, s) == s
  {
    if s != [] { NoneBacked(ev, s[1..]); }
  }

  /** A sorted batch is its evidence-backed orders followed by the others. */
  lemma {:induction false} BackedFirst(tie: TieBreak, ev: map<Id, Witness>, s: seq<Pending>)
    requires SortedBy(tie, ev, s)
    ensures s == Backed(ev, s) + Unbacked(ev, s)
  {
    if s != [] {
      if s[0].id in ev {
        BackedFirst(tie, ev, s[1..]);
        assert s == [s[0]] + s[1..];
      } else {
        forall i | 0 <= i < |s| ensures s[i].id !in ev {
          if i > 0 { assert Before(tie, ev, s[0], s[i]); }
        }
        NoneBacked(ev, s);
      }
    }
  }

  /** In a sorted batch, of two orders with evidence the one clearly earlier, by 25 ms or more, comes first;
      of two closer than that, the one with the smaller tie-break key. */
  lemma EvidenceDecides(tie: TieBreak, ev: map<Id, Witness>, s: seq<Pending>, i: nat, j: nat)
    requires SortedBy(tie, ev, s) && i < |s| && j < |s| && s[i].id in ev && s[j].id in ev
    ensures ev[s[i].id].timeMs + 25.0 <= ev[s[j].id].timeMs ==> i < j
    ensures i != j && -25.0 < ev[s[i].id].timeMs - ev[s[j].id].timeMs < 25.0 ==>
              (i < j <==> tie(s[i].id, ev[s[i].id].hop) < tie(s[j].id, ev[s[j].id].hop))
  {
    if i < j { assert Before(tie, ev, s[i], s[j]); }
    if j < i { assert Before(tie, ev, s[j], s[i]); }
  }

  ghost predicate ArrivalOrder(s: seq<Pending>) {
    forall i, j :: 0 <= i < j < |s| ==> s[i].arrival < s[j].arrival
  }

  lemma {:induction false} UnbackedKeepsArrival(ev: map<Id, Witness>, s: seq<Pending>)
    requires ArrivalOrder(s)
    ensures ArrivalOrder(Unbacked(ev, s))
  {
    if s != [] {
      var rest := Unbacked(ev, s[1..]);
      UnbackedKeepsArrival(ev, s[1..]);
      forall x | x in rest ensures s[0].arrival < x.arrival {
        BackedMembers(ev, s[1..], x);
      }
      hide Unbacked;
      assert forall i :: 0 <= i < |rest| ==> rest[i] in rest;
    }
  }

  ghost predicate SameMembers<T>(s: seq<T>, t: seq<T>) {
    (forall x :: x in s ==> x in t) && (forall x :: x in t ==> x in s)
  }

  /** Orders without evidence come out in the order they arrived. */
  lemma UnbackedInArrivalOrder(tie: TieBreak, ev: map<Id, Witness>, batch: seq<Pending>, s: seq<Pending>)
    requires ArrivalOrder(batch) && SortedBy(tie, ev, s) && SameMembers(s, batch)
    ensures Unbacked(ev, s) == Unbacked(ev, batch)
  {
    var less := (x: Pending, y: Pending) => x.arrival < y.arrival;
    var u, v := Unbacked(ev, s), Unbacked(ev, batch);
    UnbackedKeepsArrival(ev, batch);
    UnbackedSortedByArrival(tie, ev, s);
    hide Unbacked, SortedBy;
    forall x ensures x in u <==> x in v {
      BackedMembers(ev, s, x);
      BackedMembers(ev, batch, x);
    }
    SortedIsUnique(less, u, v);
  }

  lemma UnbackedSortedByArrival(tie: TieBreak, ev: map<Id, Witness>, s: seq<Pending>)
    requires SortedBy(tie, ev, s)
    ensures ArrivalOrder(Unbacked(ev, s))
  {
    var n, u := |Backed(ev, s)|, Unbacked(ev, s);
    BackedFirst(tie, ev, s);
    forall i, j | 0 <= i < j < |u| ensures u[i].arrival < u[j].arrival {
      assert s[n + i] == u[i] && s[n + j] == u[j];
      BackedMembers(ev, s, u[i]);
      BackedMembers(ev, s, u[j]);
      assert Before(tie, ev, s[n + i], s[n + j]);
    }
  }

  /** The ranking of evidence-backed orders depends on the evidence alone: two nodes that buffered the
      same backed orders, in whatever order they arrived, rank them identically. */
  lemma BackedRankingIsCanonical(tie: TieBreak, ev: map<Id, Witness>, s: seq<Pending>, t: seq<Pending>)
    requires SortedBy(tie, ev, s) && SortedBy(tie, ev, t)
    requires SameMembers(IdsOf(Backed(ev, s)), IdsOf(Backed(ev, t)))
    ensures IdsOf(Backed(ev, s)) == IdsOf(Backed(ev, t))
  {
    var less := (x: Id, y: Id) => RanksBefore(tie, ev, x, y);
    var a, b := IdsOf(Backed(ev, s)), IdsOf(Backed(ev, t));
    RankedByEvidence(tie, ev, s);
    RankedByEvidence(tie, ev, t);
    SortedIsUnique(less, a, b);
  }

  predicate RanksBefore(tie: TieBreak, ev: map<Id, Witness>, a: Id, b: Id) {
    a in ev && b in ev && CompareByEvidence(tie, a, ev[a], b, ev[b]) == Less
  }

  ghost predicate Ranked(tie: TieBreak, ev: map<Id, Witness>, ids: seq<Id>) {
    forall i, j :: 0 <= i < j < |ids| ==> RanksBefore(tie, ev, ids[i], ids[j])
  }

  lemma RankedByEvidence(tie: TieBreak, ev: map<Id, Witness>, s: seq<Pending>)
    requires SortedBy(tie, ev, s)
    ensures Ranked(tie, ev, IdsOf(Backed(ev, s)))
  {
    BackedFirst(tie, ev, s);
    var b := Backed(ev, s);
    forall i, j | 0 <= i < j < |b| ensures RanksBefore(tie, ev, b[i].id, b[j].id) {
      assert s[i] == b[i] && s[j] == b[j];
      BackedMembers(ev, s, b[i]);
      BackedMembers(ev, s, b[j]);
      assert Before(tie, ev, s[i], s[j]);
    }
  }

  // ---- The sequencer as an object ----

  class OrderSequencer {
    var pending: seq<Pending>
    var nextArrival: nat

    ghost predicate Valid()
      reads this
    {
      ArrivalOrder(pending) && forall i :: 0 <= i < |pending| ==> pending[i].arrival < nextArrival
    }

    constructor ()
      ensures Valid() && pending == []
    {
      pending, nextArrival := [], 0;
    }

    method Add(id: Id)
      requires Valid()
      modifies this
      ensures Valid() && IdsOf(pending) == old(IdsOf(pending)) + [id]
    {
      pending := pending + [Pending(id, nextArrival)];
      nextArrival := nextArrival + 1;
    }

    /** Drains the buffer. Nothing is lost or invented; when the comparison orders the batch, the
        evidence-backed orders come first, ranked, and the others follow in arrival order. */
    method Flush(tie: TieBreak, ev: map<Id, Witness>) returns (ids: seq<Id>, ghost ranked: seq<Pending>)
      requires Valid()
      modifies this`pending
      ensures Valid() && pending == []
      ensures ids == IdsOf(ranked) && multiset(ranked) == multiset(old(pending))
      ensures Ordered(tie, ev, old(pending)) ==>
                && SortedBy(tie, ev, ranked)
                && ids == IdsOf(Backed(ev, ranked)) + IdsOf(Unbacked(ev, old(pending)))
    {
      hide Ordered, SortedBy, Compare, Backed, Unbacked, IdsOf;
      var batch := pending;
      ArrivalsDiffer(batch);
      pending := [];
      var s := SortBatch(tie, ev, batch);
      ids, ranked := IdsOf(s), s;
      if Ordered(tie, ev, batch) { FlushedOrder(tie, ev, batch, ranked); }
    }
  }

  lemma ArrivalsDiffer(batch: seq<Pending>)
    requires ArrivalOrder(batch)
    ensures forall i, j :: 0 <= i < j < |batch| ==> batch[i] != batch[j]
  {
  }

  lemma FlushedOrder(tie: TieBreak, ev: map<Id, Witness>, batch: seq<Pending>, s: seq<Pending>)
    requires ArrivalOrder(batch) && SortedBy(tie, ev, s) && multiset(s) == multiset(batch)
    ensures IdsOf(s) == IdsOf(Backed(ev, s)) + IdsOf(Unbacked(ev, batch))
  {
    hide SortedBy, Backed, Unbacked, ArrivalOrder;
    SameBag(s, batch);
    UnbackedInArrivalOrder(tie, ev, batch, s);
    BackedFirst(tie, ev, s);
    IdsConcat(Backed(ev, s), Unbacked(ev, s));
  }

  lemma IdsConcat(a: seq<Pending>, b: seq<Pending>)
    ensures IdsOf(a + b) == IdsOf(a) + IdsOf(b)
  {
  }

  lemma SameBag(s: seq<Pending>, t: seq<Pending>)
    requires multiset(s) == multiset(t)
    ensures SameMembers(s, t)
  {
    forall x | x in s ensures x in t { assert x in multiset(s); }
    forall x | x in t ensures x in s { assert x in multiset(t); }
  }
}
