/** Windowed votes: what the tallies of the batch quorum and the misconduct quorum mean in terms of
    the votes a node has seen. Times are `real`. */
module Quorum {
  import opened Types

  type Reporter = nat

  /** What a tally keeps per reporter: the vote's content and when it was last cast. */
  datatype Stamp<W> = Stamp(info: W, at: real)

  /** One record call as seen by one tally: stale stamps are dropped at `now`, and the call may or
      may not be a vote for this very tally. */
  datatype Event<W> = Event(now: real, vote: Option<(Reporter, W)>)

  function Fresh<W>(m: map<Reporter, Stamp<W>>, now: real, window: real): map<Reporter, Stamp<W>> {
    map r | r in m && now - m[r].at < window :: m[r]
  }

  function Refresh<W>(m: map<Reporter, Stamp<W>>, e: Event<W>, window: real): map<Reporter, Stamp<W>> {
    var kept := Fresh(m, e.now, window);
    match e.vote
    case None => kept
    case Some(v) => kept[v.0 := Stamp(v.1, e.now)]
  }

  function Tally<W>(es: seq<Event<W>>, window: real): map<Reporter, Stamp<W>> {
    if es == [] then map[] else Refresh(Tally(es[..|es| - 1], window), es[|es| - 1], window)
  }

  /** The specification: a reporter's latest vote in the history. */
  function Latest<W>(es: seq<Event<W>>, r: Reporter): Option<Stamp<W>> {
    if es == [] then None
    else
      var e := es[|es| - 1];
      if e.vote.Some? && e.vote.value.0 == r then Some(Stamp(e.vote.value.1, e.now))
      else Latest(es[..|es| - 1], r)
  }

  /** A vote counts at the end of the history when it is inside the window or was just cast. */
  predicate Counts<W>(es: seq<Event<W>>, r: Reporter, window: real) {
    && es != [] && Latest(es, r).Some?
    && var e := es[|es| - 1];
       e.now - Latest(es, r).value.at < window || (e.vote.Some? && e.vote.value.0 == r)
  }

  /** The position of a reporter's last vote in the history. */
  function LastVote<W>(es: seq<Event<W>>, r: Reporter): (i: Option<nat>)
    ensures i.Some? ==> i.value < |es| && es[i.value].vote.Some? && es[i.value].vote.value.0 == r
  {
    if es == [] then None
    else
      var e := es[|es| - 1];
      if e.vote.Some? && e.vote.value.0 == r then Some(|es| - 1) else LastVote(es[..|es| - 1], r)
  }

  /** Every later call came within the window of the vote at `i`, whatever order the times are in. */
  ghost predicate Outlives<W>(es: seq<Event<W>>, i: nat, window: real)
    requires i < |es|
  {
    forall j :: i < j < |es| ==> es[j].now - es[i].now < window
  }

  lemma OutlivesSnoc<W>(es: seq<Event<W>>, i: nat, window: real)
    requires i < |es| - 1
    ensures Outlives(es, i, window) <==>
            Outlives(es[..|es| - 1], i, window) && es[|es| - 1].now - es[i].now < window
  {
    var init := es[..|es| - 1];
    assert forall j :: 0 <= j < |init| ==> init[j] == es[j];
  }

  /** For arbitrary timestamps: a reporter is in the tally if and only if every call after its last
      vote came within the window of that vote; the stamp is that vote's. */
  lemma {:induction false} TallyIff<W>(es: seq<Event<W>>, window: real, r: Reporter)
    ensures r in Tally(es, window) <==> LastVote(es, r).Some? && Outlives(es, LastVote(es, r).value, window)
    ensures r in Tally(es, window) ==>
              var e := es[LastVote(es, r).value]; Tally(es, window)[r] == Stamp(e.vote.value.1, e.now)
  {
    if es != [] {
      var init, e := es[..|es| - 1], es[|es| - 1];
      TallyIff(init, window, r);
      if !(e.vote.Some? && e.vote.value.0 == r) && LastVote(init, r).Some? {
        OutlivesSnoc(es, LastVote(init, r).value, window);
      }
    }
  }

  lemma {:induction false} LatestIsLastVote<W>(es: seq<Event<W>>, r: Reporter)
    ensures Latest(es, r).Some? <==> LastVote(es, r).Some?
    ensures LastVote(es, r).Some? ==>
              var e := es[LastVote(es, r).value]; Latest(es, r) == Some(Stamp(e.vote.value.1, e.now))
  {
    if es != [] { LatestIsLastVote(es[..|es| - 1], r); }
  }

  /** Whatever the timestamps, a retained stamp is that reporter's latest vote and it counts. */
  lemma TallyIsSound<W>(es: seq<Event<W>>, window: real, r: Reporter)
    requires r in Tally(es, window)
    ensures Counts(es, r, window) && Latest(es, r) == Some(Tally(es, window)[r])
  {
    hide Tally, Latest;
    TallyIff(es, window, r);
    LatestIsLastVote(es, r);
  }

  ghost predicate Nondecreasing<W>(es: seq<Event<W>>) {
    forall i, j :: 0 <= i < j < |es| ==> es[i].now <= es[j].now
  }

  /** When time does not run backwards the tally holds exactly the reporters whose latest vote
      counts. */
  lemma TallyIsExact<W>(es: seq<Event<W>>, window: real, r: Reporter)
    requires Nondecreasing(es)
    ensures r in Tally(es, window) <==> Counts(es, r, window)
  {
    hide Tally, Latest;
    TallyIff(es, window, r);
    LatestIsLastVote(es, r);
  }

  /** Time running backwards can lose a vote that still counts: the window is measured at each call. */
  lemma BackwardsTimeLosesAVote()
    ensures var es := [Event(0.0, Some((1, ()))), Event(10.0, Some((2, ()))), Event(1.0, Some((2, ())))];
            Counts(es, 1, 5.0) && 1 !in Tally(es, 5.0)
  {
    var es := [Event(0.0, Some((1, ()))), Event(10.0, Some((2, ()))), Event(1.0, Some((2, ())))];
    assert es[..2] == [Event(0.0, Some((1, ()))), Event(10.0, Some((2, ())))];
    assert es[..2][..1] == [Event(0.0, Some((1, ())))];
    assert es[..2][..1][..0] == [];
  }

  lemma {:induction false} TallyReporters<W>(es: seq<Event<W>>, window: real, r: Reporter)
    requires r in Tally(es, window)
    ensures exists i :: 0 <= i < |es| && es[i].vote.Some? && es[i].vote.value.0 == r
  {
    var n := |es| - 1;
    if es[n].vote.Some? && es[n].vote.value.0 == r {
    } else {
      TallyReporters(es[..n], window, r);
      var i :| 0 <= i < n && es[..n][i].vote.Some? && es[..n][i].vote.value.0 == r;
      assert es[i] == es[..n][i];
    }
  }

  // ---- Batch proposals ----

  datatype Proposal = Proposal(key: Id, reporter: Reporter, hash: Id, now: real)

  type Buckets = map<Id, map<Reporter, Stamp<()>>>

  /** Every bucket without its stale stamps, the empty buckets dropped. */
  function Pruned(b: Buckets, now: real, window: real): Buckets {
    map h | h in b && Fresh(b[h], now, window) != map[] :: Fresh(b[h], now, window)
  }

  method PruneBuckets(b: Buckets, now: real, window: real) returns (b': Buckets)
    ensures b' == Pruned(b, now, window)
  {
    b' := map h | h in b :: Fresh(b[h], now, window);
    b' := map h | h in b' && b'[h] != map[] :: b'[h];
  }

  /** One record call on the buckets of its batch key: they are pruned and the vote joins its own. */
  function RecordIn(b: Buckets, p: Proposal, window: real): Buckets {
    var pruned := Pruned(b, p.now, window);
    var mine := if p.hash in pruned then pruned[p.hash] else map[];
    pruned[p.hash := mine[p.reporter := Stamp((), p.now)]]
  }

  function RecordProposal(all: map<Id, Buckets>, p: Proposal, window: real): map<Id, Buckets> {
    all[p.key := RecordIn(if p.key in all then all[p.key] else map[], p, window)]
  }

  function Proposals(ps: seq<Proposal>, window: real): map<Id, Buckets> {
    if ps == [] then map[] else RecordProposal(Proposals(ps[..|ps| - 1], window), ps[|ps| - 1], window)
  }

  function Voters(all: map<Id, Buckets>, key: Id, hash: Id): map<Reporter, Stamp<()>> {
    if key in all && hash in all[key] then all[key][hash] else map[]
  }

  /** The calls that touch the bucket of (`key`, `hash`), and whether each one votes for it. */
  function EventsFor(ps: seq<Proposal>, key: Id, hash: Id): seq<Event<()>> {
    if ps == [] then []
    else
      var p := ps[|ps| - 1];
      EventsFor(ps[..|ps| - 1], key, hash)
      + (if p.key != key then []
         else [Event(p.now, if p.hash == hash then Some((p.reporter, ())) else None)])
  }

  /** Every bucket of the nested maps is the tally of its own events. */
  lemma {:induction false} BucketIsTally(ps: seq<Proposal>, window: real, key: Id, hash: Id)
    ensures Voters(Proposals(ps, window), key, hash) == Tally(EventsFor(ps, key, hash), window)
  {
    if ps != [] {
      var init, p := ps[..|ps| - 1], ps[|ps| - 1];
      BucketIsTally(init, window, key, hash);
      var es := EventsFor(init, key, hash);
      if p.key == key {
        var e := Event(p.now, if p.hash == hash then Some((p.reporter, ())) else None);
        assert (es + [e])[..|es|] == es;
        RecordBucket(Proposals(init, window), p, window, hash);
      } else {
        assert es + [] == es;
      }
    }
  }

  lemma RecordBucket(all: map<Id, Buckets>, p: Proposal, window: real, hash: Id)
    ensures Voters(RecordProposal(all, p, window), p.key, hash)
            == Refresh(Voters(all, p.key, hash),
                 Event(p.now, if p.hash == hash then Some((p.reporter, ())) else None), window)
  {
    var before := Voters(all, p.key, hash);
    var b: Buckets := if p.key in all then all[p.key] else map[];
    assert hash !in b ==> before == map[];
    assert hash in b && Fresh(b[hash], p.now, window) == map[] ==> Fresh(before, p.now, window) == map[];
  }

  lemma ProposalsSnoc(ps: seq<Proposal>, p: Proposal, window: real)
    ensures Proposals(ps + [p], window) == RecordProposal(Proposals(ps, window), p, window)
  {
    assert (ps + [p])[..|ps|] == ps;
  }

  predicate Confirms(ps: seq<Proposal>, minReporters: nat, window: real) {
    ps != []
    && var p := ps[|ps| - 1];
       |Voters(Proposals(ps, window), p.key, p.hash)| >= minReporters
  }

  ghost predicate VotedFor(ps: seq<Proposal>, r: Reporter, key: Id, hash: Id) {
    exists i :: 0 <= i < |ps| && ps[i].reporter == r && ps[i].key == key && ps[i].hash == hash
  }

  lemma {:induction false} EventIsVote(ps: seq<Proposal>, key: Id, hash: Id, j: nat, r: Reporter)
    requires j < |EventsFor(ps, key, hash)|
    requires var v := EventsFor(ps, key, hash)[j].vote; v.Some? && v.value.0 == r
    ensures VotedFor(ps, r, key, hash)
  {
    var init, p := ps[..|ps| - 1], ps[|ps| - 1];
    if j < |EventsFor(init, key, hash)| {
      EventIsVote(init, key, hash, j, r);
      var i :| 0 <= i < |init| && init[i].reporter == r && init[i].key == key && init[i].hash == hash;
      assert ps[i] == init[i];
    }
  }

  /** Who is behind the last vote's hash at that moment. */
  function ConfirmingVoters(ps: seq<Proposal>, window: real): set<Reporter>
    requires ps != []
  {
    Voters(Proposals(ps, window), ps[|ps| - 1].key, ps[|ps| - 1].hash).Keys
  }

  /** A confirmation means that many distinct reporters, each with a vote for this very hash that
      counts at this moment. */
  lemma ConfirmationNeedsVoters(ps: seq<Proposal>, minReporters: nat, window: real)
    requires Confirms(ps, minReporters, window)
    ensures var p := ps[|ps| - 1];
            && |ConfirmingVoters(ps, window)| >= minReporters
            && forall r :: r in ConfirmingVoters(ps, window) ==>
                 VotedFor(ps, r, p.key, p.hash) && Counts(EventsFor(ps, p.key, p.hash), r, window)
  {
    var p := ps[|ps| - 1];
    BucketIsTally(ps, window, p.key, p.hash);
    forall r | r in ConfirmingVoters(ps, window)
      ensures VotedFor(ps, r, p.key, p.hash) && Counts(EventsFor(ps, p.key, p.hash), r, window)
    {
      VoterCounts(ps, p.key, p.hash, window, r);
    }
  }

  lemma VoterCounts(ps: seq<Proposal>, key: Id, hash: Id, window: real, r: Reporter)
    requires r in Tally(EventsFor(ps, key, hash), window)
    ensures VotedFor(ps, r, key, hash) && Counts(EventsFor(ps, key, hash), r, window)
  {
    var es := EventsFor(ps, key, hash);
    TallyIsSound(es, window, r);
    TallyReporters(es, window, r);
    var j :| 0 <= j < |es| && es[j].vote.Some? && es[j].vote.value.0 == r;
    EventIsVote(ps, key, hash, j, r);
  }

  // ---- Exactly who confirms, whatever the timestamps ----

  /** The position of a reporter's last vote for a hash of a batch key. */
  function LastProposal(ps: seq<Proposal>, key: Id, hash: Id, r: Reporter): (i: Option<nat>)
    ensures i.Some? ==> i.value < |ps| && ps[i.value] == Proposal(key, r, hash, ps[i.value].now)
  {
    if ps == [] then None
    else
      var p := ps[|ps| - 1];
      if p.key == key && p.hash == hash && p.reporter == r then Some(|ps| - 1)
      else LastProposal(ps[..|ps| - 1], key, hash, r)
  }

  /** Every later proposal for the same batch key, for whichever hash, came within the window. */
  ghost predicate Stands(ps: seq<Proposal>, i: nat, window: real)
    requires i < |ps|
  {
    forall j :: i < j < |ps| && ps[j].key == ps[i].key ==> ps[j].now - ps[i].now < window
  }

  lemma StandsSnoc(ps: seq<Proposal>, i: nat, window: real)
    requires i < |ps| - 1
    ensures var p := ps[|ps| - 1];
            Stands(ps, i, window) <==>
            Stands(ps[..|ps| - 1], i, window) && (p.key == ps[i].key ==> p.now - ps[i].now < window)
  {
    var init := ps[..|ps| - 1];
    assert forall j :: 0 <= j < |init| ==> init[j] == ps[j];
  }

  /** A reporter votes for a hash at this moment if and only if its last vote for that hash still
      stands. */
  lemma {:induction false} VoterIff(ps: seq<Proposal>, window: real, key: Id, hash: Id, r: Reporter)
    ensures var i := LastProposal(ps, key, hash, r);
            && (r in Voters(Proposals(ps, window), key, hash) <==> i.Some? && Stands(ps, i.value, window))
            && (r in Voters(Proposals(ps, window), key, hash) ==>
                  Voters(Proposals(ps, window), key, hash)[r].at == ps[i.value].now)
  {
    if ps != [] {
      var init, p := ps[..|ps| - 1], ps[|ps| - 1];
      VoterIff(init, window, key, hash, r);
      if LastProposal(init, key, hash, r).Some? { StandsSnoc(ps, LastProposal(init, key, hash, r).value, window); }
      if p.key == key { RecordBucket(Proposals(init, window), p, window, hash); }
      hide RecordIn, Pruned;
    }
  }

  /** The reporters whose last vote for the last proposal's hash still stands. */
  ghost function Standing(ps: seq<Proposal>, window: real): set<Reporter>
    requires ps != []
  {
    var p := ps[|ps| - 1];
    set i | 0 <= i < |ps| && StandsFor(ps, p.key, p.hash, ps[i].reporter, window) :: ps[i].reporter
  }

  ghost predicate StandsFor(ps: seq<Proposal>, key: Id, hash: Id, r: Reporter, window: real) {
    LastProposal(ps, key, hash, r).Some? && Stands(ps, LastProposal(ps, key, hash, r).value, window)
  }

  /** A proposal is confirmed, for arbitrary timestamps, if and only if that many distinct reporters'
      last votes for its hash still stand. */
  lemma ConfirmsIff(ps: seq<Proposal>, minReporters: nat, window: real)
    ensures Confirms(ps, minReporters, window) <==> ps != [] && |Standing(ps, window)| >= minReporters
  {
    if ps != [] {
      var p := ps[|ps| - 1];
      var voters := Voters(Proposals(ps, window), p.key, p.hash);
      hide Proposals, Voters;
      forall r ensures r in voters.Keys <==> r in Standing(ps, window) {
        VoterIff(ps, window, p.key, p.hash, r);
        if r in voters {
          var i := LastProposal(ps, p.key, p.hash, r).value;
          assert ps[i].reporter == r && StandsFor(ps, p.key, p.hash, r, window);
        }
      }
      assert voters.Keys == Standing(ps, window);
      assert |voters| == |voters.Keys|;
    }
  }

  ghost predicate InOrder(ps: seq<Proposal>) {
    forall i, j :: 0 <= i < j < |ps| ==> ps[i].now <= ps[j].now
  }

  lemma {:induction false} EventsInOrder(ps: seq<Proposal>, key: Id, hash: Id)
    requires InOrder(ps)
    ensures Nondecreasing(EventsFor(ps, key, hash))
    ensures forall i :: 0 <= i < |EventsFor(ps, key, hash)| ==> EventsFor(ps, key, hash)[i].now <= ps[|ps| - 1].now
  {
    if ps != [] {
      var init := ps[..|ps| - 1];
      EventsInOrder(init, key, hash);
      assert init != [] ==> init[|init| - 1].now <= ps[|ps| - 1].now;
    }
  }

  /** The hashes of a key for which some reporter's last vote still stands. */
  ghost function StandingHashes(ps: seq<Proposal>, key: Id, window: real): set<Id> {
    set i | 0 <= i < |ps| && StandsFor(ps, key, ps[i].hash, ps[i].reporter, window) :: ps[i].hash
  }

  ghost predicate NoEmptyBucket(b: Buckets) {
    forall h :: h in b ==> b[h] != map[]
  }

  lemma {:induction false} BucketsNonempty(ps: seq<Proposal>, window: real, key: Id)
    ensures key in Proposals(ps, window) ==> NoEmptyBucket(Proposals(ps, window)[key])
  {
    if ps != [] {
      var init, p := ps[..|ps| - 1], ps[|ps| - 1];
      BucketsNonempty(init, window, key);
      var all := Proposals(init, window);
      hide Proposals;
      RecordNonempty(if p.key in all then all[p.key] else map[], p, window);
      ProposalsLast(ps, window);
    }
  }

  lemma ProposalsLast(ps: seq<Proposal>, window: real)
    requires ps != []
    ensures Proposals(ps, window) == RecordProposal(Proposals(ps[..|ps| - 1], window), ps[|ps| - 1], window)
  {
  }

  lemma RecordNonempty(b: Buckets, p: Proposal, window: real)
    ensures NoEmptyBucket(RecordIn(b, p, window))
  {
    var r := RecordIn(b, p, window);
    assert p.reporter in r[p.hash];
  }

  /** The buckets kept for a key are exactly its hashes with a standing vote. */
  lemma BucketsStand(ps: seq<Proposal>, window: real, key: Id)
    ensures var all := Proposals(ps, window);
            (if key in all then all[key].Keys else {}) == StandingHashes(ps, key, window)
            && (if key in all then |all[key]| else 0) == |StandingHashes(ps, key, window)|
  {
    var all := Proposals(ps, window);
    var kept := if key in all then all[key].Keys else {};
    BucketsNonempty(ps, window, key);
    hide Proposals;
    forall h ensures h in kept <==> h in StandingHashes(ps, key, window) {
      if h in kept {
        var r :| r in all[key][h];
        VoterIff(ps, window, key, h, r);
        assert StandsFor(ps, key, h, r, window);
        var i := LastProposal(ps, key, h, r).value;
        assert ps[i].hash == h && ps[i].reporter == r;
      }
      if h in StandingHashes(ps, key, window) {
        var i :| 0 <= i < |ps| && StandsFor(ps, key, ps[i].hash, ps[i].reporter, window) && ps[i].hash == h;
        VoterIff(ps, window, key, h, ps[i].reporter);
      }
    }
    if key in all { assert |all[key]| == |all[key].Keys|; }
  }

  /** With timestamps in order, a batch's voters are exactly the reporters whose latest vote for that
      hash counts. */
  lemma VotersExact(ps: seq<Proposal>, window: real, key: Id, hash: Id, r: Reporter)
    requires InOrder(ps)
    ensures r in Voters(Proposals(ps, window), key, hash) <==> Counts(EventsFor(ps, key, hash), r, window)
  {
    BucketIsTally(ps, window, key, hash);
    EventsInOrder(ps, key, hash);
    TallyIsExact(EventsFor(ps, key, hash), window, r);
  }

  /** One reporter alone never confirms anything, however often it votes. */
  lemma SingleReporterNeverConfirms(ps: seq<Proposal>, minReporters: nat, window: real, r: Reporter)
    requires minReporters >= 2
    requires forall i :: 0 <= i < |ps| ==> ps[i].reporter == r
    ensures !Confirms(ps, minReporters, window)
  {
    if Confirms(ps, minReporters, window) {
      ConfirmationNeedsVoters(ps, minReporters, window);
      var voters := ConfirmingVoters(ps, window);
      assert voters <= {r};
      SubsetSize(voters, {r});
    }
  }

  /** No reporter votes for two hashes of one batch key, on whichever node the votes are seen. */
  ghost predicate NonEquivocating(ps: seq<Proposal>, qs: seq<Proposal>) {
    forall r, k, g, h :: (VotedFor(ps, r, k, g) || VotedFor(qs, r, k, g)) && (VotedFor(ps, r, k, h) || VotedFor(qs, r,
        k, h))
                         ==> g == h
  }

  /** Two nodes that see votes of fewer than twice the threshold of non-equivocating reporters never
      confirm different hashes for one batch key. */
  lemma NodesAgree(ps: seq<Proposal>, qs: seq<Proposal>, minReporters: nat, window: real, reporters: set<Reporter>)
    requires Confirms(ps, minReporters, window) && Confirms(qs, minReporters, window)
    requires ps[|ps| - 1].key == qs[|qs| - 1].key
    requires NonEquivocating(ps, qs)
    requires forall i :: 0 <= i < |ps| ==> ps[i].reporter in reporters
    requires forall i :: 0 <= i < |qs| ==> qs[i].reporter in reporters
    requires |reporters| < 2 * minReporters
    ensures ps[|ps| - 1].hash == qs[|qs| - 1].hash
  {
    ConfirmationNeedsVoters(ps, minReporters, window);
    ConfirmationNeedsVoters(qs, minReporters, window);
    var a, b := ConfirmingVoters(ps, window), ConfirmingVoters(qs, window);
    if ps[|ps| - 1].hash != qs[|qs| - 1].hash {
      forall r | r in a ensures r in reporters && r !in b {
        assert VotedFor(ps, r, ps[|ps| - 1].key, ps[|ps| - 1].hash);
      }
      forall r | r in b ensures r in reporters {
        assert VotedFor(qs, r, qs[|qs| - 1].key, qs[|qs| - 1].hash);
      }
      assert |a + b| == |a| + |b|;
      SubsetSize(a + b, reporters);
    }
  }

  class OrderBatchQuorum {
    var proposals: map<Id, Buckets>
    const minReporters: nat
    const windowSecs: real

    constructor (minReporters: nat, windowSecs: real)
      ensures this.minReporters == minReporters && this.windowSecs == windowSecs
      ensures proposals == Proposals([], windowSecs)
    {
      this.minReporters, this.windowSecs, proposals := minReporters, windowSecs, map[];
    }

    /** Records a vote; the answer and the new state are those of the extended history. */
    method Record(p: Proposal, ghost history: seq<Proposal>) returns (agreed: Option<Id>)
      requires proposals == Proposals(history, windowSecs)
      modifies this`proposals
      ensures proposals == Proposals(history + [p], windowSecs)
      ensures agreed == if Confirms(history + [p], minReporters, windowSecs) then Some(p.hash) else None
    {
      hide Proposals, Pruned;
      ProposalsSnoc(history, p, windowSecs);
      var byHash: Buckets := if p.key in proposals then proposals[p.key] else map[];
      byHash := PruneBuckets(byHash, p.now, windowSecs);
      var reporters := if p.hash in byHash then byHash[p.hash] else map[];
      reporters := reporters[p.reporter := Stamp((), p.now)];
      proposals := proposals[p.key := byHash[p.hash := reporters]];
      agreed := if |reporters| >= minReporters then Some(p.hash) else None;
    }

    /** How many hashes are proposed for a key by votes that still stand. */
    method DistinctHashCount(key: Id, ghost history: seq<Proposal>) returns (n: nat)
      requires proposals == Proposals(history, windowSecs)
      ensures n == |StandingHashes(history, key, windowSecs)|
    {
      BucketsStand(history, windowSecs, key);
      n := if key in proposals then |proposals[key]| else 0;
    }
  }

  // ---- Misconduct accusations ----

  datatype Accusation = Accusation(subject: Reporter, reporter: Reporter, weight: real, now: real)

  /** A reporter with no weight has no vote. */
  function AccusationsOf(acs: seq<Accusation>, subject: Reporter): seq<Event<real>> {
    if acs == [] then []
    else
      var a := acs[|acs| - 1];
      AccusationsOf(acs[..|acs| - 1], subject)
      + (if a.subject != subject || a.weight <= 0.0 then [] else [Event(a.now, Some((a.reporter, a.weight)))])
  }

  ghost function TotalWeight(m: map<Reporter, Stamp<real>>): real
    decreases |m|
  {
    if m == map[] then 0.0
    else
      var r :| r in m;
      m[r].info + TotalWeight(m - {r})
  }

  ghost predicate Convicts(acs: seq<Accusation>, subject: Reporter, minReporters: nat, threshold: real, window: real) {
    var t := Tally(AccusationsOf(acs, subject), window);
    |t| >= minReporters && TotalWeight(t) >= threshold
  }

  lemma {:induction false} AccusersOf(acs: seq<Accusation>, subject: Reporter, j: nat)
    requires j < |AccusationsOf(acs, subject)|
    ensures AccusationsOf(acs, subject)[j].vote.Some?
    ensures exists i :: && 0 <= i < |acs| && acs[i].subject == subject && acs[i].weight > 0.0
                        && acs[i].reporter == AccusationsOf(acs, subject)[j].vote.value.0
  {
    var init := acs[..|acs| - 1];
    if j < |AccusationsOf(init, subject)| {
      AccusersOf(init, subject, j);
      var i :| && 0 <= i < |init| && init[i].subject == subject && init[i].weight > 0.0
               && init[i].reporter == AccusationsOf(init, subject)[j].vote.value.0;
      assert acs[i] == init[i];
    }
  }

  /** Stake does not replace voices: however heavy, one accuser alone never convicts. */
  lemma OneAccuserNeverConvicts(acs: seq<Accusation>, subject: Reporter, minReporters: nat, threshold: real,
                                window: real, r: Reporter)
    requires minReporters >= 2
    requires forall i :: 0 <= i < |acs| && acs[i].subject == subject && acs[i].weight > 0.0 ==> acs[i].reporter == r
    ensures !Convicts(acs, subject, minReporters, threshold, window)
  {
    var es := AccusationsOf(acs, subject);
    var t := Tally(es, window);
    forall x | x in t ensures x == r {
      TallyReporters(es, window, x);
      var j :| 0 <= j < |es| && es[j].vote.Some? && es[j].vote.value.0 == x;
      AccusersOf(acs, subject, j);
    }
    assert t.Keys <= {r};
    SubsetSize(t.Keys, {r});
  }

  class MisconductQuorum {
    var accusations: map<Reporter, map<Reporter, Stamp<real>>>
    const minReporters: nat
    const stakeThreshold: real
    const windowSecs: real

    ghost predicate Reflects(history: seq<Accusation>)
      reads this
    {
      forall s: Reporter ::
        (if s in accusations then accusations[s] else map[]) == Tally(AccusationsOf(history, s), windowSecs)
    }

    constructor (minReporters: nat, stakeThreshold: real, windowSecs: real)
      ensures this.minReporters == minReporters && this.stakeThreshold == stakeThreshold
      ensures this.windowSecs == windowSecs && Reflects([])
    {
      this.minReporters, this.stakeThreshold, this.windowSecs := minReporters, stakeThreshold, windowSecs;
      accusations := map[];
    }

    /** `apply_or_record_accusation`: a weightless reporter is ignored; otherwise the vote is
        recorded and the answer says whether the history with it now convicts the subject. */
    method Accuse(a: Accusation, ghost history: seq<Accusation>) returns (met: bool)
      requires Reflects(history)
      modifies this`accusations
      ensures Reflects(history + [a])
      ensures met <==> a.weight > 0.0
                       && Convicts(history + [a], a.subject, minReporters, stakeThreshold, windowSecs)
    {
      assert (history + [a])[..|history|] == history;
      if a.weight <= 0.0 {
        assert forall s :: AccusationsOf(history + [a], s) == AccusationsOf(history, s);
        return false;
      }
      var reporters := if a.subject in accusations then accusations[a.subject] else map[];
      reporters := Fresh(reporters, a.now, windowSecs);
      reporters := reporters[a.reporter := Stamp(a.weight, a.now)];
      accusations := accusations[a.subject := reporters];
      forall s: Reporter
        ensures (if s in accusations then accusations[s] else map[])
             == Tally(AccusationsOf(history + [a], s), windowSecs)
      {
        AccuseTally(history, a, s, windowSecs);
      }
      var total := SumWeights(reporters);
      met := |reporters| >= minReporters && total >= stakeThreshold;
    }
  }

  lemma AccuseTally(history: seq<Accusation>, a: Accusation, s: Reporter, window: real)
    requires a.weight > 0.0
    ensures var before := Tally(AccusationsOf(history, s), window);
            Tally(AccusationsOf(history + [a], s), window)
            == if s == a.subject then Refresh(before, Event(a.now, Some((a.reporter, a.weight))), window) else before
  {
    assert (history + [a])[..|history|] == history;
    var es := AccusationsOf(history, s);
    if s == a.subject {
      var e := Event(a.now, Some((a.reporter, a.weight)));
      assert (es + [e])[..|es|] == es;
    } else {
      assert es + [] == es;
    }
  }

  lemma {:induction false} TotalWithout(m: map<Reporter, Stamp<real>>, r: Reporter)
    requires r in m
    ensures TotalWeight(m) == m[r].info + TotalWeight(m - {r})
    decreases |m|
  {
    var x :| x in m && TotalWeight(m) == m[x].info + TotalWeight(m - {x});
    if x != r {
      TotalWithout(m - {x}, r);
      TotalWithout(m - {r}, x);
      assert (m - {x}) - {r} == (m - {r}) - {x};
    }
  }

  /** The sum of the weights, in whatever order the map is walked. */
  method SumWeights(m: map<Reporter, Stamp<real>>) returns (total: real)
    ensures total == TotalWeight(m)
  {
    total := 0.0;
    var left := m;
    while left != map[]
      invariant total + TotalWeight(left) == TotalWeight(m)
      decreases |left|
    {
      var r :| r in left;
      TotalWithout(left, r);
      total := total + left[r].info;
      left := left - {r};
    }
  }

  // ---- Exactly who convicts, whatever the timestamps ----

  /** An accusation of the subject that has a vote. */
  predicate Accuses(a: Accusation, subject: Reporter) {
    a.subject == subject && a.weight > 0.0
  }

  /** The accusation at `i` is its reporter's last of the subject, and every later one of the subject, by
      whomever, came within the window of it. */
  ghost predicate StandsAt(acs: seq<Accusation>, i: nat, subject: Reporter, window: real) {
    && i < |acs| && Accuses(acs[i], subject)
    && forall j :: i < j < |acs| && Accuses(acs[j], subject) ==>
         acs[j].reporter != acs[i].reporter && acs[j].now - acs[i].now < window
  }

  /** The reporters of the standing accusations among the first `n`. */
  ghost function StandingUpTo(acs: seq<Accusation>, n: nat, subject: Reporter, window: real): set<Reporter>
    requires n <= |acs|
  {
    set i | 0 <= i < n && StandsAt(acs, i, subject, window) :: acs[i].reporter
  }

  ghost function StandingAccusers(acs: seq<Accusation>, subject: Reporter, window: real): set<Reporter> {
    StandingUpTo(acs, |acs|, subject, window)
  }

  /** The weights of the standing accusations among the first `n`. */
  ghost function StandingWeight(acs: seq<Accusation>, n: nat, subject: Reporter, window: real): real
    requires n <= |acs|
  {
    if n == 0 then 0.0
    else
      StandingWeight(acs, n - 1, subject, window)
      + (if StandsAt(acs, n - 1, subject, window) then acs[n - 1].weight else 0.0)
  }

  lemma StandsAtSnoc(init: seq<Accusation>, a: Accusation, i: nat, subject: Reporter, window: real)
    requires i < |init|
    ensures StandsAt(init + [a], i, subject, window) <==>
            StandsAt(init, i, subject, window)
            && (Accuses(a, subject) ==> a.reporter != init[i].reporter && a.now - init[i].now < window)
  {
    var acs := init + [a];
    assert forall j :: 0 <= j < |init| ==> acs[j] == init[j];
    if StandsAt(acs, i, subject, window) {
      assert Accuses(acs[|init|], subject) ==> acs[|init|].reporter != acs[i].reporter;
    }
  }

  /** The reporter of a standing accusation is in the tally, with that accusation's weight and time. */
  lemma {:induction false} StandsInTally(acs: seq<Accusation>, subject: Reporter, window: real, i: nat)
    requires i < |acs|
    ensures var t := Tally(AccusationsOf(acs, subject), window);
            StandsAt(acs, i, subject, window) ==>
              acs[i].reporter in t && t[acs[i].reporter] == Stamp(acs[i].weight, acs[i].now)
  {
    var init, a := acs[..|acs| - 1], acs[|acs| - 1];
    assert acs == init + [a];
    hide Tally, AccusationsOf, StandsAt;
    if i < |init| {
      StandsInTally(init, subject, window, i);
      StandsAtSnoc(init, a, i, subject, window);
      TallyNext(init, a, subject, window);
    } else {
      TallyNext(init, a, subject, window);
      LastAccuses(acs, subject, window);
    }
  }

  lemma LastAccuses(acs: seq<Accusation>, subject: Reporter, window: real)
    requires acs != []
    ensures StandsAt(acs, |acs| - 1, subject, window) <==> Accuses(acs[|acs| - 1], subject)
  {
  }

  lemma TallyNext(init: seq<Accusation>, a: Accusation, subject: Reporter, window: real)
    ensures var t := Tally(AccusationsOf(init, subject), window);
            Tally(AccusationsOf(init + [a], subject), window)
            == if Accuses(a, subject) then Refresh(t, Event(a.now, Some((a.reporter, a.weight))), window) else t
  {
    if a.weight > 0.0 {
      AccuseTally(init, a, subject, window);
    } else {
      assert (init + [a])[..|init|] == init;
      assert AccusationsOf(init, subject) + [] == AccusationsOf(init, subject);
    }
  }

  lemma {:induction false} AccuserStands(acs: seq<Accusation>, subject: Reporter, window: real, r: Reporter)
    returns (i: nat)
    ensures r in Tally(AccusationsOf(acs, subject), window) ==>
              StandsAt(acs, i, subject, window) && acs[i].reporter == r
  {
    i := 0;
    if acs != [] {
      var init, a := acs[..|acs| - 1], acs[|acs| - 1];
      assert acs == init + [a];
      i := AccuserStands(init, subject, window, r);
      hide Tally, AccusationsOf, StandsAt;
      TallyNext(init, a, subject, window);
      LastAccuses(acs, subject, window);
      if Accuses(a, subject) && a.reporter == r {
        i := |init|;
      } else if r in Tally(AccusationsOf(acs, subject), window) {
        StoodBefore(init, a, subject, window, r, i);
      }
    }
  }

  lemma StoodBefore(init: seq<Accusation>, a: Accusation, subject: Reporter, window: real, r: Reporter, i: nat)
    requires r in Tally(AccusationsOf(init + [a], subject), window) && !(Accuses(a, subject) && a.reporter == r)
    requires StandsAt(init, i, subject, window) && init[i].reporter == r
    ensures StandsAt(init + [a], i, subject, window)
  {
    hide Tally, AccusationsOf;
    TallyNext(init, a, subject, window);
    StandsInTally(init, subject, window, i);
    StandsAtSnoc(init, a, i, subject, window);
  }

  function Only(t: map<Reporter, Stamp<real>>, rs: set<Reporter>): map<Reporter, Stamp<real>> {
    map r | r in t && r in rs :: t[r]
  }

  lemma OnlyMore(t: map<Reporter, Stamp<real>>, rs: set<Reporter>, r: Reporter)
    requires r in t && r !in rs
    ensures var m := Only(t, rs + {r}); r in m && m[r] == t[r] && m - {r} == Only(t, rs)
  {
  }

  lemma StandingNext(acs: seq<Accusation>, n: nat, subject: Reporter, window: real)
    requires 0 < n <= |acs|
    ensures var before, r := StandingUpTo(acs, n - 1, subject, window), acs[n - 1].reporter;
            && (StandsAt(acs, n - 1, subject, window) ==>
                  r !in before && StandingUpTo(acs, n, subject, window) == before + {r})
            && (!StandsAt(acs, n - 1, subject, window) ==> StandingUpTo(acs, n, subject, window) == before)
  {
    var before, r := StandingUpTo(acs, n - 1, subject, window), acs[n - 1].reporter;
    if StandsAt(acs, n - 1, subject, window) {
      forall i | 0 <= i < n - 1 && StandsAt(acs, i, subject, window) ensures acs[i].reporter != r {
        assert Accuses(acs[n - 1], subject);
      }
    }
    hide StandsAt;
  }

  lemma WeightNext(acs: seq<Accusation>, n: nat, subject: Reporter, window: real)
    requires 0 < n <= |acs|
    ensures StandingWeight(acs, n, subject, window)
            == StandingWeight(acs, n - 1, subject, window)
               + (if StandsAt(acs, n - 1, subject, window) then acs[n - 1].weight else 0.0)
  {
    hide StandsAt;
  }

  lemma NoWeight(acs: seq<Accusation>, t: map<Reporter, Stamp<real>>, subject: Reporter, window: real)
    ensures Only(t, StandingUpTo(acs, 0, subject, window)) == map[] && TotalWeight(map[]) == 0.0
    ensures StandingWeight(acs, 0, subject, window) == 0.0
  {
    hide StandsAt;
    assert StandingUpTo(acs, 0, subject, window) == {};
  }

  lemma {:induction false} WeightUpTo(acs: seq<Accusation>, n: nat, subject: Reporter, window: real)
    requires n <= |acs|
    ensures var t := Tally(AccusationsOf(acs, subject), window);
            TotalWeight(Only(t, StandingUpTo(acs, n, subject, window))) == StandingWeight(acs, n, subject, window)
  {
    hide *;
    var t := Tally(AccusationsOf(acs, subject), window);
    if n == 0 {
      NoWeight(acs, t, subject, window);
    } else {
      WeightUpTo(acs, n - 1, subject, window);
      StandingNext(acs, n, subject, window);
      WeightNext(acs, n, subject, window);
      if StandsAt(acs, n - 1, subject, window) {
        StandsInTally(acs, subject, window, n - 1);
        OnlyMore(t, StandingUpTo(acs, n - 1, subject, window), acs[n - 1].reporter);
        TotalWithout(Only(t, StandingUpTo(acs, n, subject, window)), acs[n - 1].reporter);
      }
    }
  }

  /** A history convicts a subject, for arbitrary timestamps, if and only if enough distinct reporters'
      last accusations of it still stand and the weights of those accusations reach the threshold. */
  lemma ConvictsIff(acs: seq<Accusation>, subject: Reporter, minReporters: nat, threshold: real, window: real)
    ensures Convicts(acs, subject, minReporters, threshold, window) <==>
            && |StandingAccusers(acs, subject, window)| >= minReporters
            && StandingWeight(acs, |acs|, subject, window) >= threshold
  {
    var t := Tally(AccusationsOf(acs, subject), window);
    hide Tally, AccusationsOf, StandingUpTo, StandingWeight, TotalWeight;
    WeightUpTo(acs, |acs|, subject, window);
    TallyIsStanding(acs, subject, window);
    assert Only(t, t.Keys) == t;
    assert |t| == |t.Keys|;
  }

  lemma TallyIsStanding(acs: seq<Accusation>, subject: Reporter, window: real)
    ensures Tally(AccusationsOf(acs, subject), window).Keys == StandingAccusers(acs, subject, window)
  {
    var t := Tally(AccusationsOf(acs, subject), window);
    hide Tally, AccusationsOf, StandsAt;
    forall r | r in t ensures r in StandingAccusers(acs, subject, window) {
      var i := AccuserStands(acs, subject, window, r);
      InRange(acs, i, subject, window);
    }
    forall i | 0 <= i < |acs| && StandsAt(acs, i, subject, window) ensures acs[i].reporter in t {
      StandsInTally(acs, subject, window, i);
    }
  }

  lemma InRange(acs: seq<Accusation>, i: nat, subject: Reporter, window: real)
    requires StandsAt(acs, i, subject, window)
    ensures i < |acs|
  {
  }
}
