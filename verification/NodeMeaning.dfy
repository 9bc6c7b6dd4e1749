/** What the node's core means: the book's own run over the accepted orders, the two logs as its record,
    and the pending matches as what was produced and not yet confirmed. */
module NodeMeaning {
  import opened Types
  import opened Engine
  import opened BookInvariants
  import opened BookTheorems
  import opened HashChain
  import opened NodeState
  import opened Recovery
  import opened RecoveryTheorems
  import opened NodeRuns
  import opened FailedWrites
  import opened ConfirmRuns
  import opened ExactlyOnce
  import Archive

  /** The commands the accepted orders give the book, each at its recorded time, or at the clock's. */
  function Commands(es: seq<WalEntry>, clocks: seq<u64>): seq<Command>
    requires |clocks| == |es|
    decreases |es|
  {
    if es == [] then []
    else
      var i := |es| - 1;
      Commands(es[..i], clocks[..i])
      + (if es[i].OrderAccepted? then [CommandOf(es[i].order, es[i].matchTimestampUs, clocks[i])] else [])
  }

  function CommandOf(o: Order, recorded: Option<u64>, clock: u64): Command {
    AddOrder(o, if recorded.Some? then recorded.value else clock)
  }

  function BookRun(book: Book, es: seq<WalEntry>, clocks: seq<u64>): AddResult
    requires |clocks| == |es|
  {
    BookTheorems.Run(book, Commands(es, clocks))
  }

  lemma RunSnoc(book: Book, cmds: seq<Command>, o: Order, t: u64)
    ensures BookTheorems.Run(book, cmds + [AddOrder(o, t)]) ==
            var prev := BookTheorems.Run(book, cmds);
            var added := Add(prev.book, o, t);
            AddResult(added.book, prev.matches + added.matches)
  {
    assert (cmds + [AddOrder(o, t)])[..|cmds|] == cmds;
  }

  /** The core's book is the book's run over the accepted orders; the order log holds exactly their
      receipts and the match log exactly the matches produced, in order. */
  ghost predicate Records(h: Hashes, c: Core, r: AddResult, receipts: seq<Receipt>) {
    && c.book == r.book
    && c.orderLog == AppendAll(h.ofReceipt, EmptyChain(), receipts)
    && c.matchLog == AppendAll(h.ofMatch, EmptyChain(), r.matches)
  }

  lemma AcceptRecords(h: Hashes, c: Core, book: Book, cmds: seq<Command>, receipts: seq<Receipt>, o: Order,
      rc: Receipt, t: u64)
    requires Records(h, c, BookTheorems.Run(book, cmds), receipts)
    ensures Records(h, Accept(h, c, o, rc, t), BookTheorems.Run(book, cmds + [AddOrder(o, t)]), receipts + [rc])
  {
    hide Add, AppendAll, Append, BookTheorems.Run, AddPending;
    RunSnoc(book, cmds, o, t);
    Archive.AppendAllSnoc(h.ofReceipt, EmptyChain(), receipts, rc);
    Archive.AppendAllConcat(h.ofMatch, EmptyChain(), BookTheorems.Run(book, cmds).matches, Add(c.book, o, t).matches);
  }

  lemma {:induction false} NodeIsBookRun(h: Hashes, book: Book, es: seq<WalEntry>, clocks: seq<u64>)
    requires |clocks| == |es|
    ensures Records(h, FoldCore(h, NewCore(book), es, clocks), BookRun(book, es, clocks), Receipts(es))
    decreases |es|
  {
    if es == [] {
      Archive.NoneAppended(h.ofReceipt, EmptyChain());
      Archive.NoneAppended(h.ofMatch, EmptyChain());
    } else {
      var i := |es| - 1;
      NodeIsBookRun(h, book, es[..i], clocks[..i]);
      var c, cmds, rs := FoldCore(h, NewCore(book), es[..i], clocks[..i]), Commands(es[..i], clocks[..i]),
          Receipts(es[..i]);
      hide FoldCore, BookTheorems.Run, Accept, AppendAll;
      FoldLast(h, NewCore(book), es, clocks);
      if es[i].OrderAccepted? {
        hide Records;
        AcceptRecords(h, c, book, cmds, rs, es[i].order, es[i].receipt, MatchTime(es[i].matchTimestampUs, clocks[i]));
      } else {
        assert cmds + [] == cmds && rs + [] == rs;
      }
    }
  }

  // ---- Pending matches ----

  /** Pending is exactly what was produced and not confirmed. */
  ghost predicate PendingExact(pending: map<Key, Match>, produced: seq<Match>, confirmed: set<Key>) {
    && (forall m :: m in produced && KeyOf(m) !in confirmed ==> KeyOf(m) in pending && pending[KeyOf(m)] == m)
    && (forall k :: k in pending ==> pending[k] in produced && KeyOf(pending[k]) == k && k !in confirmed)
  }

  lemma AddOnePending(pending: map<Key, Match>, produced: seq<Match>, confirmed: set<Key>, m: Match)
    requires PendingExact(pending, produced, confirmed) && KeyOf(m) !in confirmed
    requires forall x :: x in produced ==> KeyOf(x) != KeyOf(m)
    ensures PendingExact(pending[KeyOf(m) := m], produced + [m], confirmed)
  {
  }

  ghost predicate FreshKeys(ms: seq<Match>, confirmed: set<Key>) {
    forall i :: 0 <= i < |ms| ==> KeyOf(ms[i]) !in confirmed
  }

  lemma {:induction false} AddPendingExact(pending: map<Key, Match>, produced: seq<Match>, confirmed: set<Key>,
      ms: seq<Match>)
    requires PendingExact(pending, produced, confirmed) && KeysUnique(produced + ms) && FreshKeys(ms, confirmed)
    ensures PendingExact(AddPending(pending, ms), produced + ms, confirmed)
    decreases |ms|
  {
    if ms == [] {
      assert produced + ms == produced;
    } else {
      var init, m := ms[..|ms| - 1], ms[|ms| - 1];
      assert produced + ms == (produced + init) + [m];
      UniqueSnoc(produced + init, m);
      AddPendingExact(pending, produced, confirmed, init);
      hide PendingExact;
      AddOnePending(AddPending(pending, init), produced + init, confirmed, m);
    }
  }

  lemma UniqueSnoc(a: seq<Match>, m: Match)
    requires KeysUnique(a + [m])
    ensures KeysUnique(a) && forall x :: x in a ==> KeyOf(x) != KeyOf(m)
  {
    forall i, j | 0 <= i < j < |a| ensures KeyOf(a[i]) != KeyOf(a[j]) {
      assert (a + [m])[i] == a[i] && (a + [m])[j] == a[j];
    }
    forall x | x in a ensures KeyOf(x) != KeyOf(m) {
      var i :| 0 <= i < |a| && a[i] == x;
      assert (a + [m])[i] == x && (a + [m])[|a|] == m;
    }
  }

  lemma ConfirmExact(pending: map<Key, Match>, produced: seq<Match>, confirmed: set<Key>, k: Key)
    requires PendingExact(pending, produced, confirmed)
    ensures PendingExact(pending - {k}, produced, confirmed + {k})
  {
  }

  lemma CommandsSnoc(es: seq<WalEntry>, clocks: seq<u64>, e: WalEntry, t: u64)
    requires |clocks| == |es|
    ensures Commands(es + [e], clocks + [t]) ==
            Commands(es, clocks)
            + (if e.OrderAccepted? then [AddOrder(e.order, MatchTime(e.matchTimestampUs, t))] else [])
  {
    assert (es + [e])[..|es|] == es && (clocks + [t])[..|es|] == clocks;
  }

  lemma AddsSnoc(cmds: seq<Command>, o: Order, t: u64)
    ensures AddedIds(cmds + [AddOrder(o, t)]) == AddedIds(cmds) + {o.id}
    ensures DistinctAdds(cmds) && o.id !in AddedIds(cmds) ==> DistinctAdds(cmds + [AddOrder(o, t)])
  {
    assert (cmds + [AddOrder(o, t)])[..|cmds|] == cmds;
  }

  lemma {:induction false} DistinctCommands(es: seq<WalEntry>, clocks: seq<u64>)
    requires |clocks| == |es| && Distinct(AcceptedIds(es))
    ensures DistinctAdds(Commands(es, clocks)) && AddedIds(Commands(es, clocks)) == AcceptedSet(es)
    decreases |es|
  {
    if es != [] {
      var init, e := SplitLast(es);
      var times, t := SplitLast(clocks);
      hide Distinct, AcceptedIds, AcceptedSet, Commands, DistinctAdds, AddedIds;
      DistinctNext(init, e);
      DistinctCommands(init, times);
      CommandsSnoc(init, times, e, t);
      AcceptedSnoc(init, e);
      if e.OrderAccepted? {
        AddsSnoc(Commands(init, times), e.order, MatchTime(e.matchTimestampUs, t));
      } else {
        assert Commands(init, times) + [] == Commands(init, times);
      }
    }
  }

  lemma MatchTakers(b: Book, o: Order, t: u64, confirmed: set<Key>, ids: set<Id>)
    requires TakersIn(confirmed, ids) && o.id !in ids
    ensures FreshKeys(Add(b, o, t).matches, confirmed)
  {
    var ms := Add(b, o, t).matches;
    assert forall i :: 0 <= i < |ms| ==> ms[i].takerId == o.id;
  }

  lemma UniqueAfterAccept(book: Book, es: seq<WalEntry>, clocks: seq<u64>, e: WalEntry, t: u64)
    requires |clocks| == |es| && e.OrderAccepted? && BookOk(book) && Live(book) == multiset{}
    requires Distinct(AcceptedIds(es + [e]))
    ensures var at := MatchTime(e.matchTimestampUs, t);
            var prev := BookRun(book, es, clocks);
            && BookRun(book, es + [e], clocks + [t]).matches == prev.matches + Add(prev.book, e.order, at).matches
            && KeysUnique(prev.matches + Add(prev.book, e.order, at).matches)
  {
    hide Add, BookTheorems.Run, AcceptedIds, AcceptedSet, Distinct, DistinctAdds, AddedIds, Live, LiveWithin,
        TakersWithin, KeysUnique,
         BookOk, Commands;
    DistinctCommands(es + [e], clocks + [t]);
    MatchKeysUnique(book, Commands(es + [e], clocks + [t]));
    CommandsSnoc(es, clocks, e, t);
    RunSnoc(book, Commands(es, clocks), e.order, MatchTime(e.matchTimestampUs, t));
  }

  lemma AcceptedPendingExact(h: Hashes, book: Book, es: seq<WalEntry>, clocks: seq<u64>, e: WalEntry, t: u64, c: Core)
    requires |clocks| == |es| && e.OrderAccepted? && BookOk(book) && Live(book) == multiset{}
    requires Distinct(AcceptedIds(es + [e])) && TakersIn(ConfirmKeys(es), AcceptedSet(es))
    requires c.book == BookRun(book, es, clocks).book
    requires PendingExact(c.pending, BookRun(book, es, clocks).matches, ConfirmKeys(es))
    ensures PendingExact(CoreStep(h, c, e, t).pending, BookRun(book, es + [e], clocks + [t]).matches,
        ConfirmKeys(es + [e]))
  {
    var at := MatchTime(e.matchTimestampUs, t);
    hide Add, BookRun, AddPending, PendingExact, KeysUnique, FreshKeys, AcceptedIds, AcceptedSet, ConfirmKeys, Distinct,
         AppendAll, Append, TakersIn, Live, BookOk, Candidates, SettledKeys, QueuedOrders;
    DistinctNext(es, e);
    LogSnoc(es, e, {});
    assert ConfirmKeys(es) + {} == ConfirmKeys(es);
    UniqueAfterAccept(book, es, clocks, e, t);
    MatchTakers(c.book, e.order, at, ConfirmKeys(es), AcceptedSet(es));
    AddPendingExact(c.pending, BookRun(book, es, clocks).matches, ConfirmKeys(es), Add(c.book, e.order, at).matches);
  }

  lemma PlainPendingExact(h: Hashes, book: Book, es: seq<WalEntry>, clocks: seq<u64>, e: WalEntry, t: u64, c: Core)
    requires |clocks| == |es| && !e.OrderAccepted?
    requires PendingExact(c.pending, BookRun(book, es, clocks).matches, ConfirmKeys(es))
    ensures PendingExact(CoreStep(h, c, e, t).pending, BookRun(book, es + [e], clocks + [t]).matches,
        ConfirmKeys(es + [e]))
  {
    CommandsSnoc(es, clocks, e, t);
    LogSnoc(es, e, {});
    hide BookTheorems.Run, PendingExact, ConfirmKeys, Candidates, SettledKeys, QueuedOrders;
    assert Commands(es, clocks) + [] == Commands(es, clocks);
    if e.CommitConfirmed? {
      ConfirmExact(c.pending, BookRun(book, es, clocks).matches, ConfirmKeys(es), KeyOf(e.m));
    } else {
      assert ConfirmKeys(es) + {} == ConfirmKeys(es);
    }
  }

  /** In a log of distinct orders whose confirmations follow them, the pending matches are exactly the
      produced ones not yet confirmed. */
  lemma {:induction false} PendingIsUnconfirmed(h: Hashes, book: Book, es: seq<WalEntry>, clocks: seq<u64>)
    requires |clocks| == |es| && BookOk(book) && Live(book) == multiset{}
    requires Follows(es) && Distinct(AcceptedIds(es))
    ensures PendingExact(FoldCore(h, NewCore(book), es, clocks).pending, BookRun(book, es, clocks).matches,
        ConfirmKeys(es))
    decreases |es|
  {
    if es != [] {
      var i := |es| - 1;
      var init, times, e, t := es[..i], clocks[..i], es[i], clocks[i];
      assert es == init + [e] && clocks == times + [t];
      FoldLast(h, NewCore(book), es, clocks);
      hide FoldCore, CoreStep, PendingExact, AcceptedIds, AcceptedSet, Distinct, BookRun, BookOk, Live, ConfirmKeys,
          TakersIn;
      DistinctNext(init, e);
      PendingIsUnconfirmed(h, book, init, times);
      var c := FoldCore(h, NewCore(book), init, times);
      if e.OrderAccepted? {
        NodeIsBookRun(h, book, init, times);
        DistinctKeysOnce(h, book, init, times);
        AcceptedPendingExact(h, book, init, times, e, t, c);
      } else {
        PlainPendingExact(h, book, init, times, e, t, c);
      }
    }
  }

  /** What a journal says: the book is the book's own run over its accepted orders and is well formed;
      the logs record exactly the receipts and matches of that run; and pending is exactly what it
      produced and the journal does not confirm. */
  ghost predicate Means(h: Hashes, book: Book, j: Journal) {
    JournalOk(j) &&
    var r := BookRun(book, j.entries, j.clocks);
    && BookOk(r.book) && KeysUnique(r.matches)
    && Records(h, Ideal(h, book, j), r, Receipts(j.entries))
    && PendingExact(Ideal(h, book, j).pending, r.matches, ConfirmKeys(j.entries))
  }

  lemma JournalMeans(h: Hashes, book: Book, j: Journal)
    requires BookOk(book) && Live(book) == multiset{}
    requires JournalOk(j) && Follows(j.entries) && Distinct(AcceptedIds(j.entries))
    ensures Means(h, book, j)
  {
    hide FoldCore, Follows, AcceptedIds, Distinct, BookTheorems.Run, PendingExact, KeysUnique, BookOk, Live,
        ConfirmKeys,
         LiveWithin, TakersWithin, DistinctAdds, AddedIds, AppendAll;
    NodeIsBookRun(h, book, j.entries, j.clocks);
    PendingIsUnconfirmed(h, book, j.entries, j.clocks);
    DistinctCommands(j.entries, j.clocks);
    MatchKeysUnique(book, Commands(j.entries, j.clocks));
    ReachableBookOk(book, Commands(j.entries, j.clocks));
  }

  /** In every sequenced run from an empty book that retries nothing, both what the node acted on and what
      recovery reflects have this meaning; the running book is the former's, and a recovered core agrees
      with the latter. */
  lemma EveryRunMeans(h: Hashes, book: Book, ops: seq<Op>, clock: nat -> u64)
    requires Sequenced(ops) && NeverRetries(h, book, ops) && BookOk(book) && Live(book) == multiset{}
    ensures var w := NodeRuns.Run(h, book, ops);
            && Means(h, book, w.trace.acted) && Means(h, book, w.trace.logged)
            && (w.alive ==> Agrees(false, Ideal(h, book, w.trace.acted), w.node.core))
            && Agrees(false, Ideal(h, book, w.trace.logged), Recover(h, book, w, clock).core)
  {
    var w := NodeRuns.Run(h, book, ops);
    EveryRunSimulates(h, book, ops, false);
    OnceIff(h, book, ops);
    EveryRunFollows(h, book, ops);
    RecoveryAgrees(h, book, w, clock, false);
    hide NodeRuns.Run, Ideal, Follows, AcceptedIds, Distinct, SavedOk, Means, BookOk, Live, Recover, Agrees,
        NeverRetries, AlwaysOnce,
         ConfirmedOnce;
    JournalMeans(h, book, w.trace.acted);
    JournalMeans(h, book, w.trace.logged);
  }
}
