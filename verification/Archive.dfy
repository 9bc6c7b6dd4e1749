/** Cold storage for the logs: old entries move from memory to an archive tree, cycle by cycle, and a
    query reads across the boundary. */
module Archive {
  import opened Types
  import opened HashChain

  // ---- The archive tree: 64-bit keys, scanned in ascending order ----

  function Scan<T>(tree: map<nat, T>, lo: nat, hi: nat): seq<T>
    decreases hi - lo
  {
    if lo >= hi then [] else (if lo in tree then [tree[lo]] else []) + Scan(tree, lo + 1, hi)
  }

  /** Every value with a key at or above `since`. */
  ghost function ArchivedSince<T>(tree: map<nat, T>, since: nat): seq<T> {
    Scan(tree, since, TWO_64)
  }

  function InsertAll<T>(tree: map<nat, Entry<T>>, entries: seq<Entry<T>>): map<nat, Entry<T>> {
    if entries == [] then tree
    else
      var e := entries[|entries| - 1];
      InsertAll(tree, entries[..|entries| - 1])[e.index := e]
  }

  /** Inserting one entry at a time; the write may fail after `writes` inserts, or at the flush. */
  method ArchiveEntries<T>(tree: map<nat, Entry<T>>, entries: seq<Entry<T>>, writes: nat, flushed: bool)
    returns (stored: map<nat, Entry<T>>, ok: bool)
    ensures stored == InsertAll(tree, entries[..Min(writes, |entries|)])
    ensures ok <==> writes >= |entries| && flushed
    ensures ok ==> stored == InsertAll(tree, entries)
  {
    stored := tree;
    for i := 0 to |entries|
      invariant i <= writes
      invariant stored == InsertAll(tree, entries[..i])
    {
      if i == writes {
        return stored, false;
      }
      assert entries[..i + 1][..i] == entries[..i];
      stored := stored[entries[i].index := entries[i]];
    }
    assert entries[..|entries|] == entries;
    ok := flushed;
  }

  // ---- The life of one log ----

  /** `history` is the whole log as the node now has it, archived part included. `hot` is what the node
      holds in memory, `saved` the log inside the last durable snapshot and `tail` the payloads appended
      since. */
  datatype LogState<T> = LogState(
    history: seq<Entry<T>>, hot: Chain<T>, archive: map<nat, Entry<T>>, saved: Chain<T>, tail: seq<T>)

  /** `again` is what replaying the write-ahead log appends after a crash. It need not be what was there:
      matches come back as they were only if their times were recorded, and an order whose entry was
      inserted and reported failed adds its receipt, and may take liquidity others matched. */
  datatype Step<T> =
    | AppendStep(payload: T)
    | ArchiveCycle(window: nat, writes: nat, flushed: bool)
    | SaveSnapshot
    | Crash(again: seq<T>)

  function InitialLog<T>(): LogState<T> {
    LogState([], EmptyChain(), map[], EmptyChain(), [])
  }

  function Cycle<T>(s: LogState<T>, window: nat, writes: nat, flushed: bool): LogState<T> {
    if |s.hot.entries| <= window then s
    else
      var (archived, hot) := SplitOffArchived(s.hot, NextSeq(s.hot) - window);
      var stored := InsertAll(s.archive, archived[..Min(writes, |archived|)]);
      if writes >= |archived| && flushed then s.(archive := stored, hot := hot) else s.(archive := stored)
  }

  function Do<T>(h: (nat, Id, T) -> Id, s: LogState<T>, step: Step<T>): LogState<T> {
    match step
    case AppendStep(p) =>
      s.(history := s.history + [NextEntry(h, NextSeq(s.hot), Root(s.hot), p)],
         hot := Append(h, s.hot, p), tail := s.tail + [p])
    case ArchiveCycle(window, writes, flushed) => Cycle(s, window, writes, flushed)
    case SaveSnapshot => s.(saved := s.hot, tail := [])
    case Crash(again) =>
      var hot := AppendAll(h, s.saved, again);
      AppendAllBase(h, s.saved, again);
      s.(history := s.history[..Min(hot.baseSeq, |s.history|)] + hot.entries, hot := hot, tail := again)
  }

  function Run<T>(h: (nat, Id, T) -> Id, steps: seq<Step<T>>): LogState<T>
    decreases |steps|
  {
    if steps == [] then InitialLog() else Do(h, Run(h, steps[..|steps| - 1]), steps[|steps| - 1])
  }

  /** What `order_log_entries` and `match_log_entries` answer: the hot window is read first, the archive
      in a later state. */
  ghost function Query<T>(s: LogState<T>, later: LogState<T>, since: nat): seq<Entry<T>> {
    if since >= s.hot.baseSeq then EntriesSince(s.hot, since)
    else ArchivedSince(later.archive, since) + EntriesSince(s.hot, since)
  }

  // ---- Invariant ----

  /** `c` is the window of the history that starts at its base. */
  ghost predicate WindowOf<T>(c: Chain<T>, history: seq<Entry<T>>) {
    && c.baseSeq <= |history|
    && c.entries == history[c.baseSeq..]
    && c.basePrevHash == LastHash(0, history[..c.baseSeq])
  }

  /** The archive has an entry exactly for every index below `hi`, and those below `upto` are the
      history's. It may reach past a history that a replay made shorter. */
  ghost predicate Holds<T>(archive: map<nat, Entry<T>>, history: seq<Entry<T>>, hi: nat, upto: nat) {
    && upto <= hi && upto <= |history|
    && (forall k: nat :: k in archive <==> k < hi)
    && (forall k: nat :: k < upto ==> archive[k] == history[k])
  }

  ghost predicate Indexed<T>(history: seq<Entry<T>>) {
    forall k :: 0 <= k < |history| ==> history[k].index == k
  }

  ghost predicate Inv<T(!new)>(h: (nat, Id, T) -> Id, s: LogState<T>, hi: nat) {
    && VerifySegment(h, 0, 0, s.history) && Indexed(s.history)
    && WindowOf(s.hot, s.history)
    && WindowOf(AppendAll(h, s.saved, s.tail), s.history)
    && Holds(s.archive, s.history, hi, s.hot.baseSeq)
    && s.saved.baseSeq <= s.hot.baseSeq
    && hi <= TWO_64
  }

  lemma {:induction false} AppendAllSnoc<T>(h: (nat, Id, T) -> Id, c: Chain<T>, ps: seq<T>, p: T)
    ensures AppendAll(h, c, ps + [p]) == Append(h, AppendAll(h, c, ps), p)
    ensures AppendAll(h, c, ps).baseSeq == c.baseSeq
    decreases |ps|
  {
    if ps == [] {
      assert ps + [p] == [p];
    } else {
      assert (ps + [p])[1..] == ps[1..] + [p];
      AppendAllSnoc(h, Append(h, c, ps[0]), ps[1..], p);
    }
  }

  lemma {:induction false} AppendAllConcat<T>(h: (nat, Id, T) -> Id, c: Chain<T>, a: seq<T>, b: seq<T>)
    ensures AppendAll(h, c, a + b) == AppendAll(h, AppendAll(h, c, a), b)
    decreases |b|
  {
    hide AppendAll;
    if b == [] {
      assert a + b == a;
      NoneAppended(h, AppendAll(h, c, a));
    } else {
      var init, x := b[..|b| - 1], b[|b| - 1];
      assert b == init + [x];
      AppendAllConcat(h, c, a, init);
      assert a + b == (a + init) + [x];
      AppendAllSnoc(h, c, a + init, x);
      AppendAllSnoc(h, AppendAll(h, c, a), init, x);
    }
  }

  lemma WindowTip<T>(c: Chain<T>, history: seq<Entry<T>>)
    requires WindowOf(c, history)
    ensures Root(c) == LastHash(0, history) && NextSeq(c) == |history|
  {
    if c.entries == [] {
      assert history[..c.baseSeq] == history;
    }
  }

  lemma AppendKeepsWindow<T>(h: (nat, Id, T) -> Id, c: Chain<T>, history: seq<Entry<T>>, p: T)
    requires WindowOf(c, history)
    ensures WindowOf(Append(h, c, p), history + [NextEntry(h, |history|, LastHash(0, history), p)])
  {
    var e := NextEntry(h, |history|, LastHash(0, history), p);
    WindowTip(c, history);
    hide LastHash;
    assert (history + [e])[c.baseSeq..] == history[c.baseSeq..] + [e];
    assert (history + [e])[..c.baseSeq] == history[..c.baseSeq];
  }

  function Max(a: nat, b: nat): nat {
    if a > b then a else b
  }

  lemma InsertHolds<T>(archive: map<nat, Entry<T>>, history: seq<Entry<T>>, hi: nat, k: nat)
    requires Holds(archive, history, hi, k) && k < |history|
    ensures Holds(archive[k := history[k]], history, Max(hi, k + 1), k + 1)
  {
  }

  lemma InsertAllSnoc<T>(tree: map<nat, Entry<T>>, history: seq<Entry<T>>, base: nat, n: nat)
    requires base + n < |history|
    ensures var e := history[base + n];
            InsertAll(tree, history[base..base + n + 1]) == InsertAll(tree, history[base..base + n])[e.index := e]
  {
    assert history[base..base + n + 1][..n] == history[base..base + n];
  }

  lemma {:induction false} InsertAllHolds<T>(archive: map<nat, Entry<T>>, history: seq<Entry<T>>, hi: nat,
                                             base: nat, n: nat)
    requires Holds(archive, history, hi, base) && Indexed(history) && base + n <= |history|
    ensures Holds(InsertAll(archive, history[base..base + n]), history, Max(hi, base + n), base + n)
  {
    hide *;
    if n == 0 {
      assert history[base..base + n] == [];
      InsertNone(archive);
      MaxIs(hi, base);
      HoldsBelow(archive, history, hi, base);
    } else {
      var k := base + (n - 1);
      IndexedAt(history, k);
      InsertAllHolds(archive, history, hi, base, n - 1);
      InsertAllSnoc(archive, history, base, n - 1);
      InsertHolds(InsertAll(archive, history[base..k]), history, Max(hi, k), k);
      assert history[base..base + n] == history[base..base + (n - 1) + 1];
      MaxIs(hi, k);
    }
  }

  lemma MaxIs(a: nat, b: nat)
    ensures Max(Max(a, b), b + 1) == Max(a, b + 1) && (b <= a ==> Max(a, b) == a)
  {
  }

  lemma HoldsBelow<T>(archive: map<nat, Entry<T>>, history: seq<Entry<T>>, hi: nat, upto: nat)
    requires Holds(archive, history, hi, upto)
    ensures upto <= hi
  {
  }

  lemma IndexedAt<T>(history: seq<Entry<T>>, k: nat)
    requires Indexed(history) && k < |history|
    ensures history[k].index == k
  {
  }

  /** Archiving keeps a window and covers at least what the window no longer holds. */
  lemma CycleKeepsInv<T(!new)>(h: (nat, Id, T) -> Id, s: LogState<T>, hi: nat, window: nat, writes: nat, flushed: bool)
    returns (hi': nat)
    requires Inv(h, s, hi) && |s.history| <= TWO_64
    ensures Inv(h, Cycle(s, window, writes, flushed), hi') && hi <= hi'
  {
    hide Holds, WindowOf, InsertAll, Indexed, VerifySegment, AppendAll;
    hi' := hi;
    if |s.hot.entries| > window {
      var n := |SplitOffArchived(s.hot, NextSeq(s.hot) - window).0|;
      var w := Min(writes, n);
      CycleArchive(s.hot, s.history, s.archive, hi, NextSeq(s.hot) - window, w);
      SplitIsWindow(s.hot, s.history, NextSeq(s.hot) - window);
      hi' := Max(hi, s.hot.baseSeq + w);
      HoldsLess(Cycle(s, window, writes, flushed).archive, s.history, hi', s.hot.baseSeq + w, s.hot.baseSeq);
    }
  }

  lemma HoldsLess<T>(archive: map<nat, Entry<T>>, history: seq<Entry<T>>, hi: nat, upto: nat, less: nat)
    requires Holds(archive, history, hi, upto) && less <= upto
    ensures Holds(archive, history, hi, less)
  {
  }

  lemma SliceOfSlice<T>(s: seq<T>, base: nat, cut: nat, w: nat)
    requires base <= |s| && cut <= |s| - base && w <= cut
    ensures s[base..][..cut][..w] == s[base..base + w]
  {
  }

  lemma CycleArchive<T>(c: Chain<T>, history: seq<Entry<T>>, archive: map<nat, Entry<T>>, hi: nat, keepFrom: nat,
      w: nat)
    requires WindowOf(c, history) && Holds(archive, history, hi, c.baseSeq) && Indexed(history)
    requires w <= |SplitOffArchived(c, keepFrom).0|
    ensures var stored := InsertAll(archive, SplitOffArchived(c, keepFrom).0[..w]);
            Holds(stored, history, Max(hi, c.baseSeq + w), c.baseSeq + w)
  {
    hide Holds, InsertAll, Indexed;
    SliceOfSlice(history, c.baseSeq, |SplitOffArchived(c, keepFrom).0|, w);
    InsertAllHolds(archive, history, hi, c.baseSeq, w);
  }

  lemma SplitIsWindow<T>(c: Chain<T>, history: seq<Entry<T>>, keepFrom: nat)
    requires WindowOf(c, history)
    ensures WindowOf(SplitOffArchived(c, keepFrom).1, history)
  {
    var (archived, hot) := SplitOffArchived(c, keepFrom);
    assert history[c.baseSeq..][|archived|..] == history[hot.baseSeq..];
    if archived != [] {
      assert archived[|archived| - 1] == history[..hot.baseSeq][hot.baseSeq - 1];
    }
  }

  lemma AppendKeepsInv<T(!new)>(h: (nat, Id, T) -> Id, s: LogState<T>, hi: nat, p: T)
    requires Inv(h, s, hi) && |s.history| < TWO_64
    ensures Inv(h, Do(h, s, AppendStep(p)), hi)
  {
    var e := NextEntry(h, |s.history|, LastHash(0, s.history), p);
    hide Holds, WindowOf, Indexed, VerifySegment, AppendAll;
    WindowTip(s.hot, s.history);
    AppendKeepsWindow(h, s.hot, s.history, p);
    AppendKeepsWindow(h, AppendAll(h, s.saved, s.tail), s.history, p);
    AppendAllSnoc(h, s.saved, s.tail, p);
    SegmentSnoc(h, 0, 0, s.history, e);
    GrowHistory(s.archive, s.history, hi, s.hot.baseSeq, e);
    assert Do(h, s, AppendStep(p)).history == s.history + [e];
  }

  lemma GrowHistory<T>(archive: map<nat, Entry<T>>, history: seq<Entry<T>>, hi: nat, upto: nat, e: Entry<T>)
    requires Holds(archive, history, hi, upto) && Indexed(history) && e.index == |history|
    ensures Holds(archive, history + [e], hi, upto) && Indexed(history + [e])
  {
  }

  // ---- A crash ----

  /** Appending payloads leaves what was there and adds one entry per payload, carrying it. */
  lemma {:induction false} AppendAllEntries<T>(h: (nat, Id, T) -> Id, c: Chain<T>, ps: seq<T>, n: nat)
    requires n <= |ps|
    ensures var d := AppendAll(h, c, ps);
            && |d.entries| == |c.entries| + |ps| && d.basePrevHash == c.basePrevHash && d.baseSeq == c.baseSeq
            && d.entries[..|c.entries| + n] == AppendAll(h, c, ps[..n]).entries
            && (n < |ps| ==> d.entries[|c.entries| + n].payload == ps[n])
    decreases |ps|
  {
    if ps != [] {
      var i := |ps| - 1;
      assert ps == ps[..i] + [ps[i]];
      AppendAllSnoc(h, c, ps[..i], ps[i]);
      AppendAllEntries(h, c, ps[..i], if n <= i then n else i);
      if n <= i { assert ps[..i][..n] == ps[..n]; } else { assert ps[..n] == ps; }
      hide AppendAll;
    } else {
      assert ps[..n] == ps;
    }
  }

  lemma VerifiedAppend<T>(h: (nat, Id, T) -> Id, c: Chain<T>, history: seq<Entry<T>>, p: T)
    requires WindowOf(c, history) && VerifySegment(h, 0, 0, history) && Indexed(history) && |history| < TWO_64
    ensures var e := NextEntry(h, |history|, LastHash(0, history), p);
            WindowOf(Append(h, c, p), history + [e]) && VerifySegment(h, 0, 0, history + [e]) && Indexed(history + [e])
  {
    var e := NextEntry(h, |history|, LastHash(0, history), p);
    AppendKeepsWindow(h, c, history, p);
    SegmentSnoc(h, 0, 0, history, e);
    assert Indexed(history + [e]);
  }

  /** Re-deriving a tail on a verified log gives a verified log whose window it is. */
  lemma {:induction false} RebuiltLog<T>(h: (nat, Id, T) -> Id, c: Chain<T>, history: seq<Entry<T>>, ps: seq<T>)
    requires WindowOf(c, history) && VerifySegment(h, 0, 0, history) && Indexed(history) && |history| + |ps| <= TWO_64
    ensures var d := AppendAll(h, c, ps);
            var history' := history[..c.baseSeq] + d.entries;
            && WindowOf(d, history') && VerifySegment(h, 0, 0, history') && Indexed(history')
            && |history'| == |history| + |ps| && history'[..|history|] == history
    decreases |ps|
  {
    hide VerifySegment, AppendAll, Indexed;
    if ps == [] {
      NoneAppended(h, c);
      assert history[..c.baseSeq] + c.entries == history;
      assert history[..|history|] == history;
    } else {
      var i := |ps| - 1;
      var init := AppendAll(h, c, ps[..i]);
      assert ps == ps[..i] + [ps[i]];
      AppendAllSnoc(h, c, ps[..i], ps[i]);
      RebuiltLog(h, c, history, ps[..i]);
      var before := history[..c.baseSeq] + init.entries;
      WindowTip(init, before);
      VerifiedAppend(h, init, before, ps[i]);
      var e := NextEntry(h, |before|, LastHash(0, before), ps[i]);
      assert before + [e] == history[..c.baseSeq] + AppendAll(h, c, ps).entries;
    }
  }

  lemma NoneAppended<T>(h: (nat, Id, T) -> Id, c: Chain<T>)
    ensures AppendAll(h, c, []) == c
  {
  }

  lemma PrefixVerified<T>(h: (nat, Id, T) -> Id, history: seq<Entry<T>>, n: nat)
    requires VerifySegment(h, 0, 0, history) && Indexed(history) && n <= |history|
    ensures VerifySegment(h, 0, 0, history[..n]) && Indexed(history[..n])
  {
    assert history == history[..n] + history[n..];
    SegmentsCompose(h, 0, 0, history[..n], history[n..]);
  }

  lemma PrefixWindow<T>(c: Chain<T>, d: Chain<T>, history: seq<Entry<T>>)
    requires WindowOf(d, history) && d.baseSeq == c.baseSeq && d.basePrevHash == c.basePrevHash
    requires |c.entries| <= |d.entries| && d.entries[..|c.entries|] == c.entries
    ensures NextSeq(c) <= |history| && WindowOf(c, history[..NextSeq(c)])
  {
    var n := NextSeq(c);
    assert history[..n][c.baseSeq..] == history[c.baseSeq..][..|c.entries|];
    assert history[..n][..c.baseSeq] == history[..c.baseSeq];
  }

  /** The log inside the snapshot is the history up to where the snapshot was taken. */
  lemma SavedWindow<T(!new)>(h: (nat, Id, T) -> Id, s: LogState<T>, hi: nat)
    requires Inv(h, s, hi)
    ensures NextSeq(s.saved) + |s.tail| == |s.history|
    ensures WindowOf(s.saved, s.history[..NextSeq(s.saved)])
    ensures VerifySegment(h, 0, 0, s.history[..NextSeq(s.saved)]) && Indexed(s.history[..NextSeq(s.saved)])
  {
    var d, n := AppendAll(h, s.saved, s.tail), NextSeq(s.saved);
    hide VerifySegment, AppendAll, Indexed, Holds, WindowOf;
    AppendAllEntries(h, s.saved, s.tail, 0);
    NoneAppended(h, s.saved);
    assert s.tail[..0] == [];
    PrefixWindow(s.saved, d, s.history);
    WindowTip(d, s.history);
    PrefixVerified(h, s.history, n);
  }

  lemma PrefixHolds<T>(archive: map<nat, Entry<T>>, a: seq<Entry<T>>, b: seq<Entry<T>>, hi: nat, upto: nat, less: nat,
      n: nat)
    requires Holds(archive, a, hi, upto) && less <= upto && less <= n <= |a| && n <= |b| && a[..n] == b[..n]
    ensures Holds(archive, b, hi, less)
  {
    forall k: nat | k < less ensures archive[k] == b[k] {
      assert a[k] == a[..n][k] == b[..n][k] == b[k];
    }
  }

  lemma CrashShape<T>(h: (nat, Id, T) -> Id, s: LogState<T>, n: nat, again: seq<T>)
    requires n <= |s.history| && WindowOf(s.saved, s.history[..n])
    ensures var d := AppendAll(h, s.saved, again);
            s.saved.baseSeq <= n &&
            Do(h, s, Crash(again)) ==
            s.(history := s.history[..n][..s.saved.baseSeq] + d.entries, hot := d, tail := again)
  {
    hide AppendAll, LastHash;
    AppendAllBase(h, s.saved, again);
    assert s.history[..n][..s.saved.baseSeq] == s.history[..s.saved.baseSeq];
  }

  /** Whatever a crash re-derives, and however much, the log stays verified and keeps every entry the
      snapshot holds or has archived. */
  lemma CrashRebuilds<T(!new)>(h: (nat, Id, T) -> Id, s: LogState<T>, hi: nat, again: seq<T>)
    requires Inv(h, s, hi) && NextSeq(s.saved) + |again| <= TWO_64
    ensures var s', n := Do(h, s, Crash(again)), NextSeq(s.saved);
            && Inv(h, s', hi) && |s'.history| == n + |again|
            && n <= |s.history| && s'.history[..n] == s.history[..n]
            && s'.hot == AppendAll(h, s.saved, again) && s'.archive == s.archive
  {
    var n := NextSeq(s.saved);
    hide VerifySegment, AppendAll, Indexed, Holds, WindowOf, Do;
    SavedWindow(h, s, hi);
    CrashShape(h, s, n, again);
    RebuiltLog(h, s.saved, s.history[..n], again);
    AppendAllBase(h, s.saved, again);
    PrefixHolds(s.archive, s.history, Do(h, s, Crash(again)).history, hi, s.hot.baseSeq, s.saved.baseSeq, n);
  }

  /** Indices stay 64-bit numbers throughout the run. */
  ghost predicate Fits<T>(h: (nat, Id, T) -> Id, steps: seq<Step<T>>)
    decreases |steps|
  {
    |Run(h, steps).history| <= TWO_64 && (steps == [] || Fits(h, steps[..|steps| - 1]))
  }

  lemma CrashLength<T(!new)>(h: (nat, Id, T) -> Id, s: LogState<T>, hi: nat, again: seq<T>)
    requires Inv(h, s, hi)
    ensures |Do(h, s, Crash(again)).history| == NextSeq(s.saved) + |again|
  {
    hide VerifySegment, AppendAll, Indexed, Holds, WindowOf, Do;
    SavedWindow(h, s, hi);
    CrashShape(h, s, NextSeq(s.saved), again);
    AppendAllEntries(h, s.saved, again, 0);
    SavedBase(s.saved, s.history[..NextSeq(s.saved)]);
  }

  lemma SavedBase<T>(c: Chain<T>, history: seq<Entry<T>>)
    requires WindowOf(c, history)
    ensures c.baseSeq <= |history|
  {
  }

  /** One step keeps the invariant. */
  lemma StepKeepsInv<T(!new)>(h: (nat, Id, T) -> Id, s: LogState<T>, hi: nat, step: Step<T>) returns (hi': nat)
    requires Inv(h, s, hi) && |s.history| <= TWO_64 && |Do(h, s, step).history| <= TWO_64
    ensures Inv(h, Do(h, s, step), hi')
  {
    hi' := hi;
    match step
    case AppendStep(p) => AppendKeepsInv(h, s, hi, p);
    case ArchiveCycle(window, writes, flushed) => hi' := CycleKeepsInv(h, s, hi, window, writes, flushed);
    case SaveSnapshot =>
      NoneAppended(h, s.hot);
      hide AppendAll;
    case Crash(again) =>
      hide Inv, Do;
      CrashLength(h, s, hi, again);
      CrashRebuilds(h, s, hi, again);
  }

  /** In every run of appends, archive cycles failing anywhere, snapshots and crashes that re-derive
      whatever payloads, more or fewer than were there, the archive has an entry for every index up to
      some point at or beyond the hot window, and below the hot window those entries are the history's. */
  lemma {:induction false} ReachableInv<T(!new)>(h: (nat, Id, T) -> Id, steps: seq<Step<T>>) returns (hi: nat)
    requires Fits(h, steps)
    ensures Inv(h, Run(h, steps), hi)
    decreases |steps|
  {
    if steps == [] {
      hi := 0;
    } else {
      var prev, last := steps[..|steps| - 1], steps[|steps| - 1];
      hi := ReachableInv(h, prev);
      hide Inv, Do;
      hi := StepKeepsInv(h, Run(h, prev), hi, last);
    }
  }

  lemma {:induction false} AppendAllBase<T>(h: (nat, Id, T) -> Id, c: Chain<T>, ps: seq<T>)
    ensures AppendAll(h, c, ps).baseSeq == c.baseSeq
    decreases |ps|
  {
    if ps != [] { AppendAllBase(h, Append(h, c, ps[0]), ps[1..]); }
  }

  // ---- What an auditor sees ----

  lemma {:induction false} ScanEmpty<T>(tree: map<nat, T>, lo: nat, hi: nat)
    requires forall k: nat :: k in tree ==> k < lo
    ensures Scan(tree, lo, hi) == []
    decreases hi - lo
  {
    if lo < hi { ScanEmpty(tree, lo + 1, hi); }
  }

  lemma {:induction false} ScanLength<T>(tree: map<nat, T>, lo: nat, hi: nat)
    requires (forall k: nat :: k in tree <==> k < hi) && lo <= hi <= TWO_64
    ensures |Scan(tree, lo, TWO_64)| == hi - lo
    decreases hi - lo
  {
    if lo == hi { ScanEmpty(tree, lo, TWO_64); } else { ScanLength(tree, lo + 1, hi); }
  }

  lemma {:induction false} ScanPrefix<T>(archive: map<nat, Entry<T>>, history: seq<Entry<T>>, lo: nat, hi: nat)
    requires Holds(archive, history, hi, hi) && lo <= hi <= TWO_64
    ensures Scan(archive, lo, TWO_64) == history[lo..hi]
    decreases hi - lo
  {
    if lo == hi {
      ScanEmpty(archive, lo, TWO_64);
    } else {
      ScanPrefix(archive, history, lo + 1, hi);
      assert history[lo..hi] == [history[lo]] + history[lo + 1..hi];
    }
  }

  /** The archive reaches no further than this base. */
  ghost predicate NothingAhead<T>(archive: map<nat, Entry<T>>, base: nat) {
    forall k: nat :: k in archive ==> k < base
  }

  function Suffix<T>(history: seq<T>, since: nat): seq<T> {
    history[Min(since, |history|)..]
  }

  /** Root and next index always describe the whole history, whatever was archived. */
  lemma TipIsHistory<T(!new)>(h: (nat, Id, T) -> Id, s: LogState<T>, hi: nat)
    requires Inv(h, s, hi)
    ensures Root(s.hot) == LastHash(0, s.history) && NextSeq(s.hot) == |s.history|
  {
    hide Holds, WindowOf, Indexed, VerifySegment, AppendAll;
    WindowTip(s.hot, s.history);
  }

  lemma HotSuffix<T(!new)>(h: (nat, Id, T) -> Id, s: LogState<T>, hi: nat, since: nat)
    requires Inv(h, s, hi)
    ensures EntriesSince(s.hot, since) == Suffix(s.history, Max(since, s.hot.baseSeq))
  {
  }

  /** Between the two reads the log only grew and was archived. */
  ghost predicate Grew<T>(s: LogState<T>, later: LogState<T>) {
    s.history <= later.history && s.hot.baseSeq <= later.hot.baseSeq
  }

  lemma CycleGrew<T>(s: LogState<T>, window: nat, writes: nat, flushed: bool)
    ensures Grew(s, Cycle(s, window, writes, flushed))
  {
    hide InsertAll;
  }

  lemma StepGrew<T(!new)>(h: (nat, Id, T) -> Id, s: LogState<T>, step: Step<T>)
    requires !step.Crash?
    ensures Grew(s, Do(h, s, step))
  {
    if step.ArchiveCycle? { CycleGrew(s, step.window, step.writes, step.flushed); }
  }

  ghost predicate NoCrash<T>(steps: seq<Step<T>>) {
    forall i :: 0 <= i < |steps| ==> !steps[i].Crash?
  }

  /** Any steps of the running process between the two reads. */
  lemma {:induction false} StepsGrew<T(!new)>(h: (nat, Id, T) -> Id, steps: seq<Step<T>>, more: seq<Step<T>>)
    requires NoCrash(more)
    ensures Grew(Run(h, steps), Run(h, steps + more))
    decreases |more|
  {
    if more == [] {
      assert steps + more == steps;
    } else {
      var init, last := more[..|more| - 1], more[|more| - 1];
      StepsGrew(h, steps, init);
      assert steps + more == (steps + init) + [last];
      hide Do, Run;
      RunSnoc(h, steps + init, last);
      StepGrew(h, Run(h, steps + init), last);
    }
  }

  lemma LaterHolds<T(!new)>(h: (nat, Id, T) -> Id, s: LogState<T>, later: LogState<T>, hi: nat)
    requires Grew(s, later) && Inv(h, later, hi) && s.hot.baseSeq <= |s.history|
    ensures Holds(later.archive, s.history, hi, s.hot.baseSeq)
  {
    hide VerifySegment, AppendAll, Indexed, WindowOf;
    forall k: nat | k < s.hot.baseSeq ensures later.archive[k] == s.history[k] {
      assert s.history[k] == later.history[k];
    }
  }

  /** A query whose two reads see whatever the running process did in between returns exactly the history
      at the first read, from `since` on, if and only if it stays within the hot window then read or the
      archive then read holds nothing of that window. A cycle that failed partway, a crash after a cycle
      whose snapshot was never saved, and a cycle between the two reads leave the archive ahead, and the
      overlap is returned twice. */
  lemma QueryExactIff<T(!new)>(h: (nat, Id, T) -> Id, s: LogState<T>, hi: nat, later: LogState<T>, hi': nat, since: nat)
    requires Inv(h, s, hi) && Inv(h, later, hi') && Grew(s, later)
    ensures Query(s, later, since) == Suffix(s.history, since)
            <==> since >= s.hot.baseSeq || NothingAhead(later.archive, s.hot.baseSeq)
  {
    HotSuffix(h, s, hi, since);
    var base, n := s.hot.baseSeq, |s.history|;
    assert base <= n && hi' <= TWO_64;
    LaterHolds(h, s, later, hi');
    hide Inv, Grew;
    if since < base {
      ScanLength(later.archive, since, hi');
      if hi' == base {
        ScanPrefix(later.archive, s.history, since, hi');
        SliceSplit(s.history, since, base);
      } else {
        assert base in later.archive;
        assert |Query(s, later, since)| == (hi' - since) + (n - base) > |Suffix(s.history, since)|;
      }
    }
  }

  /** So over every run, with both reads at any two moments of one process. */
  lemma RunQueryExactIff<T(!new)>(h: (nat, Id, T) -> Id, steps: seq<Step<T>>, more: seq<Step<T>>, since: nat)
    requires NoCrash(more) && Fits(h, steps) && Fits(h, steps + more)
    ensures var s, later := Run(h, steps), Run(h, steps + more);
            Query(s, later, since) == Suffix(s.history, since)
            <==> since >= s.hot.baseSeq || NothingAhead(later.archive, s.hot.baseSeq)
  {
    hide *;
    var hi := ReachableInv(h, steps);
    var hi' := ReachableInv(h, steps + more);
    StepsGrew(h, steps, more);
    QueryExactIff(h, Run(h, steps), hi, Run(h, steps + more), hi', since);
  }

  lemma SliceSplit<T>(s: seq<T>, a: nat, b: nat)
    requires a <= b <= |s|
    ensures s[a..b] + s[b..] == s[a..]
  {
  }

  /** Once something is archived, a cycle that stores at least one entry and then fails makes the
      query from the start return that entry twice. */
  lemma FailedCycleDuplicates<T(!new)>(h: (nat, Id, T) -> Id, s: LogState<T>, hi: nat, window: nat, writes: nat)
    requires Inv(h, s, hi) && |s.history| <= TWO_64
    requires s.hot.baseSeq > 0 && |s.hot.entries| > window && writes > 0
    ensures var s' := Cycle(s, window, writes, false); Query(s', s', 0) != Suffix(s'.history, 0)
  {
    var s' := Cycle(s, window, writes, false);
    var hi' := CycleKeepsInv(h, s, hi, window, writes, false);
    CycleStoresFirst(s, window, writes, false);
    hide Query, Inv, Cycle;
    QueryExactIff(h, s', hi', s', hi', 0);
  }

  lemma CycleStoresFirst<T>(s: LogState<T>, window: nat, writes: nat, flushed: bool)
    requires WindowOf(s.hot, s.history) && Indexed(s.history)
    requires |s.hot.entries| > window && writes > 0
    ensures var s' := Cycle(s, window, writes, flushed);
            (!flushed ==> s'.hot == s.hot) && s'.history == s.history && s.hot.baseSeq in s'.archive
  {
    var (archived, hot) := SplitOffArchived(s.hot, NextSeq(s.hot) - window);
    var first := archived[..Min(writes, |archived|)];
    assert first[0] == s.history[s.hot.baseSeq];
    InsertAllKeys(s.archive, first, 0);
  }

  lemma {:induction false} InsertAllKeys<T>(tree: map<nat, Entry<T>>, entries: seq<Entry<T>>, i: nat)
    requires i < |entries|
    ensures entries[i].index in InsertAll(tree, entries)
  {
    if i < |entries| - 1 {
      assert entries[..|entries| - 1][i] == entries[i];
      InsertAllKeys(tree, entries[..|entries| - 1], i);
    }
  }

  // ---- When every stored entry is the history's ----

  ghost predicate Everywhere<T>(s: LogState<T>) {
    forall k: nat :: k in s.archive ==> k < |s.history| && s.archive[k] == s.history[k]
  }

  lemma {:induction false} InsertAllAt<T>(tree: map<nat, Entry<T>>, history: seq<Entry<T>>, base: nat, n: nat, k: nat)
    requires Indexed(history) && base + n <= |history|
    ensures var t := InsertAll(tree, history[base..base + n]);
            && (k in t <==> k in tree || base <= k < base + n)
            && (k in t ==> t[k] == if base <= k < base + n then history[k] else tree[k])
  {
    if n == 0 {
      assert history[base..base + n] == [];
    } else {
      InsertAllAt(tree, history, base, n - 1, k);
      InsertAllSnoc(tree, history, base, n - 1);
      assert history[base..base + n] == history[base..base + (n - 1) + 1];
    }
  }

  lemma CycleStores<T>(s: LogState<T>, window: nat, writes: nat, flushed: bool) returns (w: nat)
    requires WindowOf(s.hot, s.history)
    ensures s.hot.baseSeq + w <= |s.history| && Cycle(s, window, writes, flushed).history == s.history
    ensures Cycle(s, window, writes, flushed).archive
            == InsertAll(s.archive, s.history[s.hot.baseSeq..s.hot.baseSeq + w])
  {
    hide InsertAll;
    w := 0;
    if |s.hot.entries| > window {
      var n := |SplitOffArchived(s.hot, NextSeq(s.hot) - window).0|;
      w := Min(writes, n);
      SliceOfSlice(s.history, s.hot.baseSeq, n, w);
    } else {
      assert s.history[s.hot.baseSeq..s.hot.baseSeq] == [];
      InsertNone(s.archive);
    }
  }

  lemma InsertNone<T>(tree: map<nat, Entry<T>>)
    ensures InsertAll(tree, []) == tree
  {
  }

  lemma CycleKeepsEverywhere<T(!new)>(s: LogState<T>, window: nat, writes: nat, flushed: bool)
    requires WindowOf(s.hot, s.history) && Indexed(s.history) && Everywhere(s)
    ensures Everywhere(Cycle(s, window, writes, flushed))
  {
    hide InsertAll, Indexed, Cycle, WindowOf;
    var w := CycleStores(s, window, writes, flushed);
    var stored := Cycle(s, window, writes, flushed).archive;
    forall k: nat | k in stored ensures k < |s.history| && stored[k] == s.history[k] {
      InsertAllAt(s.archive, s.history, s.hot.baseSeq, w, k);
    }
  }

  /** Appends, archive cycles however they end, and snapshots never make a stored entry disagree. */
  lemma StepKeepsEverywhere<T(!new)>(h: (nat, Id, T) -> Id, s: LogState<T>, hi: nat, step: Step<T>)
    requires Inv(h, s, hi) && Everywhere(s) && !step.Crash?
    ensures Everywhere(Do(h, s, step))
  {
    match step
    case AppendStep(p) => hide VerifySegment, AppendAll, Indexed, WindowOf;
    case SaveSnapshot =>
    case ArchiveCycle(window, writes, flushed) =>
      hide VerifySegment, AppendAll, Indexed, Holds, WindowOf, Cycle, Everywhere;
      CycleKeepsEverywhere(s, window, writes, flushed);
  }

  /** The part of the unsaved tail that has been archived already is re-derived as it was. */
  ghost predicate RederivesArchived<T>(s: LogState<T>, again: seq<T>) {
    forall k: nat :: k in s.archive && NextSeq(s.saved) <= k ==> SameAt(again, s.tail, k - NextSeq(s.saved))
  }

  predicate SameAt<T(==)>(a: seq<T>, b: seq<T>, i: nat) {
    i < |a| && i < |b| && a[i] == b[i]
  }

  lemma SamePrefixSameEntries<T>(h: (nat, Id, T) -> Id, c: Chain<T>, ps: seq<T>, qs: seq<T>, n: nat)
    requires n <= |ps| && n <= |qs| && ps[..n] == qs[..n]
    ensures |AppendAll(h, c, ps).entries| == |c.entries| + |ps| && |AppendAll(h, c, qs).entries| == |c.entries| + |qs|
    ensures AppendAll(h, c, ps).entries[..|c.entries| + n] == AppendAll(h, c, qs).entries[..|c.entries| + n]
  {
    hide AppendAll;
    AppendAllEntries(h, c, ps, n);
    AppendAllEntries(h, c, qs, n);
  }

  /** After a crash, whatever it re-derives and however much, every stored entry is still the history's if
      and only if the archived part of the unsaved tail comes back first and as it was; in particular when
      the archive is not ahead of the snapshot. */
  lemma CrashEverywhereIff<T(!new)>(h: (nat, Id, T) -> Id, s: LogState<T>, hi: nat, again: seq<T>)
    requires Inv(h, s, hi) && Everywhere(s) && NextSeq(s.saved) + |again| <= TWO_64
    ensures Everywhere(Do(h, s, Crash(again))) <==> RederivesArchived(s, again)
  {
    hide *;
    if RederivesArchived(s, again) { RederivedEverywhere(h, s, hi, again); }
    if Everywhere(Do(h, s, Crash(again))) { EverywhereRederived(h, s, hi, again); }
  }

  lemma RederivedEverywhere<T(!new)>(h: (nat, Id, T) -> Id, s: LogState<T>, hi: nat, again: seq<T>)
    requires Inv(h, s, hi) && Everywhere(s) && NextSeq(s.saved) + |again| <= TWO_64 && RederivesArchived(s, again)
    ensures Everywhere(Do(h, s, Crash(again)))
  {
    var s' := Do(h, s, Crash(again));
    hide Inv, Do, RederivesArchived;
    CrashRebuilds(h, s, hi, again);
    forall k: nat | k in s.archive ensures k < |s'.history| && s'.history[k] == s.history[k] {
      RederivedEntry(h, s, hi, again, k);
    }
  }

  lemma EverywhereRederived<T(!new)>(h: (nat, Id, T) -> Id, s: LogState<T>, hi: nat, again: seq<T>)
    requires Inv(h, s, hi) && Everywhere(s) && NextSeq(s.saved) + |again| <= TWO_64
    requires Everywhere(Do(h, s, Crash(again)))
    ensures RederivesArchived(s, again)
  {
    var s', n := Do(h, s, Crash(again)), NextSeq(s.saved);
    hide Inv, Do;
    CrashRebuilds(h, s, hi, again);
    forall k: nat | k in s.archive && n <= k ensures SameAt(again, s.tail, k - n) {
      CrashGrows(h, s, hi, again, k - n);
    }
  }

  lemma WindowAt<T>(c: Chain<T>, history: seq<Entry<T>>, k: nat)
    requires WindowOf(c, history) && c.baseSeq <= k < |history|
    ensures k - c.baseSeq < |c.entries| && history[k] == c.entries[k - c.baseSeq]
  {
  }

  /** Two logs grown from one: they agree at an index if the payloads up to it do, and differ there if the
      payload there does. */
  lemma GrownAt<T>(h: (nat, Id, T) -> Id, c: Chain<T>, ps: seq<T>, qs: seq<T>, a: seq<Entry<T>>, b: seq<Entry<T>>,
      i: nat)
    requires i < |ps| && i < |qs|
    requires WindowOf(AppendAll(h, c, ps), a) && WindowOf(AppendAll(h, c, qs), b)
    requires NextSeq(c) + i < |a| && NextSeq(c) + i < |b|
    ensures ps[..i + 1] == qs[..i + 1] ==> a[NextSeq(c) + i] == b[NextSeq(c) + i]
    ensures ps[i] != qs[i] ==> a[NextSeq(c) + i] != b[NextSeq(c) + i]
  {
    hide AppendAll, WindowOf;
    var k, j := NextSeq(c) + i, |c.entries| + i;
    AppendAllEntries(h, c, ps, i);
    AppendAllEntries(h, c, qs, i);
    WindowAt(AppendAll(h, c, ps), a, k);
    WindowAt(AppendAll(h, c, qs), b, k);
    if ps[..i + 1] == qs[..i + 1] {
      SamePrefixSameEntries(h, c, ps, qs, i + 1);
      assert AppendAll(h, c, ps).entries[..|c.entries| + (i + 1)][j]
             == AppendAll(h, c, qs).entries[..|c.entries| + (i + 1)][j];
    }
  }

  lemma CrashGrows<T(!new)>(h: (nat, Id, T) -> Id, s: LogState<T>, hi: nat, again: seq<T>, i: nat)
    requires Inv(h, s, hi) && NextSeq(s.saved) + |again| <= TWO_64
    ensures var k, s' := NextSeq(s.saved) + i, Do(h, s, Crash(again));
            && (k < |s.history| <==> i < |s.tail|) && (k < |s'.history| <==> i < |again|)
            && (i < |s.tail| && i < |again| ==>
                  && (s.tail[..i + 1] == again[..i + 1] ==> s'.history[k] == s.history[k])
                  && (again[i] != s.tail[i] ==> s'.history[k] != s.history[k]))
  {
    hide VerifySegment, AppendAll, Indexed, WindowOf, Holds, Do;
    CrashRebuilds(h, s, hi, again);
    SavedWindow(h, s, hi);
    var s' := Do(h, s, Crash(again));
    assert WindowOf(s'.hot, s'.history);
    if i < |s.tail| && i < |again| { GrownAt(h, s.saved, s.tail, again, s.history, s'.history, i); }
  }

  lemma SamePrefixAt<T>(a: seq<T>, b: seq<T>, n: nat, k: nat)
    requires k < n <= |a| && n <= |b| && a[..n] == b[..n]
    ensures a[k] == b[k]
  {
    assert a[k] == a[..n][k] && b[k] == b[..n][k];
  }

  lemma KeptEntry<T(!new)>(h: (nat, Id, T) -> Id, s: LogState<T>, hi: nat, again: seq<T>, k: nat)
    requires Inv(h, s, hi) && NextSeq(s.saved) + |again| <= TWO_64 && k < NextSeq(s.saved)
    ensures k < |s.history| && k < |Do(h, s, Crash(again)).history| && Do(h, s, Crash(again)).history[k] == s.history[k]
  {
    hide Do, Inv, AppendAll;
    CrashRebuilds(h, s, hi, again);
    SamePrefixAt(Do(h, s, Crash(again)).history, s.history, NextSeq(s.saved), k);
  }

  lemma SavedLength<T(!new)>(h: (nat, Id, T) -> Id, s: LogState<T>, hi: nat)
    requires Inv(h, s, hi)
    ensures NextSeq(s.saved) + |s.tail| == |s.history| && (forall k: nat :: k in s.archive <==> k < hi)
  {
    SavedWindow(h, s, hi);
  }

  lemma RederivedEntry<T(!new)>(h: (nat, Id, T) -> Id, s: LogState<T>, hi: nat, again: seq<T>, k: nat)
    requires Inv(h, s, hi) && NextSeq(s.saved) + |again| <= TWO_64 && RederivesArchived(s, again) && k in s.archive
    ensures k < |s.history| && k < |Do(h, s, Crash(again)).history| && Do(h, s, Crash(again)).history[k] == s.history[k]
  {
    hide *;
    var n := NextSeq(s.saved);
    SavedLength(h, s, hi);
    if k < n {
      KeptEntry(h, s, hi, again, k);
    } else {
      RederivedPrefix(s, hi, again, k - n);
      CrashGrows(h, s, hi, again, k - n);
    }
  }

  lemma SamePrefix<T>(a: seq<T>, b: seq<T>, n: nat)
    requires n > 0 && forall j: nat :: j < n ==> SameAt(b, a, j)
    ensures n <= |a| && n <= |b| && a[..n] == b[..n]
  {
    assert SameAt(b, a, n - 1);
    forall j | 0 <= j < n ensures a[j] == b[j] { assert SameAt(b, a, j); }
  }

  lemma RederivedPrefix<T>(s: LogState<T>, hi: nat, again: seq<T>, i: nat)
    requires RederivesArchived(s, again) && NextSeq(s.saved) + i < hi && (forall k: nat :: k in s.archive <==> k < hi)
    ensures i < |s.tail| && i < |again| && s.tail[..i + 1] == again[..i + 1]
  {
    forall j: nat | j <= i ensures SameAt(again, s.tail, j) {
      var k: nat := NextSeq(s.saved) + j;
      assert k in s.archive && k - NextSeq(s.saved) == j;
    }
    SamePrefix(s.tail, again, i + 1);
  }

  ghost predicate AlwaysEverywhere<T>(h: (nat, Id, T) -> Id, steps: seq<Step<T>>)
    decreases |steps|
  {
    Everywhere(Run(h, steps)) && (steps == [] || AlwaysEverywhere(h, steps[..|steps| - 1]))
  }

  /** Every crash of the run re-derives first what was archived of the unsaved tail. */
  ghost predicate CrashesRederive<T>(h: (nat, Id, T) -> Id, steps: seq<Step<T>>)
    decreases |steps|
  {
    steps == [] ||
    (var s, last := Run(h, steps[..|steps| - 1]), steps[|steps| - 1];
     && CrashesRederive(h, steps[..|steps| - 1])
     && (last.Crash? ==> RederivesArchived(s, last.again)))
  }

  /** Over every run: the archive agrees with the history at every stored index throughout if and only if
      every crash re-derives first what was archived of the unsaved tail. */
  lemma {:induction false} EverywhereIff<T(!new)>(h: (nat, Id, T) -> Id, steps: seq<Step<T>>)
    requires Fits(h, steps)
    ensures AlwaysEverywhere(h, steps) <==> CrashesRederive(h, steps)
    decreases |steps|
  {
    if steps != [] {
      var prev, last := steps[..|steps| - 1], steps[|steps| - 1];
      var s := Run(h, prev);
      EverywhereIff(h, prev);
      var hi := ReachableInv(h, prev);
      hide Inv, Everywhere, Do, RederivesArchived;
      if AlwaysEverywhere(h, prev) {
        if last.Crash? {
          CrashLength(h, s, hi, last.again);
          CrashEverywhereIff(h, s, hi, last.again);
        } else {
          StepKeepsEverywhere(h, s, hi, last);
        }
      }
    }
  }

  lemma AlwaysSnoc<T(!new)>(h: (nat, Id, T) -> Id, steps: seq<Step<T>>, step: Step<T>)
    ensures AlwaysEverywhere(h, steps + [step]) <==>
            AlwaysEverywhere(h, steps) && Everywhere(Do(h, Run(h, steps), step))
    ensures AlwaysEverywhere(h, steps) ==> Everywhere(Run(h, steps))
  {
    hide Everywhere, Do;
    RunSnoc(h, steps, step);
    assert (steps + [step])[..|steps|] == steps;
  }

  /** Only crashes matter. */
  lemma {:induction false} AlwaysMore<T(!new)>(h: (nat, Id, T) -> Id, steps: seq<Step<T>>, more: seq<Step<T>>)
    requires NoCrash(more) && Fits(h, steps + more)
    ensures Fits(h, steps) && (AlwaysEverywhere(h, steps + more) <==> AlwaysEverywhere(h, steps))
    decreases |more|
  {
    if more == [] {
      assert steps + more == steps;
    } else {
      var init, last := more[..|more| - 1], more[|more| - 1];
      assert steps + more == (steps + init) + [last];
      assert NoCrash(init) && !last.Crash?;
      hide *;
      FitsSnoc(h, steps + init, last);
      AlwaysMore(h, steps, init);
      AlwaysSnoc(h, steps + init, last);
      if AlwaysEverywhere(h, steps + init) {
        var hi := ReachableInv(h, steps + init);
        StepKeepsEverywhere(h, Run(h, steps + init), hi, last);
      }
    }
  }

  // ---- Two runs that go wrong ----

  lemma RunSnoc<T>(h: (nat, Id, T) -> Id, steps: seq<Step<T>>, step: Step<T>)
    ensures Run(h, steps + [step]) == Do(h, Run(h, steps), step)
  {
    assert (steps + [step])[..|steps|] == steps;
  }

  lemma AppendOne<T>(h: (nat, Id, T) -> Id, c: Chain<T>, x: T)
    ensures AppendAll(h, c, [x]) == Append(h, c, x)
  {
    assert [x][1..] == [];
  }

  lemma FirstArchived<T(!new)>(h: (nat, Id, T) -> Id, x: T)
    ensures var e := NextEntry(h, 0, 0, x);
            Do(h, Do(h, InitialLog(), AppendStep(x)), ArchiveCycle(0, 1, true))
            == LogState([e], Chain(1, e.entryHash, []), map[0 := e], EmptyChain(), [x])
  {
    var e := NextEntry(h, 0, 0, x);
    assert [] + [e] == [e] && [] + [x] == [x] && [e][..1] == [e] && [e][..0] == [] && [e][1..] == [];
    var s := Do(h, InitialLog(), AppendStep(x));
    assert s == LogState([e], Chain(0, 0, [e]), map[], EmptyChain(), [x]);
    assert SplitOffArchived(s.hot, 1) == ([e], Chain(1, e.entryHash, []));
    assert InsertAll(map[], [e]) == map[0 := e];
  }

  /** An entry is archived, the process dies before the snapshot that would cover it is saved, and replay
      does not append its payload first: the archive keeps what the log no longer has there. So a match
      derived at another time, a lost order's receipt before the archived one, or nothing at all. */
  lemma StaleArchive<T(!new)>(h: (nat, Id, T) -> Id, x: T, again: seq<T>)
    requires again == [] || again[0] != x
    ensures !Everywhere(Run(h, [AppendStep(x)] + [ArchiveCycle(0, 1, true)] + [Crash(again)]))
  {
    var s := Do(h, Do(h, InitialLog(), AppendStep(x)), ArchiveCycle(0, 1, true));
    FirstArchived(h, x);
    assert [] + [AppendStep(x)] == [AppendStep(x)];
    RunSnoc(h, [], AppendStep(x));
    RunSnoc(h, [AppendStep(x)], ArchiveCycle(0, 1, true));
    RunSnoc(h, [AppendStep(x)] + [ArchiveCycle(0, 1, true)], Crash(again));
    var s' := Do(h, s, Crash(again));
    AppendAllEntries(h, EmptyChain(), again, 0);
    assert s'.archive[0].payload == x;
    assert s'.history == AppendAll(h, EmptyChain(), again).entries;
  }

  /** An entry is archived between the two reads of a query, which then returns it twice. */
  lemma DuplicatingGap<T(!new)>(h: (nat, Id, T) -> Id, x: T)
    ensures var steps := [AppendStep(x)] + [ArchiveCycle(0, 1, true)] + [AppendStep(x)];
            var s := Run(h, steps);
            Query(s, Do(h, s, ArchiveCycle(0, 1, true)), 0) != Suffix(s.history, 0)
  {
    var two := [AppendStep(x)] + [ArchiveCycle(0, 1, true)];
    TwoAppendsFit(h, x);
    FitsSnoc(h, two, AppendStep(x));
    var s := Run(h, two + [AppendStep(x)]);
    SecondAppended(h, x);
    var hi := ReachableInv(h, two + [AppendStep(x)]);
    var later := Cycle(s, 0, 1, true);
    var hi' := CycleKeepsInv(h, s, hi, 0, 1, true);
    CycleGrew(s, 0, 1, true);
    CycleStoresFirst(s, 0, 1, true);
    hide Inv, Query, Run, Cycle;
    QueryExactIff(h, s, hi, later, hi', 0);
  }

  lemma SecondAppended<T(!new)>(h: (nat, Id, T) -> Id, x: T)
    ensures var s := Run(h, [AppendStep(x)] + [ArchiveCycle(0, 1, true)] + [AppendStep(x)]);
            s.hot.baseSeq == 1 && |s.hot.entries| == 1
  {
    FirstArchived(h, x);
    assert [] + [AppendStep(x)] == [AppendStep(x)];
    RunSnoc(h, [], AppendStep(x));
    RunSnoc(h, [AppendStep(x)], ArchiveCycle(0, 1, true));
    RunSnoc(h, [AppendStep(x)] + [ArchiveCycle(0, 1, true)], AppendStep(x));
  }

  /** A run after which the query from the start returns an entry twice. */
  lemma DuplicatingRun<T(!new)>(h: (nat, Id, T) -> Id, x: T)
    ensures var steps := [AppendStep(x)] + [ArchiveCycle(0, 1, true)] + [AppendStep(x)] + [ArchiveCycle(0, 1, false)];
            var s := Run(h, steps);
            Query(s, s, 0) != Suffix(s.history, 0)
  {
    var two := [AppendStep(x)] + [ArchiveCycle(0, 1, true)];
    RunSnoc(h, two + [AppendStep(x)], ArchiveCycle(0, 1, false));
    var s := Run(h, two + [AppendStep(x)]);
    SecondAppended(h, x);
    TwoAppendsFit(h, x);
    var hi := ReachableInv(h, two + [AppendStep(x)]);
    hide Inv, Query, Run, Cycle;
    FailedCycleDuplicates(h, s, hi, 0, 1);
  }

  lemma TwoAppendsFit<T(!new)>(h: (nat, Id, T) -> Id, x: T)
    ensures Fits(h, [AppendStep(x)] + [ArchiveCycle(0, 1, true)] + [AppendStep(x)])
  {
    FirstArchived(h, x);
    FitsSnoc(h, [], AppendStep(x));
    assert [] + [AppendStep(x)] == [AppendStep(x)];
    FitsSnoc(h, [AppendStep(x)], ArchiveCycle(0, 1, true));
    FitsSnoc(h, [AppendStep(x)] + [ArchiveCycle(0, 1, true)], AppendStep(x));
  }

  lemma FitsSnoc<T>(h: (nat, Id, T) -> Id, steps: seq<Step<T>>, step: Step<T>)
    ensures Run(h, steps + [step]) == Do(h, Run(h, steps), step)
    ensures Fits(h, steps + [step]) <==> Fits(h, steps) && |Do(h, Run(h, steps), step).history| <= TWO_64
  {
    hide Do;
    RunSnoc(h, steps, step);
    assert (steps + [step])[..|steps|] == steps;
  }
}
