/** The append-only hash chain behind the order log and the match log. The hash is a parameter; that
    it is injective is said where it is needed. */
module HashChain {
  import opened Types

  datatype Entry<T> = Entry(index: nat, prevHash: Id, entryHash: Id, payload: T)

  /** The part of a log one node holds: everything from `baseSeq` on. */
  datatype Chain<T> = Chain(baseSeq: nat, basePrevHash: Id, entries: seq<Entry<T>>)

  function EmptyChain<T>(): Chain<T> {
    Chain(0, 0, [])
  }

  function LastHash<T>(prev: Id, entries: seq<Entry<T>>): Id {
    if entries == [] then prev else entries[|entries| - 1].entryHash
  }

  function Root<T>(c: Chain<T>): Id {
    LastHash(c.basePrevHash, c.entries)
  }

  function NextSeq<T>(c: Chain<T>): nat {
    c.baseSeq + |c.entries|
  }

  function NextEntry<T>(h: (nat, Id, T) -> Id, index: nat, prev: Id, payload: T): Entry<T> {
    Entry(index, prev, h(index, prev, payload), payload)
  }

  function Append<T>(h: (nat, Id, T) -> Id, c: Chain<T>, payload: T): Chain<T> {
    c.(entries := c.entries + [NextEntry(h, NextSeq(c), Root(c), payload)])
  }

  function AppendAll<T>(h: (nat, Id, T) -> Id, c: Chain<T>, payloads: seq<T>): Chain<T>
    decreases |payloads|
  {
    if payloads == [] then c else AppendAll(h, Append(h, c, payloads[0]), payloads[1..])
  }

  /** The next entry of a log, indices being 64-bit numbers. */
  predicate VerifyNextEntry<T(==)>(h: (nat, Id, T) -> Id, root: Id, index: nat, e: Entry<T>) {
    e.index == index < TWO_64 && e.prevHash == root && e.entryHash == h(e.index, e.prevHash, e.payload)
  }

  /** A contiguous, correctly linked continuation of a chain whose next index is `start`. */
  predicate VerifySegment<T(==)>(h: (nat, Id, T) -> Id, start: nat, prev: Id, entries: seq<Entry<T>>)
    decreases |entries|
  {
    entries == []
    || (VerifyNextEntry(h, prev, start, entries[0])
        && VerifySegment(h, start + 1, entries[0].entryHash, entries[1..]))
  }

  ghost predicate Verified<T>(h: (nat, Id, T) -> Id, c: Chain<T>) {
    VerifySegment(h, c.baseSeq, c.basePrevHash, c.entries)
  }

  ghost predicate Injective<T(!new)>(h: (nat, Id, T) -> Id) {
    forall i, p, x, j, q, y :: h(i, p, x) == h(j, q, y) ==> i == j && p == q && x == y
  }

  // ---- Segments ----

  /** Verifying a concatenation is verifying both parts, the second from where the first ends. */
  lemma {:induction false} SegmentsCompose<T>(h: (nat, Id, T) -> Id, start: nat, prev: Id,
                                              a: seq<Entry<T>>, b: seq<Entry<T>>)
    ensures VerifySegment(h, start, prev, a + b)
            <==> VerifySegment(h, start, prev, a) && VerifySegment(h, start + |a|, LastHash(prev, a), b)
    decreases |a|
  {
    if a == [] {
      assert a + b == b;
    } else {
      assert (a + b)[1..] == a[1..] + b;
      SegmentsCompose(h, start + 1, a[0].entryHash, a[1..], b);
      assert LastHash(a[0].entryHash, a[1..]) == LastHash(prev, a);
    }
  }

  lemma SegmentSnoc<T>(h: (nat, Id, T) -> Id, start: nat, prev: Id, a: seq<Entry<T>>, e: Entry<T>)
    ensures VerifySegment(h, start, prev, a + [e])
            <==> && VerifySegment(h, start, prev, a)
                 && VerifyNextEntry(h, LastHash(prev, a), start + |a|, e)
  {
    SegmentsCompose(h, start, prev, a, [e]);
    assert [e][1..] == [];
  }

  /** Under an injective hash the last hash determines the whole chain: two nonempty verified
      segments that start at the same index and end in the same hash are the same segment. */
  lemma {:induction false} SameRootSameChain<T(!new)>(h: (nat, Id, T) -> Id, start: nat, p: Id, q: Id,
                                                a: seq<Entry<T>>, b: seq<Entry<T>>)
    requires Injective(h)
    requires VerifySegment(h, start, p, a) && VerifySegment(h, start, q, b)
    requires a != [] && b != [] && LastHash(p, a) == LastHash(q, b)
    ensures a == b && p == q
    decreases |a|
  {
    var a', x := a[..|a| - 1], a[|a| - 1];
    var b', y := b[..|b| - 1], b[|b| - 1];
    assert a == a' + [x] && b == b' + [y];
    SegmentSnoc(h, start, p, a', x);
    SegmentSnoc(h, start, q, b', y);
    assert x == y;
    if a' != [] {
      SameRootSameChain(h, start, p, q, a', b');
    }
  }

  // ---- Appending, locally and from a peer ----

  lemma AppendKeepsVerified<T>(h: (nat, Id, T) -> Id, c: Chain<T>, payload: T)
    requires Verified(h, c) && NextSeq(c) < TWO_64
    ensures Verified(h, Append(h, c, payload))
  {
    SegmentSnoc(h, c.baseSeq, c.basePrevHash, c.entries, NextEntry(h, NextSeq(c), Root(c), payload));
  }

  /** A remote entry is taken only when it validly extends the log. */
  function TryAppendRemote<T(==)>(h: (nat, Id, T) -> Id, c: Chain<T>, e: Entry<T>): (Chain<T>, bool) {
    if VerifyNextEntry(h, Root(c), NextSeq(c), e) then (c.(entries := c.entries + [e]), true) else (c, false)
  }

  /** A mirror fed a sequence of entries, each accepted or refused. */
  function Mirror<T(==)>(h: (nat, Id, T) -> Id, c: Chain<T>, fed: seq<Entry<T>>): Chain<T>
    decreases |fed|
  {
    if fed == [] then c else Mirror(h, TryAppendRemote(h, c, fed[0]).0, fed[1..])
  }

  /** Whatever a mirror is fed, it stays a verified chain and only ever grows. */
  lemma {:induction false} MirrorStaysVerified<T>(h: (nat, Id, T) -> Id, c: Chain<T>, fed: seq<Entry<T>>)
    requires Verified(h, c)
    ensures Verified(h, Mirror(h, c, fed))
    ensures Mirror(h, c, fed).baseSeq == c.baseSeq && c.entries <= Mirror(h, c, fed).entries
    decreases |fed|
  {
    if fed != [] {
      SegmentSnoc(h, c.baseSeq, c.basePrevHash, c.entries, fed[0]);
      MirrorStaysVerified(h, TryAppendRemote(h, c, fed[0]).0, fed[1..]);
    }
  }

  /** A mirror and its source that hold something and show the same root hold the same log. */
  lemma MirrorAgrees<T(!new)>(h: (nat, Id, T) -> Id, mirror: Chain<T>, fed: seq<Entry<T>>, source: Chain<T>)
    requires Injective(h)
    requires Verified(h, mirror) && Verified(h, source) && mirror.baseSeq == source.baseSeq
    requires var m := Mirror(h, mirror, fed);
             m.entries != [] && source.entries != [] && Root(m) == Root(source)
    ensures Mirror(h, mirror, fed) == source
  {
    MirrorStaysVerified(h, mirror, fed);
    var m := Mirror(h, mirror, fed);
    SameRootSameChain(h, source.baseSeq, m.basePrevHash, source.basePrevHash, m.entries, source.entries);
  }

  /** A mirror fed the source's own missing entries in order accepts every one of them. */
  lemma {:induction false} MirrorCatchesUp<T>(h: (nat, Id, T) -> Id, c: Chain<T>, missing: seq<Entry<T>>)
    requires VerifySegment(h, NextSeq(c), Root(c), missing)
    ensures Mirror(h, c, missing) == c.(entries := c.entries + missing)
    decreases |missing|
  {
    if missing == [] {
      assert c.entries + missing == c.entries;
    } else {
      var c' := c.(entries := c.entries + [missing[0]]);
      MirrorCatchesUp(h, c', missing[1..]);
      assert (c.entries + [missing[0]]) + missing[1..] == c.entries + missing;
    }
  }

  // ---- Splitting and reading ----

  function Clamp(c: nat, base: nat, len: nat): (i: nat)
    ensures i <= len
  {
    if c <= base then 0 else Min(c - base, len)
  }

  function SplitOffArchived<T>(c: Chain<T>, keepFrom: nat): (seq<Entry<T>>, Chain<T>) {
    var cut := Clamp(keepFrom, c.baseSeq, |c.entries|);
    var archived := c.entries[..cut];
    (archived, Chain(c.baseSeq + cut, LastHash(c.basePrevHash, archived), c.entries[cut..]))
  }

  function EntriesSince<T>(c: Chain<T>, since: nat): seq<Entry<T>> {
    c.entries[Clamp(since, c.baseSeq, |c.entries|)..]
  }

  /** Splitting loses nothing and moves neither the root nor the next index, and both parts verify. */
  lemma SplitKeepsTip<T>(h: (nat, Id, T) -> Id, c: Chain<T>, keepFrom: nat)
    ensures var (archived, hot) := SplitOffArchived(c, keepFrom);
            && archived + hot.entries == c.entries
            && hot.baseSeq == c.baseSeq + |archived|
            && Root(hot) == Root(c) && NextSeq(hot) == NextSeq(c)
            && (Verified(h, c) <==> VerifySegment(h, c.baseSeq, c.basePrevHash, archived) && Verified(h, hot))
  {
    var (archived, hot) := SplitOffArchived(c, keepFrom);
    assert archived + hot.entries == c.entries;
    SegmentsCompose(h, c.baseSeq, c.basePrevHash, archived, hot.entries);
  }

  // ---- The log as an object ----

  method VerifyChainSegment<T(==)>(h: (nat, Id, T) -> Id, start: nat, startPrev: Id, entries: seq<Entry<T>>)
    returns (ok: bool)
    ensures ok == VerifySegment(h, start, startPrev, entries)
  {
    var prev := startPrev;
    assert entries[0..] == entries;
    for i := 0 to |entries|
      invariant VerifySegment(h, start, startPrev, entries) == VerifySegment(h, start + i, prev, entries[i..])
    {
      var e := entries[i];
      assert entries[i..][0] == e && entries[i..][1..] == entries[i + 1..];
      if start + i >= TWO_64 || e.index != start + i {
        return false;
      }
      if e.prevHash != prev {
        return false;
      }
      if h(e.index, e.prevHash, e.payload) != e.entryHash {
        return false;
      }
      prev := e.entryHash;
    }
    return true;
  }

  class HashChainLog<T(==)> {
    var baseSeq: nat
    var basePrevHash: Id
    var entries: seq<Entry<T>>

    function View(): Chain<T>
      reads this
    {
      Chain(baseSeq, basePrevHash, entries)
    }

    /** A log resuming after an archived prefix; the genesis log resumes from index 0, hash 0. */
    constructor ResumeFrom(nextSeq: nat, prevRoot: Id)
      ensures View() == Chain(nextSeq, prevRoot, [])
    {
      baseSeq, basePrevHash, entries := nextSeq, prevRoot, [];
    }

    method AppendPayload(h: (nat, Id, T) -> Id, payload: T) returns (e: Entry<T>)
      modifies this`entries
      ensures View() == Append(h, old(View()), payload)
      ensures e == entries[|entries| - 1]
      ensures old(Verified(h, View())) && old(NextSeq(View())) < TWO_64 ==> Verified(h, View())
    {
      if VerifySegment(h, baseSeq, basePrevHash, entries) && NextSeq(View()) < TWO_64 {
        AppendKeepsVerified(h, View(), payload);
      }
      var prev := if entries == [] then basePrevHash else entries[|entries| - 1].entryHash;
      var index := baseSeq + |entries|;
      e := Entry(index, prev, h(index, prev, payload), payload);
      entries := entries + [e];
    }

    method TryAppend(h: (nat, Id, T) -> Id, e: Entry<T>) returns (ok: bool)
      modifies this`entries
      ensures (View(), ok) == TryAppendRemote(h, old(View()), e)
    {
      ok := VerifyNextEntry(h, Root(View()), NextSeq(View()), e);
      if ok {
        entries := entries + [e];
      }
    }

    /** Replaces this log by its hot window; called once the archived prefix is safely stored. */
    method TrimTo(keepFrom: nat) returns (archived: seq<Entry<T>>)
      modifies this
      ensures (archived, View()) == SplitOffArchived(old(View()), keepFrom)
      ensures archived + entries == old(entries)
      ensures Root(View()) == old(Root(View())) && NextSeq(View()) == old(NextSeq(View()))
    {
      var cut := Clamp(keepFrom, baseSeq, |entries|);
      archived := entries[..cut];
      basePrevHash := LastHash(basePrevHash, archived);
      baseSeq, entries := baseSeq + cut, entries[cut..];
    }
  }
}
