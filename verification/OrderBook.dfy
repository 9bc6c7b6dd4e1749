/** The order book as the server holds it: an object whose matching loops update levels in place,
    remember what to remove, and remove it afterwards. Each method is proved against `Engine`. */
module MutableOrderBook {
  import opened Types
  import opened Fees
  import opened PriceTime
  import opened Engine
  import opened BookInvariants
  import opened BookTheorems
  import opened BookOperations
  import Field

  // ---- Deferred removal ----

  /** The orders at indices not listed in `filled`, which lists indices in ascending order. */
  function Without(orders: seq<Order>, filled: seq<nat>): seq<Order>
    requires IndicesOf(filled, |orders|)
    decreases |filled|
  {
    if filled == [] then orders
    else
      var k := filled[|filled| - 1];
      Without(orders[..k], filled[..|filled| - 1]) + orders[k + 1..]
  }

  predicate IndicesOf(filled: seq<nat>, n: nat) {
    && (forall i :: 0 <= i < |filled| ==> filled[i] < n)
    && (forall i, j :: 0 <= i < j < |filled| ==> filled[i] < filled[j])
  }

  lemma WithoutSnoc(orders: seq<Order>, filled: seq<nat>, x: Order)
    requires IndicesOf(filled, |orders|)
    ensures Without(orders + [x], filled) == Without(orders, filled) + [x]
    ensures Without(orders + [x], filled + [|orders|]) == Without(orders, filled)
  {
    if filled != [] {
      var k := filled[|filled| - 1];
      assert (orders + [x])[..k] == orders[..k];
      assert (orders + [x])[k + 1..] == orders[k + 1..] + [x];
    }
    assert (filled + [|orders|])[..|filled|] == filled;
    assert (orders + [x])[..|orders|] == orders;
    assert (orders + [x])[|orders| + 1..] == [];
  }

  lemma WithoutLast(orders: seq<Order>, filled: seq<nat>)
    requires IndicesOf(filled, |orders|) && filled != []
    ensures var n := |filled| - 1;
            && filled[n] < |orders|
            && IndicesOf(filled[..n], filled[n])
            && Without(orders, filled) == Without(orders[..filled[n]], filled[..n]) + orders[filled[n] + 1..]
  {
  }

  /** Removing the filled indices from the last to the first. */
  method RemoveFilled(orders: seq<Order>, filled: seq<nat>) returns (kept: seq<Order>)
    requires IndicesOf(filled, |orders|)
    ensures kept == Without(orders, filled)
  {
    kept := orders;
    var n := |filled|;
    ghost var head, left, tail := orders, filled, [];
    while n > 0
      invariant 0 <= n == |left| && left == filled[..n]
      invariant IndicesOf(left, |head|)
      invariant kept == head + tail
      invariant Without(orders, filled) == Without(head, left) + tail
    {
      hide Without, IndicesOf;
      WithoutLast(head, left);
      n := n - 1;
      var k := filled[n];
      kept := RemoveAt(kept, k);
      ghost var middle := head[k + 1..];
      assert kept == head[..k] + (middle + tail);
      ConcatAssociates(Without(head[..k], left[..n]), middle, tail);
      head, left, tail := head[..k], left[..n], middle + tail;
    }
  }

  /** The levels whose price is not listed. */
  function WithoutPrices(levels: seq<Level>, prices: seq<u64>): seq<Level> {
    if levels == [] then []
    else (if levels[0].price in prices then [] else [levels[0]]) + WithoutPrices(levels[1..], prices)
  }

  lemma {:induction false} WithoutPricesConcat(a: seq<Level>, b: seq<Level>, prices: seq<u64>)
    ensures WithoutPrices(a + b, prices) == WithoutPrices(a, prices) + WithoutPrices(b, prices)
  {
    if a == [] {
      assert a + b == b;
    } else {
      assert (a + b)[1..] == a[1..] + b;
      WithoutPricesConcat(a[1..], b, prices);
    }
  }

  lemma {:induction false} WithoutPricesIdle(a: seq<Level>, ps: seq<u64>, qs: seq<u64>)
    requires forall i :: 0 <= i < |a| ==> (a[i].price in ps <==> a[i].price in qs)
    ensures WithoutPrices(a, ps) == WithoutPrices(a, qs)
    ensures (forall i :: 0 <= i < |a| ==> a[i].price !in ps) ==> WithoutPrices(a, ps) == a
  {
    if a != [] { WithoutPricesIdle(a[1..], ps, qs); }
  }

  lemma {:induction false} WithoutPricesTwice(a: seq<Level>, ps: seq<u64>, p: u64)
    ensures WithoutPrices(WithoutPrices(a, ps), [p]) == WithoutPrices(a, ps + [p])
  {
    if a != [] {
      WithoutPricesTwice(a[1..], ps, p);
      if a[0].price !in ps {
        WithoutPricesConcat([a[0]], WithoutPrices(a[1..], ps), [p]);
      } else {
        assert WithoutPrices(a, ps) == WithoutPrices(a[1..], ps);
      }
    }
  }

  method PruneLevels(levels: seq<Level>, empties: seq<u64>) returns (pruned: seq<Level>)
    ensures pruned == WithoutPrices(levels, empties)
  {
    pruned := levels;
    WithoutPricesIdle(levels, [], []);
    for n := 0 to |empties|
      invariant pruned == WithoutPrices(levels, empties[..n])
    {
      WithoutPricesTwice(levels, empties[..n], empties[n]);
      assert empties[..n + 1] == empties[..n] + [empties[n]];
      pruned := WithoutPrices(pruned, [empties[n]]);
    }
    assert empties[..|empties|] == empties;
  }

  // ---- Where the two loops stand ----

  /** Part of a level is processed: `prefix` are its first orders, updated in place, `filled` lists
      the exhausted ones, and what was done so far followed by the fill of `rest` is the fill of the
      whole level. */
  ghost predicate LevelProgress(taker: Order, level: Level, left0: u64,
                                prefix: seq<Order>, filled: seq<nat>, rest: seq<Order>, left: u64, done: seq<Fill>)
  {
    && IndicesOf(filled, |prefix|)
    && var r := FillLevel(taker, level.price, rest, left);
       FillLevel(taker, level.price, level.orders, left0)
       == LevelFill(Without(prefix, filled) + r.kept, done + r.fills, r.left)
  }

  lemma LevelStart(taker: Order, level: Level, left0: u64)
    ensures LevelProgress(taker, level, left0, [], [], level.orders, left0, [])
  {
  }

  lemma LevelSkip(taker: Order, level: Level, left0: u64, prefix: seq<Order>, filled: seq<nat>,
                  maker: Order, rest: seq<Order>, left: u64, done: seq<Fill>)
    requires LevelProgress(taker, level, left0, prefix, filled, [maker] + rest, left, done)
    requires left != 0 && maker.trader == taker.trader
    ensures LevelProgress(taker, level, left0, prefix + [maker], filled, rest, left, done)
  {
    assert ([maker] + rest)[1..] == rest;
    WithoutSnoc(prefix, filled, maker);
  }

  lemma LevelTake(taker: Order, level: Level, left0: u64, prefix: seq<Order>, filled: seq<nat>,
                  maker: Order, rest: seq<Order>, left: u64, done: seq<Fill>, a: u64)
    requires LevelProgress(taker, level, left0, prefix, filled, [maker] + rest, left, done)
    requires left != 0 && maker.trader != taker.trader && a == Min(left, maker.amount)
    ensures LevelProgress(taker, level, left0, prefix + [maker.(amount := maker.amount - a)],
              if a == maker.amount then filled + [|prefix|] else filled,
              rest, left - a, done + [Fill(maker, level.price, a)])
  {
    hide FillLevel, Without;
    var reduced := maker.(amount := maker.amount - a);
    var r := FillLevel(taker, level.price, rest, left - a);
    FillLevelTake(taker, level.price, maker, rest, left, a);
    WithoutSnoc(prefix, filled, reduced);
    assert done + ([Fill(maker, level.price, a)] + r.fills) == (done + [Fill(maker, level.price, a)]) + r.fills;
    assert Without(prefix, filled) + ([reduced] + r.kept) == (Without(prefix, filled) + [reduced]) + r.kept;
  }

  lemma LevelDone(taker: Order, level: Level, left0: u64,
                  prefix: seq<Order>, filled: seq<nat>, rest: seq<Order>, left: u64, done: seq<Fill>)
    requires LevelProgress(taker, level, left0, prefix, filled, rest, left, done)
    requires rest == [] || left == 0
    ensures IndicesOf(filled, |prefix + rest|)
    ensures FillLevel(taker, level.price, level.orders, left0) == LevelFill(Without(prefix + rest, filled), done, left)
  {
    RemainderKept(prefix, rest, filled);
    assert done + [] == done;
  }

  /** The same for the levels: `prefix` are updated in place, `empties` lists the prices of those
      left without orders. */
  ghost predicate SweepProgress(taker: Order, levels0: seq<Level>, prefix: seq<Level>, rest: seq<Level>,
                                empties: seq<u64>, left: u64, done: seq<Fill>)
  {
    && PricesApart(prefix, rest, empties)
    && var r := Sweep(taker, rest, left);
       Sweep(taker, levels0, taker.amount)
       == SideFill(WithoutPrices(prefix, empties) + r.levels, done + r.fills, r.left)
  }

  lemma SweepStart(taker: Order, levels: seq<Level>, desc: bool)
    requires Sorted(levels, desc)
    ensures SweepProgress(taker, levels, [], levels, [], taker.amount, [])
  {
    hide Sweep;
    var r := Sweep(taker, levels, taker.amount);
    assert [] + r.levels == r.levels && [] + r.fills == r.fills;
  }

  lemma SweepTake(taker: Order, levels0: seq<Level>, prefix: seq<Level>, head: Level, rest: seq<Level>,
                  empties: seq<u64>, left: u64, done: seq<Fill>, f: LevelFill)
    requires SweepProgress(taker, levels0, prefix, [head] + rest, empties, left, done)
    requires Crosses(taker, head.price) && left != 0
    requires f == FillLevel(taker, head.price, head.orders, left)
    ensures SweepProgress(taker, levels0, prefix + [Level(head.price, f.kept)], rest,
              if f.kept == [] then empties + [head.price] else empties, f.left, done + f.fills)
  {
    SweepTakePrices(prefix, head, rest, empties, f.kept);
    SweepTakeEquation(taker, levels0, prefix, head, rest, empties, left, done, f);
  }

  ghost predicate PricesApart(prefix: seq<Level>, rest: seq<Level>, empties: seq<u64>) {
    && (forall j :: 0 <= j < |rest| ==> rest[j].price !in empties)
    && (forall j, k :: 0 <= j < |prefix| && 0 <= k < |rest| ==> prefix[j].price != rest[k].price)
    && (forall j, k :: 0 <= j < k < |rest| ==> rest[j].price != rest[k].price)
  }

  lemma SweepTakePrices(prefix: seq<Level>, head: Level, rest: seq<Level>, empties: seq<u64>, kept: seq<Order>)
    requires PricesApart(prefix, [head] + rest, empties)
    ensures PricesApart(prefix + [Level(head.price, kept)], rest,
              if kept == [] then empties + [head.price] else empties)
  {
    var all := [head] + rest;
    assert all[0] == head;
    assert forall j :: 0 <= j < |rest| ==> rest[j] == all[j + 1];
  }

  lemma SweepTakeEquation(taker: Order, levels0: seq<Level>, prefix: seq<Level>, head: Level, rest: seq<Level>,
                          empties: seq<u64>, left: u64, done: seq<Fill>, f: LevelFill)
    requires SweepProgress(taker, levels0, prefix, [head] + rest, empties, left, done)
    requires Crosses(taker, head.price) && left != 0
    requires f == FillLevel(taker, head.price, head.orders, left)
    ensures var empties' := if f.kept == [] then empties + [head.price] else empties;
            var r := Sweep(taker, rest, f.left);
            Sweep(taker, levels0, taker.amount)
            == SideFill(WithoutPrices(prefix + [Level(head.price, f.kept)], empties') + r.levels,
                        (done + f.fills) + r.fills, r.left)
  {
    hide FillLevel, Sweep, WithoutPrices;
    var all, level := [head] + rest, Level(head.price, f.kept);
    assert all[0] == head;
    forall j | 0 <= j < |prefix| ensures prefix[j].price != level.price {
      assert prefix[j].price != all[0].price;
    }
    var r := Sweep(taker, rest, f.left);
    SweepHead(taker, head, rest, left);
    PruneStep(prefix, level, empties, if f.kept == [] then empties + [head.price] else empties);
    assert done + (f.fills + r.fills) == (done + f.fills) + r.fills;
    assert WithoutPrices(prefix, empties) + ([level] + r.levels)
        == (WithoutPrices(prefix, empties) + [level]) + r.levels;
  }

  lemma SweepHead(taker: Order, head: Level, rest: seq<Level>, left: u64)
    requires Crosses(taker, head.price) && left != 0
    ensures var f := FillLevel(taker, head.price, head.orders, left);
            var r := Sweep(taker, rest, f.left);
            Sweep(taker, [head] + rest, left)
            == SideFill((if f.kept == [] then [] else [Level(head.price, f.kept)]) + r.levels,
                        f.fills + r.fills, r.left)
  {
    assert ([head] + rest)[1..] == rest;
  }

  lemma SweepDone(taker: Order, levels0: seq<Level>, prefix: seq<Level>, rest: seq<Level>,
                  empties: seq<u64>, left: u64, done: seq<Fill>)
    requires SweepProgress(taker, levels0, prefix, rest, empties, left, done)
    requires rest == [] || !Crosses(taker, rest[0].price) || left == 0
    ensures Sweep(taker, levels0, taker.amount) == SideFill(WithoutPrices(prefix + rest, empties), done, left)
  {
    WithoutPricesConcat(prefix, rest, empties);
    WithoutPricesIdle(rest, empties, empties);
    assert done + [] == done;
  }

  // ---- The book ----

  /** The engine's running fee total: one truncated fee per match, wrapping at 64 bits. */
  function Rewards(start: u64, ms: seq<Match>): u64 {
    if ms == [] then start
    else
      var m := ms[|ms| - 1];
      (Rewards(start, ms[..|ms| - 1]) + EngineFee(m.amount, m.price, m.feeBps)) % TWO_64
  }

  /** A match's fee in full: amount times price times rate, in basis points, rounded down. */
  function FullFee(m: Match): nat {
    m.amount * m.price * m.feeBps / 10_000
  }

  function FullFees(ms: seq<Match>): seq<nat> {
    seq(|ms|, i requires 0 <= i < |ms| => FullFee(ms[i]))
  }

  function Wrap(x: nat): u64 {
    x % TWO_64
  }

  /** However often it wrapped on the way, the total is the sum of the full fees, modulo 2^64. */
  lemma RewardsAreFees(start: u64, ms: seq<Match>)
    ensures Rewards(start, ms) == (start + Sum(FullFees(ms))) % TWO_64
  {
    hide Rewards, Sum, FullFees;
    RewardsWrap(start, ms);
  }

  lemma {:induction false} RewardsWrap(start: u64, ms: seq<Match>)
    ensures Rewards(start, ms) == Wrap(start + Sum(FullFees(ms)))
  {
    hide *;
    RewardsSnoc(start, ms);
    if ms != [] {
      var init, fee := ms[..|ms| - 1], FullFee(ms[|ms| - 1]);
      RewardsWrap(start, init);
      AddWrapped(start + Sum(FullFees(init)), fee);
      assert start + Sum(FullFees(ms)) == start + Sum(FullFees(init)) + fee;
    }
  }

  lemma RewardsSnoc(start: u64, ms: seq<Match>)
    ensures ms == [] ==> Rewards(start, ms) == Wrap(start + Sum(FullFees(ms)))
    ensures ms != [] ==>
              var init, fee := ms[..|ms| - 1], FullFee(ms[|ms| - 1]);
              && Rewards(start, ms) == Wrap(Rewards(start, init) + Wrap(fee))
              && Sum(FullFees(ms)) == Sum(FullFees(init)) + fee
  {
    hide FullFee, Sum;
    if ms == [] {
      assert FullFees(ms) == [];
      SumOfZeros([]);
    } else {
      var init, fee := ms[..|ms| - 1], FullFee(ms[|ms| - 1]);
      assert FullFees(ms) == FullFees(init) + [fee];
      SumConcat(FullFees(init), [fee]);
      SumHead(fee, []);
      SumOfZeros([]);
      assert [fee] + [] == [fee];
      WrappedFee(ms[|ms| - 1]);
    }
  }

  lemma WrappedFee(m: Match)
    ensures EngineFee(m.amount, m.price, m.feeBps) == Wrap(FullFee(m))
  {
  }

  lemma AddWrapped(x: nat, y: nat)
    ensures Wrap(Wrap(x) + Wrap(y)) == Wrap(x + y)
  {
    var s := x % TWO_64 + y % TWO_64;
    Field.RemainderUnique(TWO_64, x + y, x / TWO_64 + y / TWO_64 + s / TWO_64, s % TWO_64);
  }

  lemma MatchesSnoc(b: Book, taker: Order, fills: seq<Fill>, f: Fill, timestampUs: u64)
    ensures MatchesOf(b, taker, fills + [f], timestampUs)
            == MatchesOf(b, taker, fills, timestampUs)
               + [MatchOf(b, taker, f, timestampUs, NodeAt(b.activeNodes, b.cursor, |fills|))]
  {
  }

  lemma TallyStart(b: Book, taker: Order, timestampUs: u64, rewards: u64)
    ensures MatchesOf(b, taker, [], timestampUs) == []
    ensures Rewards(rewards, []) == rewards
    ensures CursorAfter(b.activeNodes, b.cursor, 0) == b.cursor
  {
  }

  lemma UpdatedParts<T>(s: seq<T>, i: nat, x: T)
    requires i < |s|
    ensures s[i := x][..i + 1] == s[..i] + [x] && s[i := x][i + 1..] == s[i + 1..]
  {
  }

  class OrderBook {
    var symbol: string
    var bids: seq<Level>
    var asks: seq<Level>
    var nodeRewards: u64
    var activeNodes: seq<Id>
    var nextNodeIndex: nat
    var fees: FeeCalculator

    function View(): Book
      reads this
    {
      Book(symbol, bids, asks, activeNodes, nextNodeIndex, fees)
    }

    ghost predicate Valid()
      reads this
    {
      BookOk(View())
    }

    constructor (symbol: string)
      ensures Valid() && View() == NewBook(symbol, [], DEFAULT_FEES) && nodeRewards == 0
    {
      this.symbol := symbol;
      bids, asks, nodeRewards := [], [], 0;
      activeNodes, nextNodeIndex, fees := [], 0, DEFAULT_FEES;
    }

    method SetActiveNodes(nodes: seq<Id>)
      requires Valid()
      modifies this`activeNodes, this`nextNodeIndex
      ensures Valid() && View() == old(View()).(activeNodes := nodes, cursor := 0)
    {
      activeNodes, nextNodeIndex := nodes, 0;
    }

    method RestoreActiveNodesCursor(cursor: nat)
      requires Valid()
      modifies this`nextNodeIndex
      ensures Valid() && View() == old(View()).(cursor := cursor)
    {
      nextNodeIndex := cursor;
    }

    /** Takes the next node; after `n` calls since `start` it returns the `n`-th of the round robin. */
    method AssignNode(ghost start: nat, ghost n: nat) returns (node: Id)
      requires nextNodeIndex == CursorAfter(activeNodes, start, n)
      modifies this`nextNodeIndex
      ensures node == NodeAt(activeNodes, start, n)
      ensures nextNodeIndex == CursorAfter(activeNodes, start, n + 1)
    {
      if activeNodes == [] {
        return 0;
      }
      RoundRobinStep(activeNodes, start, n);
      node := activeNodes[nextNodeIndex % |activeNodes|];
      nextNodeIndex := (nextNodeIndex + 1) % |activeNodes|;
    }

    /** The running totals after `fills`: the cursor, the matches and the rewards, all counted from
        the book `b` and the rewards at the start of the order. */
    ghost predicate Tally(b: Book, rewards: u64, taker: Order, fills: seq<Fill>, timestampUs: u64, matches: seq<Match>)
      reads this
    {
      && b == View().(cursor := b.cursor)
      && nextNodeIndex == CursorAfter(activeNodes, b.cursor, |fills|)
      && matches == MatchesOf(b, taker, fills, timestampUs)
      && nodeRewards == Rewards(rewards, matches)
    }

    /** Records one fill: its fee, its node, its match. */
    method EmitMatch(taker: Order, f: Fill, timestampUs: u64, matches: seq<Match>,
                     ghost b: Book, ghost fills: seq<Fill>, ghost rewards: u64)
      returns (matches': seq<Match>)
      requires Tally(b, rewards, taker, fills, timestampUs, matches)
      modifies this`nodeRewards, this`nextNodeIndex
      ensures Tally(b, rewards, taker, fills + [f], timestampUs, matches')
    {
      var node := AssignNode(b.cursor, |fills|);
      var m := MatchOf(View(), taker, f, timestampUs, node);
      MatchesSnoc(b, taker, fills, f, timestampUs);
      matches' := matches + [m];
      assert matches'[..|matches|] == matches;
      nodeRewards := (nodeRewards + EngineFee(f.amount, f.price, FeeBps(fees, m.tier))) % TWO_64;
    }

    /** The inner loop: one price level, in place, then the removal of the filled indices. */
    method MatchLevel(taker: Order, level: Level, left0: u64, timestampUs: u64, matches0: seq<Match>,
                      ghost b: Book, ghost fills0: seq<Fill>, ghost rewards: u64)
      returns (kept: seq<Order>, left: u64, matches: seq<Match>, ghost fills: seq<Fill>)
      requires Tally(b, rewards, taker, fills0, timestampUs, matches0)
      modifies this`nodeRewards, this`nextNodeIndex
      ensures var f := FillLevel(taker, level.price, level.orders, left0);
              LevelFill(kept, fills, left) == f.(fills := fills0 + f.fills)
      ensures Tally(b, rewards, taker, fills, timestampUs, matches)
    {
      hide FillLevel, LevelProgress, Without, IndicesOf, Tally;
      var orders, filled: seq<nat> := level.orders, [];
      left, matches, fills := left0, matches0, fills0;
      ghost var done: seq<Fill> := [];
      var idx := 0;
      LevelStart(taker, level, left0);
      assert orders[..0] == [] && orders[0..] == orders;
      assert fills0 + done == fills;
      while idx < |orders| && left != 0
        invariant 0 <= idx <= |orders|
        invariant LevelProgress(taker, level, left0, orders[..idx], filled, orders[idx..], left, done)
        invariant fills == fills0 + done
        invariant Tally(b, rewards, taker, fills, timestampUs, matches)
      {
        var maker := orders[idx];
        ghost var prefix, rest := orders[..idx], orders[idx + 1..];
        assert orders[idx..] == [maker] + rest;
        assert |prefix| == idx;
        if maker.trader == taker.trader {
          LevelSkip(taker, level, left0, prefix, filled, maker, rest, left, done);
        } else {
          var a := Min(left, maker.amount);
          var f := Fill(maker, level.price, a);
          LevelTake(taker, level, left0, prefix, filled, maker, rest, left, done, a);
          left := left - a;
          orders := orders[idx := maker.(amount := maker.amount - a)];
          matches := EmitMatch(taker, f, timestampUs, matches, b, fills, rewards);
          assert fills0 + (done + [f]) == fills + [f];
          done, fills := done + [f], fills + [f];
          if orders[idx].amount == 0 {
            filled := filled + [idx];
          }
        }
        idx := idx + 1;
        assert orders[..idx] == prefix + [orders[idx - 1]] && orders[idx..] == rest;
      }
      LevelDone(taker, level, left0, orders[..idx], filled, orders[idx..], left, done);
      assert orders[..idx] + orders[idx..] == orders;
      kept := RemoveFilled(orders, filled);
    }

    /** The outer loop over levels in priority order, then the removal of the emptied levels. */
    method SweepLevels(taker: Order, levels0: seq<Level>, desc: bool, timestampUs: u64)
      returns (levels: seq<Level>, left: u64, matches: seq<Match>, ghost fills: seq<Fill>)
      requires Sorted(levels0, desc)
      modifies this`nodeRewards, this`nextNodeIndex
      ensures var s := Sweep(taker, levels0, taker.amount);
              SideFill(levels, fills, left) == s
      ensures Tally(old(View()), old(nodeRewards), taker, fills, timestampUs, matches)
    {
      hide Sweep, SweepProgress, WithoutPrices, FillLevel, Sorted, Rewards, MatchesOf;
      SweepStart(taker, levels0, desc);
      TallyStart(View(), taker, timestampUs, nodeRewards);
      levels, left, matches, fills := levels0, taker.amount, [], [];
      ghost var b, rewards := View(), nodeRewards;
      var empties: seq<u64> := [];
      var i := 0;
      assert levels[0..] == levels && levels[..0] == [];
      assert Tally(b, rewards, taker, fills, timestampUs, matches);
      hide Tally;
      while i < |levels| && Crosses(taker, levels[i].price) && left != 0
        invariant 0 <= i <= |levels|
        invariant SweepProgress(taker, levels0, levels[..i], levels[i..], empties, left, fills)
        invariant Tally(b, rewards, taker, fills, timestampUs, matches)
      {
        hide Crosses;
        var level := levels[i];
        ghost var rest := levels[i + 1..];
        assert levels[i..] == [level] + rest;
        SweepTake(taker, levels0, levels[..i], level, rest, empties, left, fills,
          FillLevel(taker, level.price, level.orders, left));
        var kept;
        kept, left, matches, fills :=
          MatchLevel(taker, level, left, timestampUs, matches, b, fills, rewards);
        UpdatedParts(levels, i, Level(level.price, kept));
        levels := levels[i := Level(level.price, kept)];
        if kept == [] {
          empties := empties + [level.price];
        }
        i := i + 1;
      }
      SweepDone(taker, levels0, levels[..i], levels[i..], empties, left, fills);
      assert levels[..i] + levels[i..] == levels;
      levels := PruneLevels(levels, empties);
    }

    method AddOrderAt(order: Order, timestampUs: u64) returns (matches: seq<Match>)
      requires Valid()
      modifies this
      ensures Valid()
      ensures View() == Add(old(View()), order, timestampUs).book
      ensures matches == Add(old(View()), order, timestampUs).matches
      ensures TurnsOk(old(View()), AddResult(View(), matches))
      ensures nodeRewards == Rewards(old(nodeRewards), matches)
    {
      AddKeepsOk(View(), order, timestampUs);
      FreshTurns(View());
      AddKeepsTurns(View(), AddResult(View(), []), order, timestampUs);
      assert [] + Add(View(), order, timestampUs).matches == Add(View(), order, timestampUs).matches;
      hide TurnsOk;
      if order.amount == 0 || order.price == 0 || order.price > MAX_PRICE
         || order.amount * order.price >= TWO_64
      {
        return [];
      }
      hide Sweep, Place, MatchesOf, Rewards, BookOk;
      var left;
      ghost var fills;
      match order.side {
        case Buy =>
          asks, left, matches, fills := SweepLevels(order, asks, false, timestampUs);
          if left > 0 {
            bids := Place(bids, order.(amount := left));
          }
        case Sell =>
          var best;
          ReverseShape(bids, false, Buy);
          best, left, matches, fills := SweepLevels(order, Reverse(bids), true, timestampUs);
          bids := Reverse(best);
          if left > 0 {
            asks := Place(asks, order.(amount := left));
          }
      }
    }

    method CancelOrder(id: Id) returns (found: bool)
      requires Valid()
      modifies this`bids, this`asks
      ensures Valid()
      ensures (View(), found) == Cancel(old(View()), id)
      ensures CancelOk(old(View()), View(), id, found)
    {
      hide CancelOk, CancelIn, Holds, BookOk, PositionOf, Live;
      CancelKeepsOk(View(), id);
      CancelIsRemoval(View(), id);
      var i := FindLevel(bids, id);
      found := i < |bids|;
      if found {
        bids := CancelAt(bids, i, id);
      } else {
        i := FindLevel(asks, id);
        found := i < |asks|;
        if found {
          asks := CancelAt(asks, i, id);
        }
      }
    }
  }

  /** Cancelling in the level that holds the order, all levels before it being without it. */
  function CancelAt(levels: seq<Level>, i: nat, id: Id): seq<Level>
    requires i < |levels| && PositionOf(levels[i].orders, id) < |levels[i].orders|
  {
    levels[i := Level(levels[i].price, RemoveAt(levels[i].orders, PositionOf(levels[i].orders, id)))]
  }

  lemma CancelSkip(prefix: seq<Level>, head: Level, rest: seq<Level>, id: Id)
    requires PositionOf(head.orders, id) == |head.orders|
    ensures Holds([head] + rest, id) == Holds(rest, id)
    ensures prefix + CancelIn([head] + rest, id) == (prefix + [head]) + CancelIn(rest, id)
  {
    assert ([head] + rest)[1..] == rest;
    assert CancelIn([head] + rest, id) == [head] + CancelIn(rest, id);
  }

  lemma CancelHit(prefix: seq<Level>, head: Level, rest: seq<Level>, id: Id)
    requires PositionOf(head.orders, id) < |head.orders|
    ensures Holds([head] + rest, id)
    ensures (prefix + ([head] + rest))[|prefix|] == head
    ensures prefix + CancelIn([head] + rest, id) == CancelAt(prefix + ([head] + rest), |prefix|, id)
  {
    assert ([head] + rest)[1..] == rest;
    hide CancelIn;
    var hit := Level(head.price, RemoveAt(head.orders, PositionOf(head.orders, id)));
    assert prefix + ([hit] + rest) == (prefix + ([head] + rest))[|prefix| := hit];
  }

  /** The first level holding an order with this id; `|levels|` when there is none. */
  method FindLevel(levels: seq<Level>, id: Id) returns (i: nat)
    ensures i <= |levels|
    ensures i < |levels| <==> Holds(levels, id)
    ensures i < |levels| ==>
              && PositionOf(levels[i].orders, id) < |levels[i].orders|
              && CancelIn(levels, id) == CancelAt(levels, i, id)
  {
    i := 0;
    assert levels[0..] == levels && levels[..0] == [];
    while i < |levels| && PositionOf(levels[i].orders, id) == |levels[i].orders|
      invariant 0 <= i <= |levels|
      invariant Holds(levels, id) == Holds(levels[i..], id)
      invariant CancelIn(levels, id) == levels[..i] + CancelIn(levels[i..], id)
    {
      hide Holds, CancelIn;
      assert levels[i..] == [levels[i]] + levels[i + 1..];
      assert levels[..i + 1] == levels[..i] + [levels[i]];
      CancelSkip(levels[..i], levels[i], levels[i + 1..], id);
      i := i + 1;
    }
    if i < |levels| {
      hide Holds, CancelIn;
      assert levels[i..] == [levels[i]] + levels[i + 1..];
      assert levels == levels[..i] + levels[i..];
      CancelHit(levels[..i], levels[i], levels[i + 1..], id);
    }
  }

  lemma RemainderKept(prefix: seq<Order>, rest: seq<Order>, filled: seq<nat>)
    requires IndicesOf(filled, |prefix|)
    ensures Without(prefix + rest, filled) == Without(prefix, filled) + rest
  {
    if filled != [] {
      var k := filled[|filled| - 1];
      assert (prefix + rest)[..k] == prefix[..k];
      assert (prefix + rest)[k + 1..] == prefix[k + 1..] + rest;
      ConcatAssociates(Without(prefix[..k], filled[..|filled| - 1]), prefix[k + 1..], rest);
    }
  }

  lemma PruneStep(prefix: seq<Level>, level: Level, before: seq<u64>, empties: seq<u64>)
    requires forall j :: 0 <= j < |prefix| ==> prefix[j].price != level.price
    requires level.price !in before
    requires empties == if level.orders == [] then before + [level.price] else before
    ensures WithoutPrices(prefix + [level], empties)
            == WithoutPrices(prefix, before) + (if level.orders == [] then [] else [level])
  {
    WithoutPricesConcat(prefix, [level], empties);
    WithoutPricesIdle(prefix, before, empties);
  }
}
