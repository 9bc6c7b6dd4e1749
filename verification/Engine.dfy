/** The order book as a value, and what adding or cancelling an order does to it. */
module Engine {
  import opened Types
  import opened Fees
  import opened PriceTime

  /** One price level: its orders in arrival order. A `BTreeMap` of levels is the sequence of its
      entries in ascending key order. */
  datatype Level = Level(price: u64, orders: seq<Order>)

  datatype Book = Book(
    symbol: string, bids: seq<Level>, asks: seq<Level>,
    activeNodes: seq<Id>, cursor: nat, fees: FeeCalculator)

  datatype LevelFill = LevelFill(kept: seq<Order>, fills: seq<Fill>, left: u64)

  datatype SideFill = SideFill(levels: seq<Level>, fills: seq<Fill>, left: u64)

  datatype AddResult = AddResult(book: Book, matches: seq<Match>)

  const MAX_PRICE: nat := 1_000_000_000_000

  predicate Admissible(o: Order) {
    && o.amount != 0
    && 0 < o.price <= MAX_PRICE
    && o.amount * o.price < TWO_64
  }

  /** Filling the taker against one level, oldest order first, skipping the taker's own orders. */
  function FillLevel(taker: Order, price: u64, orders: seq<Order>, left: u64): LevelFill {
    if orders == [] || left == 0 then LevelFill(orders, [], left)
    else if orders[0].trader == taker.trader then
      var r := FillLevel(taker, price, orders[1..], left);
      r.(kept := [orders[0]] + r.kept)
    else
      var a := Min(left, orders[0].amount);
      var r := FillLevel(taker, price, orders[1..], left - a);
      LevelFill(
        (if a == orders[0].amount then [] else [orders[0].(amount := orders[0].amount - a)]) + r.kept,
        [Fill(orders[0], price, a)] + r.fills,
        r.left)
  }

  /** Filling the taker against levels in priority order, dropping the levels that end up empty. */
  function Sweep(taker: Order, levels: seq<Level>, left: u64): SideFill {
    if levels == [] || left == 0 || !Crosses(taker, levels[0].price) then SideFill(levels, [], left)
    else
      var f := FillLevel(taker, levels[0].price, levels[0].orders, left);
      var r := Sweep(taker, levels[1..], f.left);
      SideFill(
        (if f.kept == [] then [] else [Level(levels[0].price, f.kept)]) + r.levels,
        f.fills + r.fills,
        r.left)
  }

  function Reverse(levels: seq<Level>): (r: seq<Level>)
    ensures |r| == |levels|
  {
    seq(|levels|, i requires 0 <= i < |levels| => levels[|levels| - 1 - i])
  }

  /** The levels a taker on side `side` trades against, best price first. */
  function Opposite(b: Book, side: Side): seq<Level> {
    match side
    case Buy => b.asks
    case Sell => Reverse(b.bids)
  }

  /** Appends an order to its price level, creating the level at its place when it is missing. */
  function Place(levels: seq<Level>, o: Order): seq<Level> {
    if levels == [] || o.price < levels[0].price then [Level(o.price, [o])] + levels
    else if o.price == levels[0].price then [Level(o.price, levels[0].orders + [o])] + levels[1..]
    else [levels[0]] + Place(levels[1..], o)
  }

  /** The node assigned to the `i`-th match after the cursor: round robin, or the zero key when no
      node is configured. */
  function NodeAt(nodes: seq<Id>, cursor: nat, i: nat): Id {
    if nodes == [] then 0 else nodes[(cursor + i) % |nodes|]
  }

  function CursorAfter(nodes: seq<Id>, cursor: nat, n: nat): nat {
    if nodes == [] || n == 0 then cursor else (cursor + n) % |nodes|
  }

  /** Who sells, which tier applies and who pays for it is decided by the sell order. */
  function MatchOf(b: Book, taker: Order, f: Fill, timestampUs: u64, node: Id): Match {
    var sell := if taker.side == Sell then taker else f.maker;
    var buy := if taker.side == Buy then taker else f.maker;
    var payer := if sell.requester == Buyer then buy else sell;
    Match(
      f.maker.id, taker.id, f.maker.trader, taker.trader, f.price, f.amount, timestampUs,
      payer.preference, FeeBps(b.fees, payer.preference), sell.trader, payer.trader,
      timestampUs / 1_000_000 + DeadlineSeconds(payer.preference), b.symbol, node)
  }

  function MatchesOf(b: Book, taker: Order, fills: seq<Fill>, timestampUs: u64): (ms: seq<Match>)
    ensures |ms| == |fills|
  {
    seq(|fills|, i requires 0 <= i < |fills| =>
      MatchOf(b, taker, fills[i], timestampUs, NodeAt(b.activeNodes, b.cursor, i)))
  }

  /** The book once the sweep of `o` is done: the swept side replaced, the remainder resting. */
  function Settle(b: Book, o: Order, s: SideFill): Book {
    var swept := match o.side
      case Buy => b.(asks := s.levels)
      case Sell => b.(bids := Reverse(s.levels));
    var rested := if s.left == 0 then swept
      else match o.side
        case Buy => swept.(bids := Place(swept.bids, o.(amount := s.left)))
        case Sell => swept.(asks := Place(swept.asks, o.(amount := s.left)));
    rested.(cursor := CursorAfter(b.activeNodes, b.cursor, |s.fills|))
  }

  function Add(b: Book, o: Order, timestampUs: u64): AddResult {
    if !Admissible(o) then AddResult(b, [])
    else
      var s := Sweep(o, Opposite(b, o.side), o.amount);
      AddResult(Settle(b, o, s), MatchesOf(b, o, s.fills, timestampUs))
  }

  function PositionOf(orders: seq<Order>, id: Id): (i: nat)
    ensures i <= |orders|
    ensures i < |orders| ==> orders[i].id == id
  {
    if orders == [] || orders[0].id == id then 0 else 1 + PositionOf(orders[1..], id)
  }

  function RemoveAt<T>(s: seq<T>, i: nat): seq<T>
    requires i < |s|
  {
    s[..i] + s[i + 1..]
  }

  /** Removes the first order with this id, scanning levels in order; the level stays, even empty. */
  function CancelIn(levels: seq<Level>, id: Id): seq<Level> {
    if levels == [] then []
    else
      var i := PositionOf(levels[0].orders, id);
      if i < |levels[0].orders| then
        [Level(levels[0].price, RemoveAt(levels[0].orders, i))] + levels[1..]
      else [levels[0]] + CancelIn(levels[1..], id)
  }

  predicate Holds(levels: seq<Level>, id: Id) {
    levels != [] && (PositionOf(levels[0].orders, id) < |levels[0].orders| || Holds(levels[1..], id))
  }

  function Cancel(b: Book, id: Id): (Book, bool) {
    if Holds(b.bids, id) then (b.(bids := CancelIn(b.bids, id)), true)
    else if Holds(b.asks, id) then (b.(asks := CancelIn(b.asks, id)), true)
    else (b, false)
  }

  // ---- The sweep refines the flat greedy fill ----

  /** The orders of some levels, one queue, in the order of the levels. */
  function Flat(levels: seq<Level>): seq<Order> {
    if levels == [] then [] else levels[0].orders + Flat(levels[1..])
  }

  predicate Resting(o: Order, price: u64, side: Side) {
    && o.side == side
    && o.price == price
    && o.amount > 0
    && o.amount * o.price < TWO_64
  }

  ghost predicate AllResting(orders: seq<Order>, price: u64, side: Side) {
    forall k :: 0 <= k < |orders| ==> Resting(orders[k], price, side)
  }

  /** Every order sits on its own side, at its own price, with a positive bounded amount. */
  ghost predicate Placed(levels: seq<Level>, side: Side) {
    forall i :: 0 <= i < |levels| ==> AllResting(levels[i].orders, levels[i].price, side)
  }

  /** Strictly ordered prices: ascending, or descending when `desc`. */
  ghost predicate Sorted(levels: seq<Level>, desc: bool) {
    forall i, j :: 0 <= i < j < |levels|
                   ==> if desc then levels[i].price > levels[j].price else levels[i].price < levels[j].price
  }

  function MakerSide(taker: Order): Side {
    if taker.side == Buy then Sell else Buy
  }

  lemma FillLevelSkip(taker: Order, price: u64, x: Order, rest: seq<Order>, left: u64)
    requires left != 0 && x.trader == taker.trader
    ensures var r := FillLevel(taker, price, rest, left);
            FillLevel(taker, price, [x] + rest, left) == r.(kept := [x] + r.kept)
  {
    assert ([x] + rest)[1..] == rest;
  }

  lemma FillLevelTake(taker: Order, price: u64, x: Order, rest: seq<Order>, left: u64, a: u64)
    requires left != 0 && x.trader != taker.trader && a == Min(left, x.amount)
    ensures var r := FillLevel(taker, price, rest, left - a);
            FillLevel(taker, price, [x] + rest, left)
            == LevelFill((if a == x.amount then [] else [x.(amount := x.amount - a)]) + r.kept,
                         [Fill(x, price, a)] + r.fills, r.left)
  {
    assert ([x] + rest)[1..] == rest;
  }

  lemma LevelIdle(taker: Order, price: u64, orders: seq<Order>)
    requires AllResting(orders, price, MakerSide(taker))
    ensures var al := Greedy(taker, orders, 0);
            Survivors(orders, al) == orders && FillsOf(orders, al) == [] && Sum(al) == 0
  {
    GreedyIdle(taker, orders, 0);
    SurvivorsIdle(orders, Greedy(taker, orders, 0));
    SumOfZeros(Greedy(taker, orders, 0));
  }

  lemma {:induction false} LevelRefinesGreedy(taker: Order, price: u64, orders: seq<Order>, left: u64)
    requires Crosses(taker, price)
    requires AllResting(orders, price, MakerSide(taker))
    ensures var f := FillLevel(taker, price, orders, left);
            var al := Greedy(taker, orders, left);
            && f.kept == Survivors(orders, al)
            && f.fills == FillsOf(orders, al)
            && f.left + Sum(al) == left
  {
    if orders == [] {
    } else if left == 0 {
      LevelIdle(taker, price, orders);
    } else {
      var x, rest := orders[0], orders[1..];
      assert Resting(x, price, MakerSide(taker));
      assert AllResting(rest, price, MakerSide(taker));
      assert orders == [x] + rest;
      hide Greedy, Survivors, FillsOf, Sum, FillLevel, AllResting;
      var a := Share(taker, x, left);
      LevelRefinesGreedy(taker, price, rest, left - a);
      var al := Greedy(taker, rest, left - a);
      GreedyHead(taker, x, rest, left);
      SurvivorsHead(x, rest, a, al);
      SumHead(a, al);
      if x.trader == taker.trader {
        FillLevelSkip(taker, price, x, rest, left);
        assert [] + FillsOf(rest, al) == FillsOf(rest, al);
      } else {
        FillLevelTake(taker, price, x, rest, left, a);
      }
    }
  }

  lemma FlatResting(levels: seq<Level>, side: Side, k: nat)
    requires Placed(levels, side)
    requires k < |Flat(levels)|
    ensures exists i :: 0 <= i < |levels| && Resting(Flat(levels)[k], levels[i].price, side)
  {
    if k < |levels[0].orders| {
      assert AllResting(levels[0].orders, levels[0].price, side);
    } else {
      var j := k - |levels[0].orders|;
      FlatResting(levels[1..], side, j);
      var i :| 0 <= i < |levels[1..]| && Resting(Flat(levels[1..])[j], levels[1..][i].price, side);
      assert levels[i + 1] == levels[1..][i];
    }
  }

  /** The whole sweep equals the flat greedy fill over the makers in price-time order. */
  lemma {:induction false} SweepRefinesGreedy(taker: Order, levels: seq<Level>, left: u64)
    requires Placed(levels, MakerSide(taker))
    requires Sorted(levels, taker.side == Sell)
    ensures var s := Sweep(taker, levels, left);
            var al := Greedy(taker, Flat(levels), left);
            && Flat(s.levels) == Survivors(Flat(levels), al)
            && s.fills == FillsOf(Flat(levels), al)
            && s.left + Sum(al) == left
  {
    var makers := Flat(levels);
    var al := Greedy(taker, makers, left);
    if levels == [] {
    } else if left == 0 || !Crosses(taker, levels[0].price) {
      forall k | 0 <= k < |makers|
        ensures makers[k].amount > 0
        ensures left == 0 || !Eligible(taker, makers[k])
      {
        FlatResting(levels, MakerSide(taker), k);
      }
      GreedyIdle(taker, makers, left);
      SurvivorsIdle(makers, al);
      SumOfZeros(al);
    } else {
      var head, tail := levels[0], levels[1..];
      LevelRefinesGreedy(taker, head.price, head.orders, left);
      var f := FillLevel(taker, head.price, head.orders, left);
      SweepRefinesGreedy(taker, tail, f.left);
      GreedyConcat(taker, head.orders, Flat(tail), left, f.left);
      var bl, cl := Greedy(taker, head.orders, left), Greedy(taker, Flat(tail), f.left);
      SumConcat(bl, cl);
      SurvivorsConcat(head.orders, Flat(tail), bl, cl);
      FlatCons(head.price, f.kept, Sweep(taker, tail, f.left).levels);
    }
  }

  lemma FlatCons(price: u64, orders: seq<Order>, levels: seq<Level>)
    ensures Flat((if orders == [] then [] else [Level(price, orders)]) + levels) == orders + Flat(levels)
  {
    if orders == [] {
      assert [] + levels == levels;
    } else {
      assert ([Level(price, orders)] + levels)[1..] == levels;
    }
  }
}
