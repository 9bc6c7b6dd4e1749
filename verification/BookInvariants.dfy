/** What every run of adds and cancels keeps true of the book and of the matches it emits. */
module BookInvariants {
  import opened Types
  import opened PriceTime
  import opened Engine

  /** A book crossed only by one trader against themselves. */
  ghost predicate SelfCrossedOnly(b: Book) {
    forall x, y :: x in Flat(b.bids) && y in Flat(b.asks) && x.price >= y.price ==> x.trader == y.trader
  }

  ghost predicate BookOk(b: Book) {
    && Sorted(b.bids, false) && Sorted(b.asks, false)
    && Placed(b.bids, Buy) && Placed(b.asks, Sell)
    && SelfCrossedOnly(b)
  }

  // ---- Shape of levels: sorted and placed ----

  lemma SmallerNotional(price: nat, a: nat, b: nat)
    requires a <= b
    ensures a * price <= b * price
  {}

  lemma {:induction false} LevelKeepsPlaced(taker: Order, price: u64, orders: seq<Order>, left: u64, side: Side)
    requires AllResting(orders, price, side)
    ensures AllResting(FillLevel(taker, price, orders, left).kept, price, side)
  {
    if orders != [] && left != 0 {
      var x, rest := orders[0], orders[1..];
      assert orders == [x] + rest && Resting(x, price, side) && AllResting(rest, price, side);
      hide FillLevel;
      if x.trader == taker.trader {
        LevelKeepsPlaced(taker, price, rest, left, side);
        FillLevelSkip(taker, price, x, rest, left);
      } else {
        var a := Min(left, x.amount);
        LevelKeepsPlaced(taker, price, rest, left - a, side);
        FillLevelTake(taker, price, x, rest, left, a);
        SmallerNotional(x.price, x.amount - a, x.amount);
      }
    }
  }

  ghost predicate Before(p: u64, q: u64, desc: bool) {
    if desc then p > q else p < q
  }

  lemma ShapeCons(head: Level, tail: seq<Level>, desc: bool, side: Side)
    requires Sorted(tail, desc) && Placed(tail, side)
    requires AllResting(head.orders, head.price, side)
    requires AllAfter(head.price, tail, desc)
    ensures Sorted([head] + tail, desc) && Placed([head] + tail, side)
  {
    var all := [head] + tail;
    forall i, j | 0 <= i < j < |all|
      ensures Before(all[i].price, all[j].price, desc)
    {
      assert all[j] == tail[j - 1];
      if i > 0 { assert all[i] == tail[i - 1]; }
    }
  }

  ghost predicate AllAfter(p: u64, levels: seq<Level>, desc: bool) {
    forall i :: 0 <= i < |levels| ==> Before(p, levels[i].price, desc)
  }

  lemma {:induction false} SweepKeepsAfter(taker: Order, levels: seq<Level>, left: u64, p: u64, desc: bool)
    requires AllAfter(p, levels, desc)
    ensures AllAfter(p, Sweep(taker, levels, left).levels, desc)
  {
    if levels == [] || left == 0 || !Crosses(taker, levels[0].price) {
    } else {
      var f := FillLevel(taker, levels[0].price, levels[0].orders, left);
      SweepKeepsAfter(taker, levels[1..], f.left, p, desc);
    }
  }

  lemma {:induction false} SweepKeepsShape(taker: Order, levels: seq<Level>, left: u64, desc: bool, side: Side)
    requires Sorted(levels, desc) && Placed(levels, side)
    ensures var s := Sweep(taker, levels, left).levels;
            Sorted(s, desc) && Placed(s, side)
  {
    if levels == [] || left == 0 || !Crosses(taker, levels[0].price) {
    } else {
      var head, tail := levels[0], levels[1..];
      var f := FillLevel(taker, head.price, head.orders, left);
      LevelKeepsPlaced(taker, head.price, head.orders, left, side);
      SweepKeepsShape(taker, tail, f.left, desc, side);
      SweepKeepsAfter(taker, tail, f.left, head.price, desc);
      ShapeCons(Level(head.price, f.kept), Sweep(taker, tail, f.left).levels, desc, side);
    }
  }

  lemma ReverseShape(levels: seq<Level>, desc: bool, side: Side)
    requires Sorted(levels, desc) && Placed(levels, side)
    ensures Sorted(Reverse(levels), !desc) && Placed(Reverse(levels), side)
  {
  }

  lemma {:induction false} PlaceKeepsShape(levels: seq<Level>, o: Order, side: Side)
    requires Sorted(levels, false) && Placed(levels, side)
    requires Resting(o, o.price, side)
    ensures var p := Place(levels, o);
            && Sorted(p, false) && Placed(p, side) && p != []
            && p[0].price == (if levels == [] || o.price < levels[0].price then o.price else levels[0].price)
  {
    if levels == [] || o.price < levels[0].price {
    } else if o.price == levels[0].price {
      var p := Place(levels, o);
      assert forall i :: 0 < i < |p| ==> p[i] == levels[i];
      assert AllResting(levels[0].orders, levels[0].price, side);
    } else {
      var tail := levels[1..];
      PlaceKeepsShape(tail, o, side);
      ShapeCons(levels[0], Place(tail, o), false, side);
    }
  }

  lemma {:induction false} CancelKeepsShape(levels: seq<Level>, id: Id, side: Side, p: u64)
    requires Sorted(levels, false) && Placed(levels, side)
    ensures Sorted(CancelIn(levels, id), false) && Placed(CancelIn(levels, id), side)
    ensures AllAfter(p, levels, false) ==> AllAfter(p, CancelIn(levels, id), false)
  {
    if levels != [] {
      var head, tail := levels[0], levels[1..];
      var i := PositionOf(head.orders, id);
      assert AllAfter(head.price, tail, false);
      if i < |head.orders| {
        ShapeCons(Level(head.price, RemoveAt(head.orders, i)), tail, false, side);
      } else {
        CancelKeepsShape(tail, id, side, head.price);
        ShapeCons(head, CancelIn(tail, id), false, side);
        if AllAfter(p, levels, false) {
          assert Before(p, levels[0].price, false);
          assert AllAfter(p, tail, false);
          CancelKeepsShape(tail, id, side, p);
        }
      }
    }
  }

  // ---- Contents of levels, in order and as a bag of ids ----

  lemma FlatHead(head: Level, rest: seq<Level>)
    ensures Flat([head] + rest) == head.orders + Flat(rest)
  {
    assert ([head] + rest)[1..] == rest;
  }

  lemma {:induction false} FlatConcat(a: seq<Level>, b: seq<Level>)
    ensures Flat(a + b) == Flat(a) + Flat(b)
  {
    if a == [] {
      assert a + b == b;
    } else {
      hide Flat;
      var head, tail := a[0], a[1..];
      assert a == [head] + tail;
      ConcatAssociates([head], tail, b);
      FlatHead(head, tail);
      FlatHead(head, tail + b);
      FlatConcat(tail, b);
      ConcatAssociates(head.orders, Flat(tail), Flat(b));
    }
  }

  function Ids(orders: seq<Order>): multiset<Id> {
    if orders == [] then multiset{} else multiset{orders[0].id} + Ids(orders[1..])
  }

  lemma IdsHead(x: Order, rest: seq<Order>)
    ensures Ids([x] + rest) == multiset{x.id} + Ids(rest)
  {
    assert ([x] + rest)[1..] == rest;
  }

  lemma {:induction false} IdsConcat(a: seq<Order>, b: seq<Order>)
    ensures Ids(a + b) == Ids(a) + Ids(b)
  {
    if a == [] {
      assert a + b == b;
    } else {
      hide Ids;
      var x, tail := a[0], a[1..];
      assert a == [x] + tail;
      ConcatAssociates([x], tail, b);
      IdsHead(x, tail);
      IdsHead(x, tail + b);
      IdsConcat(tail, b);
    }
  }

  lemma {:induction false} ReverseContents(levels: seq<Level>)
    ensures multiset(Flat(Reverse(levels))) == multiset(Flat(levels))
    ensures Ids(Flat(Reverse(levels))) == Ids(Flat(levels))
  {
    if levels == [] {
      assert Reverse(levels) == [];
    } else {
      var head, tail := levels[0], levels[1..];
      assert Reverse(levels) == Reverse(tail) + [head];
      assert Flat([head]) == head.orders;
      hide Ids, Flat, Reverse;
      FlatConcat(Reverse(tail), [head]);
      assert levels == [head] + tail;
      FlatHead(head, tail);
      ReverseContents(tail);
      IdsConcat(Flat(Reverse(tail)), head.orders);
      IdsConcat(head.orders, Flat(tail));
    }
  }

  lemma ReverseMembers(levels: seq<Level>, x: Order)
    ensures x in Flat(Reverse(levels)) <==> x in Flat(levels)
  {
    ReverseContents(levels);
    SameBagMember(Flat(Reverse(levels)), Flat(levels), x);
  }

  lemma PlaceAppend(head: Level, tail: seq<Level>, o: Order)
    ensures var placed := [Level(o.price, head.orders + [o])] + tail;
            && multiset(Flat(placed)) == multiset(Flat([head] + tail)) + multiset{o}
            && Ids(Flat(placed)) == Ids(Flat([head] + tail)) + multiset{o.id}
  {
    hide Flat, Ids;
    FlatHead(head, tail);
    FlatHead(Level(o.price, head.orders + [o]), tail);
    AppendIds(head.orders, o, Flat(tail));
  }

  lemma AppendIds(a: seq<Order>, o: Order, b: seq<Order>)
    ensures Ids((a + [o]) + b) == Ids(a + b) + multiset{o.id}
  {
    assert Ids([o]) == multiset{o.id};
    hide Ids;
    IdsConcat(a + [o], b);
    IdsConcat(a, [o]);
    IdsConcat(a, b);
  }

  lemma PlaceSkip(head: Level, tail: seq<Level>, placed: seq<Level>, o: Order)
    requires multiset(Flat(placed)) == multiset(Flat(tail)) + multiset{o}
    requires Ids(Flat(placed)) == Ids(Flat(tail)) + multiset{o.id}
    ensures multiset(Flat([head] + placed)) == multiset(Flat([head] + tail)) + multiset{o}
    ensures Ids(Flat([head] + placed)) == Ids(Flat([head] + tail)) + multiset{o.id}
  {
    hide Flat, Ids;
    FlatHead(head, tail);
    FlatHead(head, placed);
    IdsConcat(head.orders, Flat(tail));
    IdsConcat(head.orders, Flat(placed));
  }

  lemma {:induction false} PlaceContents(levels: seq<Level>, o: Order)
    ensures multiset(Flat(Place(levels, o))) == multiset(Flat(levels)) + multiset{o}
    ensures Ids(Flat(Place(levels, o))) == Ids(Flat(levels)) + multiset{o.id}
  {
    hide Flat, Ids;
    if levels == [] || o.price < levels[0].price {
      FlatHead(Level(o.price, [o]), levels);
      IdsHead(o, Flat(levels));
    } else {
      var head, tail := levels[0], levels[1..];
      assert levels == [head] + tail;
      PlaceAppend(head, tail, o);
      PlaceContents(tail, o);
      PlaceSkip(head, tail, Place(tail, o), o);
    }
  }

  lemma {:induction false} SurvivorIds(makers: seq<Order>, al: seq<nat>)
    requires |al| == |makers|
    ensures Ids(Survivors(makers, al)) <= Ids(makers)
  {
    if makers != [] {
      SurvivorIds(makers[1..], al[1..]);
      var rest := Survivors(makers[1..], al[1..]);
      if al[0] < makers[0].amount {
        var s := makers[0].(amount := makers[0].amount - al[0]);
        assert ([s] + rest)[1..] == rest;
      } else {
        assert [] + rest == rest;
      }
    }
  }

  lemma RemoveAtIds(s: seq<Order>, i: nat)
    requires i < |s|
    ensures Ids(s) == Ids(RemoveAt(s, i)) + multiset{s[i].id}
  {
    hide Ids;
    var x, before, after := s[i], s[..i], s[i + 1..];
    assert s == before + ([x] + after);
    IdsConcat(before, [x] + after);
    IdsHead(x, after);
    IdsConcat(before, after);
  }

  /** Cancelling removes exactly one resting order with that id, when there is one. */
  lemma {:induction false} CancelContents(levels: seq<Level>, id: Id)
    ensures Holds(levels, id) <==> id in Ids(Flat(levels))
    ensures Holds(levels, id) ==> Ids(Flat(levels)) == Ids(Flat(CancelIn(levels, id))) + multiset{id}
  {
    if levels != [] {
      var head, tail := levels[0], levels[1..];
      assert levels == [head] + tail;
      var i := PositionOf(head.orders, id);
      hide Ids, Flat;
      PositionFinds(head.orders, id);
      FlatHead(head, tail);
      IdsConcat(head.orders, Flat(tail));
      CancelContents(tail, id);
      if i < |head.orders| {
        var kept := RemoveAt(head.orders, i);
        RemoveAtIds(head.orders, i);
        FlatHead(Level(head.price, kept), tail);
        IdsConcat(kept, Flat(tail));
      } else {
        FlatHead(head, CancelIn(tail, id));
        IdsConcat(head.orders, Flat(CancelIn(tail, id)));
      }
    }
  }

  lemma {:induction false} CancelKeepsMembers(levels: seq<Level>, id: Id, x: Order)
    requires x in Flat(CancelIn(levels, id))
    ensures x in Flat(levels)
  {
    var head, tail := levels[0], levels[1..];
    var i := PositionOf(head.orders, id);
    if i < |head.orders| {
      assert ([Level(head.price, RemoveAt(head.orders, i))] + tail)[1..] == tail;
    } else {
      assert ([head] + CancelIn(tail, id))[1..] == CancelIn(tail, id);
      if x !in head.orders { CancelKeepsMembers(tail, id, x); }
    }
  }

  lemma {:induction false} PositionFinds(orders: seq<Order>, id: Id)
    ensures PositionOf(orders, id) < |orders| <==> id in Ids(orders)
  {
    if orders != [] { PositionFinds(orders[1..], id); }
  }

  // ---- One step ----

  /** If the taker still wants more, every eligible maker was exhausted. */
  lemma GreedyExhausts(taker: Order, makers: seq<Order>, left: nat, i: nat)
    requires i < |makers| && Eligible(taker, makers[i])
    requires Sum(Greedy(taker, makers, left)) < left
    ensures Greedy(taker, makers, left)[i] == makers[i].amount
  {
    var al := Greedy(taker, makers, left);
    if i > 0 {
      assert al[1..] == Greedy(taker, makers[1..], left - al[0]);
      GreedyExhausts(taker, makers[1..], left - al[0], i - 1);
    }
  }

  /** The queue of makers of `o`, best price first and oldest first, its greedy allocation, and the
      sweep computed by the engine, tied together for a well-formed book. */
  lemma SweepOnBook(b: Book, o: Order)
    requires BookOk(b)
    ensures var makers := Flat(Opposite(b, o.side));
            var s := Sweep(o, Opposite(b, o.side), o.amount);
            var al := Greedy(o, makers, o.amount);
            && Flat(s.levels) == Survivors(makers, al)
            && s.fills == FillsOf(makers, al)
            && s.left + Sum(al) == o.amount
            && Sorted(s.levels, o.side == Sell) && Placed(s.levels, MakerSide(o))
  {
    if o.side == Sell { ReverseShape(b.bids, false, Buy); }
    SweepRefinesGreedy(o, Opposite(b, o.side), o.amount);
    SweepKeepsShape(o, Opposite(b, o.side), o.amount, o.side == Sell, MakerSide(o));
  }

  lemma OppositeMembers(b: Book, side: Side, x: Order)
    ensures x in Flat(Opposite(b, side)) <==> x in Flat(if side == Buy then b.asks else b.bids)
  {
    ReverseMembers(b.bids, x);
  }

  /** A maker left on the book after the sweep was there before, with the same price and trader, and
      is not eligible for a taker that still wants more. */
  lemma SurvivorAfterSweep(b: Book, o: Order, y: Order)
    requires BookOk(b)
    requires y in Flat(Sweep(o, Opposite(b, o.side), o.amount).levels)
    ensures exists x :: x in Flat(if o.side == Buy then b.asks else b.bids)
                        && x.price == y.price && x.trader == y.trader
    ensures Sweep(o, Opposite(b, o.side), o.amount).left > 0 ==> !Eligible(o, y)
  {
    SweepOnBook(b, o);
    var makers := Flat(Opposite(b, o.side));
    var al := Greedy(o, makers, o.amount);
    var i := SurvivorOrigin(makers, al, y);
    OppositeMembers(b, o.side, makers[i]);
    if Sweep(o, Opposite(b, o.side), o.amount).left > 0 && Eligible(o, y) {
      GreedyExhausts(o, makers, o.amount, i);
    }
  }

  lemma PlacedMembers(levels: seq<Level>, o: Order, x: Order)
    ensures x in Flat(Place(levels, o)) <==> x in Flat(levels) || x == o
  {
    PlaceContents(levels, o);
    assert x in Flat(Place(levels, o)) <==> x in multiset(Flat(Place(levels, o)));
    assert x in Flat(levels) <==> x in multiset(Flat(levels));
  }

  lemma AddBuyKeepsOk(b: Book, o: Order)
    requires BookOk(b) && Admissible(o) && o.side == Buy
    ensures BookOk(Settle(b, o, Sweep(o, b.asks, o.amount)))
  {
    var s := Sweep(o, b.asks, o.amount);
    var b' := Settle(b, o, s);
    SweepOnBook(b, o);
    var rest := o.(amount := s.left);
    if s.left > 0 {
      SmallerNotional(o.price, s.left, o.amount);
      PlaceKeepsShape(b.bids, rest, Buy);
    }
    forall x, y | x in Flat(b'.bids) && y in Flat(b'.asks) && x.price >= y.price
      ensures x.trader == y.trader
    {
      SurvivorAfterSweep(b, o, y);
      if s.left > 0 { PlacedMembers(b.bids, rest, x); }
    }
  }

  lemma AddSellKeepsOk(b: Book, o: Order)
    requires BookOk(b) && Admissible(o) && o.side == Sell
    ensures BookOk(Settle(b, o, Sweep(o, Reverse(b.bids), o.amount)))
  {
    var s := Sweep(o, Reverse(b.bids), o.amount);
    var bids := Reverse(s.levels);
    SweepOnBook(b, o);
    ReverseShape(s.levels, true, Buy);
    var rest := o.(amount := s.left);
    var asks := if s.left == 0 then b.asks else Place(b.asks, rest);
    if s.left > 0 {
      SmallerNotional(o.price, s.left, o.amount);
      PlaceKeepsShape(b.asks, rest, Sell);
    }
    forall x, y | x in Flat(bids) && y in Flat(asks) && x.price >= y.price
      ensures x.trader == y.trader
    {
      ReverseMembers(s.levels, x);
      SurvivorAfterSweep(b, o, x);
      if s.left > 0 { PlacedMembers(b.asks, rest, y); }
    }
  }

  lemma AddKeepsOk(b: Book, o: Order, timestampUs: u64)
    requires BookOk(b)
    ensures BookOk(Add(b, o, timestampUs).book)
  {
    if Admissible(o) {
      match o.side
      case Buy => AddBuyKeepsOk(b, o);
      case Sell => AddSellKeepsOk(b, o);
    }
  }

  lemma CancelKeepsOk(b: Book, id: Id)
    requires BookOk(b)
    ensures BookOk(Cancel(b, id).0)
  {
    var b' := Cancel(b, id).0;
    CancelKeepsShape(b.bids, id, Buy, 0);
    CancelKeepsShape(b.asks, id, Sell, 0);
    forall x, y | x in Flat(b'.bids) && y in Flat(b'.asks) && x.price >= y.price
      ensures x.trader == y.trader
    {
      if b'.bids != b.bids { CancelKeepsMembers(b.bids, id, x); }
      if b'.asks != b.asks { CancelKeepsMembers(b.asks, id, y); }
    }
  }
}
