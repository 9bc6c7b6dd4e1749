/** What price-time priority means, said without price levels: a queue of makers in priority order
    and, for each maker, how much of it the taker consumes. */
module PriceTime {
  import opened Types

  predicate Crosses(taker: Order, price: u64) {
    match taker.side
    case Buy => price <= taker.price
    case Sell => price >= taker.price
  }

  predicate Eligible(taker: Order, maker: Order) {
    Crosses(taker, maker.price) && maker.trader != taker.trader
  }

  function Sum(a: seq<nat>): nat {
    if a == [] then 0 else a[0] + Sum(a[1..])
  }

  /** Everything the taker could consume: the amounts of all eligible makers. */
  function Liquidity(taker: Order, makers: seq<Order>): nat {
    if makers == [] then 0
    else (if Eligible(taker, makers[0]) then makers[0].amount else 0) + Liquidity(taker, makers[1..])
  }

  /** What one maker gives to a taker that still wants `left`. */
  function Share(taker: Order, maker: Order, left: nat): nat {
    if Eligible(taker, maker) then Min(left, maker.amount) else 0
  }

  /** The flat greedy fill: walk the makers once, taking as much as possible of each eligible one. */
  function Greedy(taker: Order, makers: seq<Order>, left: nat): (al: seq<nat>)
    ensures |al| == |makers|
  {
    if makers == [] then []
    else
      var a := Share(taker, makers[0], left);
      [a] + Greedy(taker, makers[1..], left - a)
  }

  /** The declarative specification: nobody gives more than they have, only eligible makers give,
      a maker gives only when every eligible maker ahead of it is exhausted, and the total is
      everything wanted or everything available. */
  ghost predicate PriceTimeAllocation(taker: Order, makers: seq<Order>, amount: nat, al: seq<nat>) {
    && |al| == |makers|
    && (forall i :: 0 <= i < |al| ==> al[i] <= makers[i].amount)
    && (forall i :: 0 <= i < |al| && al[i] > 0 ==> Eligible(taker, makers[i]))
    && (forall i, j :: 0 <= i < j < |al| && Eligible(taker, makers[i]) && al[j] > 0
                       ==> al[i] == makers[i].amount)
    && Sum(al) == Min(amount, Liquidity(taker, makers))
  }

  lemma {:induction false} SumOfZeros(a: seq<nat>)
    requires forall i :: 0 <= i < |a| ==> a[i] == 0
    ensures Sum(a) == 0
  {
    if a != [] { SumOfZeros(a[1..]); }
  }

  lemma SumHead(x: nat, a: seq<nat>)
    ensures Sum([x] + a) == x + Sum(a)
  {
    assert ([x] + a)[1..] == a;
  }

  lemma {:induction false} SumConcat(a: seq<nat>, b: seq<nat>)
    ensures Sum(a + b) == Sum(a) + Sum(b)
  {
    if a == [] {
      assert a + b == b;
    } else {
      assert a == [a[0]] + a[1..] && a + b == [a[0]] + (a[1..] + b);
      hide Sum;
      SumHead(a[0], a[1..]);
      SumHead(a[0], a[1..] + b);
      SumConcat(a[1..], b);
    }
  }

  lemma {:induction false} GreedyIdle(taker: Order, makers: seq<Order>, left: nat)
    requires left == 0 || forall i :: 0 <= i < |makers| ==> !Eligible(taker, makers[i])
    ensures forall i :: 0 <= i < |makers| ==> Greedy(taker, makers, left)[i] == 0
  {
    if makers != [] { GreedyIdle(taker, makers[1..], left); }
  }

  lemma {:induction false} GreedyTotal(taker: Order, makers: seq<Order>, left: nat)
    ensures Sum(Greedy(taker, makers, left)) == Min(left, Liquidity(taker, makers))
  {
    if makers != [] {
      var al := Greedy(taker, makers, left);
      assert al[1..] == Greedy(taker, makers[1..], left - al[0]);
      GreedyTotal(taker, makers[1..], left - al[0]);
    }
  }

  /** The greedy fill meets the declarative specification ... */
  lemma {:induction false} GreedyIsPriceTime(taker: Order, makers: seq<Order>, left: nat)
    ensures PriceTimeAllocation(taker, makers, left, Greedy(taker, makers, left))
  {
    GreedyTotal(taker, makers, left);
    if makers != [] {
      var al := Greedy(taker, makers, left);
      var rest := left - al[0];
      GreedyIsPriceTime(taker, makers[1..], rest);
      assert al[1..] == Greedy(taker, makers[1..], rest);
      if rest == 0 { GreedyIdle(taker, makers[1..], rest); }
      forall i, j | 0 <= i < j < |al| && Eligible(taker, makers[i]) && al[j] > 0
        ensures al[i] == makers[i].amount
      {
        assert al[j] == al[1..][j - 1];
        if i > 0 { assert al[i] == al[1..][i - 1]; }
      }
    }
  }

  /** The head of an allocation meeting the specification is forced, and so is what it leaves. */
  lemma PriceTimeHead(taker: Order, makers: seq<Order>, amount: nat, al: seq<nat>)
    requires PriceTimeAllocation(taker, makers, amount, al) && makers != []
    ensures al[0] == Share(taker, makers[0], amount)
    ensures PriceTimeAllocation(taker, makers[1..], amount - al[0], al[1..])
  {
    if Eligible(taker, makers[0]) && al[0] < makers[0].amount {
      SumOfZeros(al[1..]);
    }
  }

  /** ... and is the only allocation that does. */
  lemma {:induction false} PriceTimeIsUnique(taker: Order, makers: seq<Order>, amount: nat, al: seq<nat>)
    requires PriceTimeAllocation(taker, makers, amount, al)
    ensures al == Greedy(taker, makers, amount)
  {
    if makers != [] {
      PriceTimeHead(taker, makers, amount, al);
      hide PriceTimeAllocation;
      assert al == [al[0]] + al[1..];
      PriceTimeIsUnique(taker, makers[1..], amount - al[0], al[1..]);
    }
  }

  lemma GreedyHead(taker: Order, x: Order, rest: seq<Order>, left: nat)
    ensures Greedy(taker, [x] + rest, left)
            == [Share(taker, x, left)] + Greedy(taker, rest, left - Share(taker, x, left))
  {
    assert ([x] + rest)[1..] == rest;
  }

  lemma {:induction false} GreedyConcat(taker: Order, a: seq<Order>, b: seq<Order>, left: nat, rest: nat)
    requires Sum(Greedy(taker, a, left)) + rest == left
    ensures Greedy(taker, a + b, left) == Greedy(taker, a, left) + Greedy(taker, b, rest)
  {
    if a == [] {
      assert a + b == b;
    } else {
      hide Greedy, Sum;
      var x, tail := a[0], a[1..];
      var first := Share(taker, x, left);
      assert a == [x] + tail;
      ConcatAssociates([x], tail, b);
      GreedyHead(taker, x, tail, left);
      GreedyHead(taker, x, tail + b, left);
      var al, bl := Greedy(taker, tail, left - first), Greedy(taker, b, rest);
      SumHead(first, al);
      GreedyConcat(taker, tail, b, left - first, rest);
      ConcatAssociates([first], al, bl);
    }
  }

  datatype Fill = Fill(maker: Order, price: u64, amount: u64)

  /** The makers still resting, in the same order, each reduced by what it gave. */
  function Survivors(makers: seq<Order>, al: seq<nat>): seq<Order>
    requires |al| == |makers|
  {
    if makers == [] then []
    else
      (if al[0] >= makers[0].amount then [] else [makers[0].(amount := makers[0].amount - al[0])])
      + Survivors(makers[1..], al[1..])
  }

  /** The fills, best maker first, each at the maker's own price. */
  function FillsOf(makers: seq<Order>, al: seq<nat>): seq<Fill>
    requires |al| == |makers|
  {
    if makers == [] then []
    else
      (if al[0] == 0 then [] else [Fill(makers[0], makers[0].price, Min(al[0], makers[0].amount))])
      + FillsOf(makers[1..], al[1..])
  }

  lemma SurvivorsHead(x: Order, rest: seq<Order>, a: nat, al: seq<nat>)
    requires |al| == |rest|
    ensures Survivors([x] + rest, [a] + al)
            == (if a >= x.amount then [] else [x.(amount := x.amount - a)]) + Survivors(rest, al)
    ensures FillsOf([x] + rest, [a] + al)
            == (if a == 0 then [] else [Fill(x, x.price, Min(a, x.amount))]) + FillsOf(rest, al)
  {
    assert ([x] + rest)[1..] == rest && ([a] + al)[1..] == al;
  }

  lemma {:induction false} SurvivorsConcat(a: seq<Order>, b: seq<Order>, al: seq<nat>, bl: seq<nat>)
    requires |al| == |a| && |bl| == |b|
    ensures Survivors(a + b, al + bl) == Survivors(a, al) + Survivors(b, bl)
    ensures FillsOf(a + b, al + bl) == FillsOf(a, al) + FillsOf(b, bl)
  {
    if a == [] {
      assert a + b == b && al + bl == bl;
    } else {
      hide Survivors, FillsOf;
      var x, tail, y, yl := a[0], a[1..], al[0], al[1..];
      assert a == [x] + tail && a + b == [x] + (tail + b);
      assert al == [y] + yl && al + bl == [y] + (yl + bl);
      SurvivorsHead(x, tail, y, yl);
      SurvivorsHead(x, tail + b, y, yl + bl);
      SurvivorsConcat(tail, b, yl, bl);
      ConcatAssociates(if y >= x.amount then [] else [x.(amount := x.amount - y)], Survivors(tail, yl), Survivors(b,
          bl));
      ConcatAssociates(if y == 0 then [] else [Fill(x, x.price, Min(y, x.amount))], FillsOf(tail, yl), FillsOf(b, bl));
    }
  }

  lemma {:induction false} SurvivorsIdle(makers: seq<Order>, al: seq<nat>)
    requires |al| == |makers|
    requires forall i :: 0 <= i < |al| ==> al[i] == 0 && makers[i].amount > 0
    ensures Survivors(makers, al) == makers
    ensures FillsOf(makers, al) == []
  {
    if makers != [] { SurvivorsIdle(makers[1..], al[1..]); }
  }

  /** Every survivor is one of the makers with its amount reduced by what it gave. */
  lemma {:induction false} SurvivorOrigin(makers: seq<Order>, al: seq<nat>, s: Order)
    returns (i: nat)
    requires |al| == |makers|
    requires s in Survivors(makers, al)
    ensures i < |makers| && al[i] < makers[i].amount
    ensures s == makers[i].(amount := makers[i].amount - al[i])
  {
    if al[0] < makers[0].amount && s == makers[0].(amount := makers[0].amount - al[0]) {
      i := 0;
    } else {
      var k := SurvivorOrigin(makers[1..], al[1..], s);
      i := k + 1;
    }
  }

  /** Every fill comes from one maker, at that maker's price, for exactly what it gave. */
  lemma {:induction false} FillOrigin(makers: seq<Order>, al: seq<nat>, f: Fill)
    returns (i: nat)
    requires |al| == |makers|
    requires f in FillsOf(makers, al)
    ensures i < |makers| && al[i] > 0
    ensures f == Fill(makers[i], makers[i].price, Min(al[i], makers[i].amount))
  {
    if al[0] > 0 && f == Fill(makers[0], makers[0].price, Min(al[0], makers[0].amount)) {
      i := 0;
    } else {
      var k := FillOrigin(makers[1..], al[1..], f);
      i := k + 1;
    }
  }

  /** The amounts filled add up to the total allocation. */
  lemma {:induction false} FillsTotal(makers: seq<Order>, al: seq<nat>)
    requires |al| == |makers|
    requires forall i :: 0 <= i < |al| ==> al[i] <= makers[i].amount
    ensures Sum(Amounts(FillsOf(makers, al))) == Sum(al)
  {
    if makers != [] {
      FillsTotal(makers[1..], al[1..]);
      var fs := FillsOf(makers, al);
      if al[0] > 0 {
        assert fs[1..] == FillsOf(makers[1..], al[1..]);
        assert Amounts(fs)[1..] == Amounts(fs[1..]);
      } else {
        assert fs == FillsOf(makers[1..], al[1..]);
      }
    }
  }

  function Amounts(fs: seq<Fill>): (r: seq<nat>) {
    seq(|fs|, i requires 0 <= i < |fs| => fs[i].amount)
  }
}
