/** The promises of the matching engine: price-time priority for one order, and what holds of every
    book and every match after any run of adds and cancels. */
module BookTheorems {
  import opened Types
  import opened Fees
  import opened PriceTime
  import opened Engine
  import opened BookInvariants
  import Field

  // ---- One order ----

  /** The orders resting at one price, oldest first. */
  function QueueAt(levels: seq<Level>, price: u64): seq<Order> {
    if levels == [] then []
    else if levels[0].price == price then levels[0].orders
    else QueueAt(levels[1..], price)
  }

  /** Placing an order puts it last at its own price and changes no other price. */
  lemma {:induction false} PlacedLastAtItsPrice(levels: seq<Level>, o: Order, price: u64)
    requires Sorted(levels, false)
    ensures QueueAt(Place(levels, o), price)
            == QueueAt(levels, price) + (if price == o.price then [o] else [])
  {
    if levels == [] || o.price < levels[0].price {
      assert ([Level(o.price, [o])] + levels)[1..] == levels;
      if price == o.price { NoQueueBelow(levels, price); }
    } else if o.price == levels[0].price {
      assert Place(levels, o)[1..] == levels[1..];
    } else {
      assert Place(levels, o)[1..] == Place(levels[1..], o);
      PlacedLastAtItsPrice(levels[1..], o, price);
    }
  }

  lemma {:induction false} NoQueueBelow(levels: seq<Level>, price: u64)
    requires Sorted(levels, false) && (levels == [] || price < levels[0].price)
    ensures QueueAt(levels, price) == []
  {
    if levels != [] { NoQueueBelow(levels[1..], price); }
  }

  lemma ReverseTwice(levels: seq<Level>)
    ensures Reverse(Reverse(levels)) == levels
  {
  }

  function OwnSide(b: Book, side: Side): seq<Level> {
    if side == Buy then b.bids else b.asks
  }

  /** The match a fill becomes: same maker, same amount, the maker's own price. */
  predicate MatchIsFill(m: Match, f: Fill, o: Order) {
    && m.makerId == f.maker.id && m.makerTrader == f.maker.trader
    && m.takerId == o.id && m.takerTrader == o.trader
    && m.price == f.maker.price && m.amount == f.amount
  }

  lemma MatchesAreFills(b: Book, o: Order, timestampUs: u64)
    requires BookOk(b) && Admissible(o)
    ensures var makers := Flat(Opposite(b, o.side));
            var fills := FillsOf(makers, Greedy(o, makers, o.amount));
            var ms := Add(b, o, timestampUs).matches;
            && |ms| == |fills|
            && (forall i :: 0 <= i < |fills| ==> MatchIsFill(ms[i], fills[i], o))
  {
    SweepOnBook(b, o);
    var makers := Flat(Opposite(b, o.side));
    var al := Greedy(o, makers, o.amount);
    var fills := FillsOf(makers, al);
    forall i | 0 <= i < |fills| ensures fills[i].price == fills[i].maker.price {
      var k := FillOrigin(makers, al, fills[i]);
    }
  }

  lemma SidesAfterAdd(b: Book, o: Order, timestampUs: u64)
    requires Admissible(o)
    ensures var s := Sweep(o, Opposite(b, o.side), o.amount);
            var b' := Add(b, o, timestampUs).book;
            && Opposite(b', o.side) == s.levels
            && OwnSide(b', o.side)
               == if s.left == 0 then OwnSide(b, o.side) else Place(OwnSide(b, o.side), o.(amount := s.left))
  {
    ReverseTwice(Sweep(o, Opposite(b, o.side), o.amount).levels);
  }

  function MatchedAmounts(ms: seq<Match>): (r: seq<nat>)
    ensures |r| == |ms|
  {
    seq(|ms|, i requires 0 <= i < |ms| => ms[i].amount)
  }

  lemma MatchedTotal(o: Order, makers: seq<Order>, al: seq<nat>, ms: seq<Match>)
    requires PriceTimeAllocation(o, makers, o.amount, al) && |ms| == |FillsOf(makers, al)|
    requires forall i :: 0 <= i < |ms| ==> MatchIsFill(ms[i], FillsOf(makers, al)[i], o)
    ensures Sum(MatchedAmounts(ms)) == Min(o.amount, Liquidity(o, makers))
  {
    FillsTotal(makers, al);
    hide FillsOf, Sum, Liquidity;
    assert MatchedAmounts(ms) == Amounts(FillsOf(makers, al));
  }

  /** An order the guard refuses changes nothing; any other changes no configuration. */
  lemma AddGuard(b: Book, o: Order, timestampUs: u64)
    ensures o.amount == 0 || o.price == 0 || o.price > 1_000_000_000_000 || o.amount * o.price > 0xFFFF_FFFF_FFFF_FFFF
            <==> !Admissible(o)
    ensures !Admissible(o) ==> Add(b, o, timestampUs).book == b && Add(b, o, timestampUs).matches == []
    ensures var b' := Add(b, o, timestampUs).book;
            b'.symbol == b.symbol && b'.activeNodes == b.activeNodes && b'.fees == b.fees
  {
    hide Sweep, Place, Reverse, MatchesOf, CursorAfter;
  }

  lemma AddTurns(b: Book, o: Order, timestampUs: u64)
    ensures var r := Add(b, o, timestampUs);
            && (b.activeNodes == [] ==>
                  r.book.cursor == b.cursor && forall i :: 0 <= i < |r.matches| ==> r.matches[i].assignedNode == 0)
            && (b.activeNodes != [] ==>
                  && r.book.cursor % |b.activeNodes| == (b.cursor + |r.matches|) % |b.activeNodes|
                  && forall i :: 0 <= i < |r.matches| ==>
                       r.matches[i].assignedNode == b.activeNodes[(b.cursor + i) % |b.activeNodes|])
  {
    hide Sweep, Place, Reverse;
    if b.activeNodes != [] { ModSplit(b.cursor + |Add(b, o, timestampUs).matches|, |b.activeNodes|); }
  }

  /** An accepted order consumes the opposite side exactly as price-time priority demands: the
      makers give the one allocation that meets the specification, the matches are those fills at
      the makers' prices and add up to the smaller of the order's amount and the liquidity it may take,
      and what is left of the order rests last at its own price. The cursor moves one node per match, and
      the configuration stays. */
  lemma AddIsPriceTime(b: Book, o: Order, timestampUs: u64)
    returns (makers: seq<Order>, al: seq<nat>, r: AddResult, left: u64)
    requires BookOk(b) && Admissible(o)
    ensures makers == Flat(Opposite(b, o.side)) && r == Add(b, o, timestampUs)
    ensures PriceTimeAllocation(o, makers, o.amount, al)
    ensures Flat(Opposite(r.book, o.side)) == Survivors(makers, al)
    ensures |r.matches| == |FillsOf(makers, al)|
    ensures forall i :: 0 <= i < |r.matches| ==> MatchIsFill(r.matches[i], FillsOf(makers, al)[i], o)
    ensures Sum(MatchedAmounts(r.matches)) == Min(o.amount, Liquidity(o, makers))
    ensures left == o.amount - Sum(al)
    ensures OwnSide(r.book, o.side)
            == if left == 0 then OwnSide(b, o.side) else Place(OwnSide(b, o.side), o.(amount := left))
    ensures r.book.symbol == b.symbol && r.book.activeNodes == b.activeNodes && r.book.fees == b.fees
    ensures b.activeNodes == [] ==> r.book.cursor == b.cursor
    ensures b.activeNodes != [] ==>
              r.book.cursor % |b.activeNodes| == (b.cursor + |r.matches|) % |b.activeNodes|
  {
    hide Sweep, Greedy, Flat, Opposite, OwnSide, FillsOf, Survivors, Place, BookOk, Add, MatchIsFill, MatchedAmounts,
         Liquidity, PriceTimeAllocation, Sum;
    AddGuard(b, o, timestampUs);
    AddTurns(b, o, timestampUs);
    makers, r := Flat(Opposite(b, o.side)), Add(b, o, timestampUs);
    al, left := Greedy(o, makers, o.amount), Sweep(o, Opposite(b, o.side), o.amount).left;
    SweepOnBook(b, o);
    MatchesAreFills(b, o, timestampUs);
    SidesAfterAdd(b, o, timestampUs);
    GreedyIsPriceTime(o, makers, o.amount);
    MatchedTotal(o, makers, al, r.matches);
  }

  function SideOf(r: Requester): Side {
    match r
    case Seller => Sell
    case Buyer => Buy
  }

  /** The settlement terms of a match: the selling order says which side asked for the settlement
      terms; that side's trader pays the fee, and its preference sets tier, rate and deadline. */
  ghost predicate MatchTerms(b: Book, m: Match, maker: Order, taker: Order, timestampUs: u64) {
    && maker.side != taker.side
    && (forall sell | sell in {maker, taker} && sell.side == Sell ::
          && m.seller == sell.trader
          && forall payer | payer in {maker, taker} && payer.side == SideOf(sell.requester) ::
               m.feePayer == payer.trader && m.tier == payer.preference)
    && m.feeBps == FeeBps(b.fees, m.tier)
    && m.symbol == b.symbol && m.timestampUs == timestampUs
    && var grace := match m.tier case Standard => 86_400 case Express => 600 case Instant => 60;
       (m.deadline - grace) * 1_000_000 <= timestampUs < (m.deadline - grace + 1) * 1_000_000
  }

  /** Every match carries the terms its two orders call for and the next node of the round robin. */
  lemma MatchTermsOk(b: Book, o: Order, timestampUs: u64, i: nat)
    requires BookOk(b) && Admissible(o) && i < |Add(b, o, timestampUs).matches|
    ensures var makers := Flat(Opposite(b, o.side));
            var fills := FillsOf(makers, Greedy(o, makers, o.amount));
            var m := Add(b, o, timestampUs).matches[i];
            && i < |fills| && MatchTerms(b, m, fills[i].maker, o, timestampUs)
            && m.assignedNode == NodeAt(b.activeNodes, b.cursor, i)
  {
    SweepOnBook(b, o);
    var makers := Flat(Opposite(b, o.side));
    var al := Greedy(o, makers, o.amount);
    var fills := FillsOf(makers, al);
    var k := FillOrigin(makers, al, fills[i]);
    OppositeResting(b, o, k);
    var s := Sweep(o, Opposite(b, o.side), o.amount);
    assert Add(b, o, timestampUs).matches[i]
           == MatchOf(b, o, s.fills[i], timestampUs, NodeAt(b.activeNodes, b.cursor, i));
    hide Sweep, Greedy, Flat, Opposite, FillsOf, BookOk, NodeAt, MatchTerms, MatchOf, Add;
    TermsOfFill(b, o, fills[i], timestampUs, NodeAt(b.activeNodes, b.cursor, i));
  }

  lemma TermsOfFill(b: Book, taker: Order, f: Fill, timestampUs: u64, node: Id)
    requires f.maker.side != taker.side
    ensures MatchTerms(b, MatchOf(b, taker, f, timestampUs, node), f.maker, taker, timestampUs)
    ensures MatchOf(b, taker, f, timestampUs, node).assignedNode == node
  {
    WholeSeconds(timestampUs);
  }

  lemma WholeSeconds(t: u64)
    ensures (t / 1_000_000) * 1_000_000 <= t < (t / 1_000_000 + 1) * 1_000_000
  {
  }

  /** The cursor and the assigned nodes are a round robin: one node per match, in order. */
  lemma RoundRobinStep(nodes: seq<Id>, cursor: nat, n: nat)
    requires nodes != []
    ensures NodeAt(nodes, cursor, n) == nodes[CursorAfter(nodes, cursor, n) % |nodes|]
    ensures CursorAfter(nodes, cursor, n + 1) == (CursorAfter(nodes, cursor, n) + 1) % |nodes|
  {
    ModSplit(cursor + n, |nodes|);
    if n > 0 { ModSplit(CursorAfter(nodes, cursor, n), |nodes|); }
  }

  lemma ModSplit(x: nat, k: nat)
    requires k > 0
    ensures (x % k) % k == x % k
    ensures (x + 1) % k == (if x % k + 1 == k then 0 else x % k + 1)
  {
    var q, r := x / k, x % k;
    assert x == q * k + r;
    if r + 1 == k {
      assert x + 1 == (q + 1) * k;
      Field.RemainderUnique(k, x + 1, q + 1, 0);
    } else {
      Field.RemainderUnique(k, x + 1, q, r + 1);
    }
  }

  // ---- Runs ----

  datatype Command = AddOrder(order: Order, timestampUs: u64) | CancelOrder(id: Id)

  function Step(b: Book, c: Command): AddResult {
    match c
    case AddOrder(o, t) => Add(b, o, t)
    case CancelOrder(id) => AddResult(Cancel(b, id).0, [])
  }

  /** The book after a run and every match the run produced, in order. */
  function Run(b: Book, cmds: seq<Command>): AddResult {
    if cmds == [] then AddResult(b, [])
    else
      var prev := Run(b, cmds[..|cmds| - 1]);
      var last := Step(prev.book, cmds[|cmds| - 1]);
      AddResult(last.book, prev.matches + last.matches)
  }

  function NewBook(symbol: string, nodes: seq<Id>, fees: FeeCalculator): Book {
    Book(symbol, [], [], nodes, 0, fees)
  }

  /** Every reachable book is well formed and crossed only by a trader against themselves. */
  lemma {:induction false} ReachableBookOk(b: Book, cmds: seq<Command>)
    requires BookOk(b)
    ensures BookOk(Run(b, cmds).book)
  {
    if cmds != [] {
      var prev := Run(b, cmds[..|cmds| - 1]).book;
      ReachableBookOk(b, cmds[..|cmds| - 1]);
      match cmds[|cmds| - 1]
      case AddOrder(o, t) => AddKeepsOk(prev, o, t);
      case CancelOrder(id) => CancelKeepsOk(prev, id);
    }
  }

  lemma NewBookOk(symbol: string, nodes: seq<Id>, fees: FeeCalculator)
    ensures BookOk(NewBook(symbol, nodes, fees)) && Live(NewBook(symbol, nodes, fees)) == multiset{}
  {
  }

  /** What one match promises: positive, between different traders, notional below 2^64. */
  predicate MatchOk(m: Match) {
    m.amount > 0 && m.price * m.amount < TWO_64 && m.makerTrader != m.takerTrader && 1 <= m.feeBps <= 500
  }

  lemma Monotone(a: nat, b: nat, c: nat, d: nat)
    requires a <= c && b <= d
    ensures a * b <= c * d
  {
  }

  lemma AddMatchesOk(b: Book, o: Order, timestampUs: u64, m: Match)
    requires BookOk(b)
    requires m in Add(b, o, timestampUs).matches
    ensures MatchOk(m) && m.takerId == o.id && Crosses(o, m.price)
  {
    SweepOnBook(b, o);
    var makers := Flat(Opposite(b, o.side));
    var al := Greedy(o, makers, o.amount);
    var s := Sweep(o, Opposite(b, o.side), o.amount);
    var i :| 0 <= i < |s.fills| && m == Add(b, o, timestampUs).matches[i];
    var k := FillOrigin(makers, al, s.fills[i]);
    GreedyIsPriceTime(o, makers, o.amount);
    var maker := makers[k];
    OppositeResting(b, o, k);
    assert m.price == maker.price && m.amount == al[k] <= maker.amount;
    assert al[k] <= o.amount by { AllocationWithin(o, makers, o.amount, k); }
    Monotone(m.price, m.amount, maker.price, maker.amount);
    assert maker.price * maker.amount == maker.amount * maker.price;
  }

  lemma AllocationWithin(taker: Order, makers: seq<Order>, left: nat, k: nat)
    requires k < |makers|
    ensures Greedy(taker, makers, left)[k] <= left
  {
    if k > 0 {
      var a := Greedy(taker, makers, left)[0];
      AllocationWithin(taker, makers[1..], left - a, k - 1);
    }
  }

  lemma OppositeResting(b: Book, o: Order, k: nat)
    requires BookOk(b) && k < |Flat(Opposite(b, o.side))|
    ensures var x := Flat(Opposite(b, o.side))[k]; Resting(x, x.price, MakerSide(o))
  {
    if o.side == Sell { ReverseShape(b.bids, false, Buy); }
    FlatResting(Opposite(b, o.side), MakerSide(o), k);
  }

  /** Every match of every run is bounded, so the 64-bit products downstream are exact. */
  lemma {:induction false} ReachableMatchesOk(b: Book, cmds: seq<Command>, m: Match)
    requires BookOk(b)
    requires m in Run(b, cmds).matches
    ensures MatchOk(m)
  {
    var init := cmds[..|cmds| - 1];
    if m in Run(b, init).matches {
      ReachableMatchesOk(b, init, m);
    } else {
      ReachableBookOk(b, init);
      match cmds[|cmds| - 1]
      case AddOrder(o, t) => AddMatchesOk(Run(b, init).book, o, t, m);
    }
  }

  // ---- Match keys ----

  function Live(b: Book): multiset<Id> {
    Ids(Flat(b.bids)) + Ids(Flat(b.asks))
  }

  /** Resting ids are distinct and belong to orders seen so far. */
  ghost predicate LiveWithin(b: Book, seen: set<Id>) {
    forall x :: x in Live(b) ==> Live(b)[x] == 1 && x in seen
  }

  lemma OppositeIds(b: Book, side: Side)
    ensures Live(b) == Ids(Flat(Opposite(b, side))) + Ids(Flat(OwnSide(b, side)))
  {
    ReverseContents(b.bids);
  }

  lemma AddLive(b: Book, o: Order, timestampUs: u64)
    requires BookOk(b)
    ensures Live(Add(b, o, timestampUs).book) <= Live(b) + multiset{o.id}
  {
    if Admissible(o) {
      var b' := Add(b, o, timestampUs).book;
      var makers := Flat(Opposite(b, o.side));
      SweepOnBook(b, o);
      SidesAfterAdd(b, o, timestampUs);
      SurvivorIds(makers, Greedy(o, makers, o.amount));
      PlaceContents(OwnSide(b, o.side), o.(amount := Sweep(o, Opposite(b, o.side), o.amount).left));
      OppositeIds(b, o.side);
      OppositeIds(b', o.side);
    }
  }

  lemma {:induction false} FillsFromDistinct(makers: seq<Order>, al: seq<nat>, i: nat, j: nat)
    requires |al| == |makers|
    requires forall x :: x in Ids(makers) ==> Ids(makers)[x] == 1
    requires i <= j < |FillsOf(makers, al)|
    ensures FillsOf(makers, al)[i].maker.id in Ids(makers)
    ensures i < j ==> FillsOf(makers, al)[i].maker.id != FillsOf(makers, al)[j].maker.id
  {
    var fs := FillsOf(makers, al);
    var rest := FillsOf(makers[1..], al[1..]);
    assert forall x :: x in Ids(makers[1..]) ==> Ids(makers)[x] >= Ids(makers[1..])[x];
    if al[0] == 0 {
      assert fs == rest;
      FillsFromDistinct(makers[1..], al[1..], i, j);
    } else if i > 0 {
      assert fs[1..] == rest;
      FillsFromDistinct(makers[1..], al[1..], i - 1, j - 1);
    } else if j > 0 {
      assert fs[1..] == rest;
      FillsFromDistinct(makers[1..], al[1..], j - 1, j - 1);
    }
  }

  lemma AddKeysDistinct(b: Book, o: Order, timestampUs: u64, seen: set<Id>)
    requires BookOk(b) && LiveWithin(b, seen)
    ensures var ms := Add(b, o, timestampUs).matches;
            && (forall i :: 0 <= i < |ms| ==> ms[i].takerId == o.id && ms[i].makerId in seen)
            && (forall i, j :: 0 <= i < j < |ms| ==> ms[i].makerId != ms[j].makerId)
    ensures o.id !in seen ==> LiveWithin(Add(b, o, timestampUs).book, seen + {o.id})
  {
    hide Sweep, Greedy, FillsOf, Flat, Opposite, Settle, MatchesOf, BookOk, Ids;
    AddLive(b, o, timestampUs);
    OppositeIds(b, o.side);
    var makers := Flat(Opposite(b, o.side));
    assert forall x :: x in Ids(makers) ==> x in Live(b) && Ids(makers)[x] <= Live(b)[x];
    if Admissible(o) {
      MatchesAreFills(b, o, timestampUs);
      var ms := Add(b, o, timestampUs).matches;
      forall i, j | 0 <= i <= j < |ms|
        ensures ms[i].makerId in seen
        ensures i < j ==> ms[i].makerId != ms[j].makerId
      {
        FillsFromDistinct(makers, Greedy(o, makers, o.amount), i, j);
      }
    }
  }

  lemma CancelLive(b: Book, id: Id, seen: set<Id>)
    requires LiveWithin(b, seen)
    ensures LiveWithin(Cancel(b, id).0, seen)
  {
    CancelContents(b.bids, id);
    CancelContents(b.asks, id);
    assert Live(Cancel(b, id).0) <= Live(b);
  }

  function AddedIds(cmds: seq<Command>): set<Id> {
    if cmds == [] then {}
    else
      AddedIds(cmds[..|cmds| - 1])
      + (if cmds[|cmds| - 1].AddOrder? then {cmds[|cmds| - 1].order.id} else {})
  }

  /** No order id is added twice. */
  predicate DistinctAdds(cmds: seq<Command>) {
    cmds == []
    || (var init, last := cmds[..|cmds| - 1], cmds[|cmds| - 1];
        DistinctAdds(init) && (last.AddOrder? ==> last.order.id !in AddedIds(init)))
  }

  ghost predicate KeysUnique(ms: seq<Match>) {
    forall i, j :: 0 <= i < j < |ms| ==> KeyOf(ms[i]) != KeyOf(ms[j])
  }

  ghost predicate TakersWithin(ms: seq<Match>, seen: set<Id>) {
    forall i :: 0 <= i < |ms| ==> ms[i].takerId in seen
  }

  /** What is true of a run's book and matches: resting ids and takers were seen, keys are unique. */
  ghost predicate KeysInv(r: AddResult, seen: set<Id>) {
    LiveWithin(r.book, seen) && TakersWithin(r.matches, seen) && KeysUnique(r.matches)
  }

  lemma AddKeepsKeys(prev: AddResult, o: Order, timestampUs: u64, seen: set<Id>)
    requires BookOk(prev.book) && KeysInv(prev, seen) && o.id !in seen
    ensures var r := Add(prev.book, o, timestampUs);
            KeysInv(AddResult(r.book, prev.matches + r.matches), seen + {o.id})
  {
    hide Add, Live;
    AddKeysDistinct(prev.book, o, timestampUs, seen);
    KeysAppend(prev.matches, Add(prev.book, o, timestampUs).matches, o.id);
  }

  /** Distinct order ids make (maker id, taker id) unique over all matches a run ever produces. */
  lemma {:induction false} MatchKeysUnique(b: Book, cmds: seq<Command>)
    requires BookOk(b) && Live(b) == multiset{}
    requires DistinctAdds(cmds)
    ensures KeysInv(Run(b, cmds), AddedIds(cmds))
  {
    if cmds != [] {
      var init, last := cmds[..|cmds| - 1], cmds[|cmds| - 1];
      hide KeysInv, Add, Cancel, BookOk, Live;
      MatchKeysUnique(b, init);
      ReachableBookOk(b, init);
      match last
      case AddOrder(o, t) => AddKeepsKeys(Run(b, init), o, t, AddedIds(init));
      case CancelOrder(id) => CancelKeepsKeys(Run(b, init), id, AddedIds(init));
    }
  }

  /** From a new book, whatever is added and cancelled: the book stays well formed, every match is
      bounded and between two traders, and distinct ids make distinct keys. */
  lemma EveryRunFromNew(symbol: string, nodes: seq<Id>, fees: FeeCalculator, cmds: seq<Command>)
    ensures var r := Run(NewBook(symbol, nodes, fees), cmds);
            && BookOk(r.book) && (forall m :: m in r.matches ==> MatchOk(m))
            && (DistinctAdds(cmds) ==> KeysUnique(r.matches))
  {
    hide *;
    var b := NewBook(symbol, nodes, fees);
    NewBookOk(symbol, nodes, fees);
    ReachableBookOk(b, cmds);
    forall m | m in Run(b, cmds).matches ensures MatchOk(m) { ReachableMatchesOk(b, cmds, m); }
    if DistinctAdds(cmds) {
      MatchKeysUnique(b, cmds);
      KeysOf(Run(b, cmds), AddedIds(cmds));
    }
  }

  lemma KeysOf(r: AddResult, seen: set<Id>)
    requires KeysInv(r, seen)
    ensures KeysUnique(r.matches)
  {
  }

  lemma CancelKeepsKeys(prev: AddResult, id: Id, seen: set<Id>)
    requires KeysInv(prev, seen)
    ensures KeysInv(AddResult(Cancel(prev.book, id).0, prev.matches + []), seen)
  {
    CancelLive(prev.book, id, seen);
    assert prev.matches + [] == prev.matches;
  }

  lemma KeysAppend(a: seq<Match>, b: seq<Match>, taker: Id)
    requires KeysUnique(a)
    requires forall i :: 0 <= i < |a| ==> a[i].takerId != taker
    requires forall i :: 0 <= i < |b| ==> b[i].takerId == taker
    requires forall i, j :: 0 <= i < j < |b| ==> b[i].makerId != b[j].makerId
    ensures KeysUnique(a + b)
  {
  }

  // ---- Clocks ----

  /** A match without the two fields that come from the clock. */
  function Erase(m: Match): Match {
    m.(timestampUs := 0, deadline := 0)
  }

  function EraseAll(ms: seq<Match>): (r: seq<Match>)
    ensures |r| == |ms|
  {
    seq(|ms|, i requires 0 <= i < |ms| => Erase(ms[i]))
  }

  /** Equal books give equal books and equal matches up to the clock, whatever the timestamps. */
  lemma AddIgnoresClock(b: Book, o: Order, t1: u64, t2: u64)
    ensures Add(b, o, t1).book == Add(b, o, t2).book
    ensures EraseAll(Add(b, o, t1).matches) == EraseAll(Add(b, o, t2).matches)
  {
  }
}
