/** What one operation does to the whole book, stated without the functions that compute it: what a
    refused order leaves, where a cancelled order was, and whose turn it is over a whole run. */
module BookOperations {
  import opened Types
  import opened PriceTime
  import opened Engine
  import opened BookInvariants
  import opened BookTheorems
  import Field

  // ---- Whose turn it is over a run ----

  /** The node i places after the cursor, around the list; none when the list is empty. */
  ghost predicate TurnAt(nodes: seq<Id>, cursor: nat, i: nat, node: Id) {
    node == if nodes == [] then 0 else nodes[(cursor + i) % |nodes|]
  }

  /** The i-th match ever produced goes to the i-th node after the cursor. */
  ghost predicate TakeTurns(nodes: seq<Id>, cursor: nat, ms: seq<Match>) {
    forall i :: 0 <= i < |ms| ==> TurnAt(nodes, cursor, i, ms[i].assignedNode)
  }

  lemma SameTurn(c: nat, c': nat, n: nat, i: nat, k: nat)
    requires k > 0 && c' % k == (c + n) % k
    ensures (c' + i) % k == (c + n + i) % k
  {
    var q, r := (c + n) / k, (c + n) % k;
    var q' := c' / k;
    assert c' == q' * k + r && c + n == q * k + r;
    var s, t := (r + i) / k, (r + i) % k;
    assert r + i == s * k + t;
    assert c' + i == (q' + s) * k + t && c + n + i == (q + s) * k + t;
    Field.RemainderUnique(k, c' + i, q' + s, t);
    Field.RemainderUnique(k, c + n + i, q + s, t);
  }

  lemma TurnsAppend(nodes: seq<Id>, cursor: nat, a: seq<Match>, cursor': nat, b: seq<Match>)
    requires TakeTurns(nodes, cursor, a) && TakeTurns(nodes, cursor', b)
    requires nodes != [] ==> cursor' % |nodes| == (cursor + |a|) % |nodes|
    ensures TakeTurns(nodes, cursor, a + b)
    ensures nodes != [] ==> (cursor' + |b|) % |nodes| == (cursor + |a + b|) % |nodes|
  {
    if nodes != [] { SameTurn(cursor, cursor', |a|, |b|, |nodes|); }
    forall i | 0 <= i < |a + b| ensures TurnAt(nodes, cursor, i, (a + b)[i].assignedNode) {
      if i < |a| {
        assert (a + b)[i] == a[i];
      } else {
        assert (a + b)[i] == b[i - |a|];
        ShiftTurn(nodes, cursor, cursor', |a|, i - |a|, b[i - |a|].assignedNode);
      }
    }
    hide TurnAt;
  }

  lemma ShiftTurn(nodes: seq<Id>, cursor: nat, cursor': nat, n: nat, i: nat, node: Id)
    requires nodes != [] ==> cursor' % |nodes| == (cursor + n) % |nodes|
    requires TurnAt(nodes, cursor', i, node)
    ensures TurnAt(nodes, cursor, n + i, node)
  {
    if nodes != [] {
      SameTurn(cursor, cursor', n, i, |nodes|);
      assert cursor + (n + i) == cursor + n + i;
    }
  }

  /** What a run keeps of the configuration, and where its cursor stands. */
  ghost predicate TurnsOk(b: Book, r: AddResult) {
    && r.book.symbol == b.symbol && r.book.activeNodes == b.activeNodes && r.book.fees == b.fees
    && TakeTurns(b.activeNodes, b.cursor, r.matches)
    && (b.activeNodes != [] ==> r.book.cursor % |b.activeNodes| == (b.cursor + |r.matches|) % |b.activeNodes|)
    && (b.activeNodes == [] ==> r.book.cursor == b.cursor)
  }

  lemma AddKeepsTurns(b: Book, prev: AddResult, o: Order, timestampUs: u64)
    requires TurnsOk(b, prev)
    ensures var r := Add(prev.book, o, timestampUs); TurnsOk(b, AddResult(r.book, prev.matches + r.matches))
  {
    hide Add;
    var r := Add(prev.book, o, timestampUs);
    AddGuard(prev.book, o, timestampUs);
    AddTurns(prev.book, o, timestampUs);
    assert TakeTurns(b.activeNodes, prev.book.cursor, r.matches);
    hide TakeTurns;
    TurnsAppend(b.activeNodes, b.cursor, prev.matches, prev.book.cursor, r.matches);
  }

  lemma CancelFrame(b: Book, id: Id)
    ensures var b' := Cancel(b, id).0; b' == b.(bids := b'.bids, asks := b'.asks)
  {
    hide CancelIn, Holds;
  }

  /** Over every run of adds and cancels: the i-th match of the whole run is assigned the node i places
      after the cursor the run began with, the cursor ends where the matches leave it, and symbol, nodes and
      fees never change. */
  lemma {:induction false} RunTakesTurns(b: Book, cmds: seq<Command>)
    ensures TurnsOk(b, Run(b, cmds))
  {
    if cmds != [] {
      var init, last := cmds[..|cmds| - 1], cmds[|cmds| - 1];
      RunTakesTurns(b, init);
      var prev := Run(b, init);
      hide Add, Cancel, TurnsOk;
      match last
      case AddOrder(o, t) => AddKeepsTurns(b, prev, o, t);
      case CancelOrder(id) => CancelKeepsTurns(b, prev, id);
    } else {
      FreshTurns(b);
    }
  }

  lemma FreshTurns(b: Book)
    ensures TurnsOk(b, AddResult(b, []))
  {
  }

  lemma CancelKeepsTurns(b: Book, prev: AddResult, id: Id)
    requires TurnsOk(b, prev)
    ensures TurnsOk(b, AddResult(Cancel(prev.book, id).0, prev.matches + []))
  {
    CancelFrame(prev.book, id);
    assert prev.matches + [] == prev.matches;
    hide Cancel, TakeTurns;
  }

  // ---- What a sweep leaves of the levels ----

  /** An empty level is left only where the sweep did not come, and was empty before. */
  lemma {:induction false} SweepPrunes(taker: Order, levels: seq<Level>, left: u64, i: nat)
    requires Sorted(levels, taker.side == Sell)
    requires i < |Sweep(taker, levels, left).levels| && Sweep(taker, levels, left).levels[i].orders == []
    ensures var s := Sweep(taker, levels, left);
            s.levels[i] in levels && (s.left == 0 || !Crosses(taker, s.levels[i].price))
  {
    if levels != [] && left != 0 && Crosses(taker, levels[0].price) {
      hide FillLevel, Crosses;
      var f := FillLevel(taker, levels[0].price, levels[0].orders, left);
      SweepPrunes(taker, levels[1..], f.left, if f.kept == [] then i else i - 1);
    } else if i > 0 && left != 0 {
      assert if taker.side == Sell then levels[0].price > levels[i].price else levels[0].price < levels[i].price;
    }
  }

  /** After an accepted order, a level that is empty on the side it swept was already empty there and lies
      beyond what the order reached: emptied levels are gone. */
  lemma AddPrunes(b: Book, o: Order, timestampUs: u64, i: nat)
    requires BookOk(b) && Admissible(o)
    requires var b' := Add(b, o, timestampUs).book; i < |Opposite(b', o.side)| && Opposite(b', o.side)[i].orders == []
    ensures var level := Opposite(Add(b, o, timestampUs).book, o.side)[i];
            && level in Opposite(b, o.side)
            && (Sum(MatchedAmounts(Add(b, o, timestampUs).matches)) == o.amount || !Crosses(o, level.price))
  {
    var makers, al, r, left := AddIsPriceTime(b, o, timestampUs);
    PriceTimeIsUnique(o, makers, o.amount, al);
    SidesAfterAdd(b, o, timestampUs);
    if o.side == Sell { ReverseShape(b.bids, false, Buy); }
    SweepPrunes(o, Opposite(b, o.side), o.amount, i);
    SweepOnBook(b, o);
    hide Sweep, Flat, Greedy, FillsOf, Survivors, Sum, Liquidity, Add, Opposite;
  }

  // ---- Cancelling ----

  /** An order with this id is at this place and none before it. */
  ghost predicate FirstAt(levels: seq<Level>, id: Id, j: nat, i: nat) {
    && j < |levels| && i < |levels[j].orders| && levels[j].orders[i].id == id
    && (forall l, h :: 0 <= l < j && 0 <= h < |levels[l].orders| ==> levels[l].orders[h].id != id)
    && (forall h :: 0 <= h < i ==> levels[j].orders[h].id != id)
  }

  ghost predicate Absent(levels: seq<Level>, id: Id) {
    forall l, h :: 0 <= l < |levels| && 0 <= h < |levels[l].orders| ==> levels[l].orders[h].id != id
  }

  /** The side without the order at that place: every price, every other queue and the order of its own
      queue are as before. */
  ghost predicate TakenOut(levels: seq<Level>, levels': seq<Level>, j: nat, i: nat) {
    && j < |levels| == |levels'| && i < |levels[j].orders|
    && levels'[j].price == levels[j].price
    && levels'[j].orders == levels[j].orders[..i] + levels[j].orders[i + 1..]
    && forall l :: 0 <= l < |levels| && l != j ==> levels'[l] == levels[l]
  }

  lemma {:induction false} FirstPosition(orders: seq<Order>, id: Id)
    ensures forall h :: 0 <= h < PositionOf(orders, id) ==> orders[h].id != id
  {
    if orders != [] && orders[0].id != id {
      FirstPosition(orders[1..], id);
      forall h | 0 <= h < PositionOf(orders, id) ensures orders[h].id != id {
        if h > 0 { assert orders[h] == orders[1..][h - 1]; }
      }
    }
  }

  lemma {:induction false} CancelInPlace(levels: seq<Level>, id: Id) returns (j: nat, i: nat)
    ensures Holds(levels, id) ==> FirstAt(levels, id, j, i) && TakenOut(levels, CancelIn(levels, id), j, i)
    ensures !Holds(levels, id) ==> Absent(levels, id)
  {
    j, i := 0, 0;
    if levels != [] {
      var head, tail := levels[0], levels[1..];
      var at := PositionOf(head.orders, id);
      FirstPosition(head.orders, id);
      if at < |head.orders| {
        j, i := 0, at;
      } else {
        var l, h := CancelInPlace(tail, id);
        j, i := l + 1, h;
        assert levels == [head] + tail;
        if Holds(levels, id) {
          ShiftFirst(head, tail, id, l, h);
          assert CancelIn(levels, id) == [head] + CancelIn(tail, id);
          ShiftTaken(head, tail, CancelIn(tail, id), l, h);
        } else {
          AbsentCons(head, tail, id);
        }
      }
    }
  }

  lemma ShiftFirst(head: Level, tail: seq<Level>, id: Id, j: nat, i: nat)
    requires FirstAt(tail, id, j, i) && forall h :: 0 <= h < |head.orders| ==> head.orders[h].id != id
    ensures FirstAt([head] + tail, id, j + 1, i)
  {
    var levels := [head] + tail;
    forall l, h | 0 <= l < j + 1 && 0 <= h < |levels[l].orders| ensures levels[l].orders[h].id != id {
      if l > 0 { assert levels[l] == tail[l - 1]; }
    }
  }

  lemma ShiftTaken(head: Level, tail: seq<Level>, tail': seq<Level>, j: nat, i: nat)
    requires TakenOut(tail, tail', j, i)
    ensures TakenOut([head] + tail, [head] + tail', j + 1, i)
  {
  }

  lemma AbsentCons(head: Level, tail: seq<Level>, id: Id)
    requires Absent(tail, id) && forall h :: 0 <= h < |head.orders| ==> head.orders[h].id != id
    ensures Absent([head] + tail, id)
  {
    var levels := [head] + tail;
    forall l, h | 0 <= l < |levels| && 0 <= h < |levels[l].orders| ensures levels[l].orders[h].id != id {
      if l > 0 { assert levels[l] == tail[l - 1]; }
    }
  }

  /** The order with this id at a place of one side has been taken out, and nothing else of the book has
      changed: no other order, queue, price or setting. */
  ghost predicate RemovedAt(b: Book, b': Book, id: Id, side: Side, j: nat, i: nat) {
    match side
    case Buy => b' == b.(bids := b'.bids) && FirstAt(b.bids, id, j, i) && TakenOut(b.bids, b'.bids, j, i)
    case Sell =>
      && b' == b.(asks := b'.asks) && Absent(b.bids, id)
      && FirstAt(b.asks, id, j, i) && TakenOut(b.asks, b'.asks, j, i)
  }

  /** A cancel finds an id if and only if it rests on either side, and takes out the first such order, bids
      before asks and lower prices before higher. */
  ghost predicate CancelOk(b: Book, b': Book, id: Id, found: bool) {
    && (found <==> id in Live(b))
    && (!found ==> b' == b && Absent(b.bids, id) && Absent(b.asks, id))
    && (found ==> Live(b) == Live(b') + multiset{id} && exists side, j, i :: RemovedAt(b, b', id, side, j, i))
  }

  lemma CancelIsRemoval(b: Book, id: Id)
    ensures CancelOk(b, Cancel(b, id).0, id, Cancel(b, id).1)
  {
    CancelContents(b.bids, id);
    CancelContents(b.asks, id);
    var j, i := CancelInPlace(b.bids, id);
    var j', i' := CancelInPlace(b.asks, id);
    var b' := Cancel(b, id).0;
    hide Ids, Flat, Holds, CancelIn, FirstAt, TakenOut, Absent;
    if Holds(b.bids, id) {
      assert RemovedAt(b, b', id, Buy, j, i);
    } else if Holds(b.asks, id) {
      assert RemovedAt(b, b', id, Sell, j', i');
    }
  }

  /** So at every price of the side the queue is the one before, without that order, the rest in order. */
  lemma {:induction false} CancelledQueues(levels: seq<Level>, levels': seq<Level>, j: nat, i: nat, price: u64)
    requires Sorted(levels, false) && TakenOut(levels, levels', j, i)
    ensures price == levels[j].price ==>
              && i < |QueueAt(levels, price)|
              && QueueAt(levels', price) == QueueAt(levels, price)[..i] + QueueAt(levels, price)[i + 1..]
    ensures price != levels[j].price ==> QueueAt(levels', price) == QueueAt(levels, price)
  {
    if j == 0 {
      assert levels'[1..] == levels[1..];
      if price == levels[0].price { assert QueueAt(levels, price) == levels[0].orders; }
    } else {
      assert levels[0] == levels'[0] && levels[0].price < levels[j].price;
      CancelledQueues(levels[1..], levels'[1..], j - 1, i, price);
    }
  }
}
