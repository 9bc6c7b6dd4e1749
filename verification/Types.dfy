/** The records that cross crate boundaries: orders, matches, receipts. */
module Types {

  /** A 32-byte identifier, hash or public key, read as a big-endian number: the numeric order is
      the byte order the source sorts by. */
  type Id = nat

  const TWO_64: nat := 0x1_0000_0000_0000_0000

  type u64 = x: int | 0 <= x < TWO_64

  datatype Option<+T> = None | Some(value: T)

  datatype Side = Buy | Sell

  datatype Tier = Standard | Express | Instant

  datatype Requester = Seller | Buyer

  datatype Order = Order(
    id: Id, trader: Id, symbol: string, side: Side, price: u64, amount: u64,
    signature: seq<nat>, nonce: u64, expiry: u64, preference: Tier, requester: Requester)

  datatype Match = Match(
    makerId: Id, takerId: Id, makerTrader: Id, takerTrader: Id, price: u64, amount: u64,
    timestampUs: u64, tier: Tier, feeBps: nat, seller: Id, feePayer: Id, deadline: nat,
    symbol: string, assignedNode: Id)

  /** The signed receipt of an order; `body` stands for the fields the matching never reads. */
  datatype Receipt = Receipt(orderId: Id, receivedAtUs: u64, body: seq<nat>)

  type Key = (Id, Id)

  function KeyOf(m: Match): Key {
    (m.makerId, m.takerId)
  }

  function DeadlineSeconds(t: Tier): nat {
    match t
    case Standard => 86_400
    case Express => 600
    case Instant => 60
  }

  function Min(a: nat, b: nat): nat {
    if a <= b then a else b
  }

  lemma ConcatAssociates<T>(a: seq<T>, b: seq<T>, c: seq<T>)
    ensures (a + b) + c == a + (b + c)
  {
  }

  ghost predicate Increasing(picks: seq<nat>) {
    forall a, b :: 0 <= a < b < |picks| ==> picks[a] < picks[b]
  }

  ghost predicate Picks<T>(out: seq<T>, src: seq<T>, kept: set<nat>, picks: seq<nat>) {
    && |picks| == |out| && Increasing(picks)
    && (forall a :: 0 <= a < |picks| ==> picks[a] < |src| && picks[a] in kept && out[a] == src[picks[a]])
    && (forall i :: i in kept && i < |src| ==> i in picks)
  }

  /** Exactly the elements at the kept positions, each once, in order. */
  ghost predicate Filters<T>(out: seq<T>, src: seq<T>, kept: set<nat>) {
    exists picks :: Picks(out, src, kept, picks)
  }

  lemma FiltersNone<T>(src: seq<T>, kept: set<nat>)
    requires src == []
    ensures Filters(src, src, kept)
  {
    var picks: seq<nat> := [];
    assert Picks(src, src, kept, picks);
  }

  lemma FiltersNext<T>(out: seq<T>, src: seq<T>, kept: set<nat>, x: T)
    requires Filters(out, src, kept)
    ensures |src| in kept ==> Filters(out + [x], src + [x], kept)
    ensures |src| !in kept ==> Filters(out, src + [x], kept)
  {
    var picks: seq<nat> :| Picks(out, src, kept, picks);
    if |src| in kept { PickLast(out, src, kept, x, picks); } else { PickNone(out, src, kept, x, picks); }
  }

  lemma PickLast<T>(out: seq<T>, src: seq<T>, kept: set<nat>, x: T, picks: seq<nat>)
    requires Picks(out, src, kept, picks) && |src| in kept
    ensures Picks(out + [x], src + [x], kept, picks + [|src|])
  {
    var picks' := picks + [|src|];
    assert picks'[|picks|] == |src|;
    assert forall a :: 0 <= a < |picks| ==> picks'[a] == picks[a];
    assert forall i :: i in picks ==> i in picks';
  }

  lemma PickNone<T>(out: seq<T>, src: seq<T>, kept: set<nat>, x: T, picks: seq<nat>)
    requires Picks(out, src, kept, picks) && |src| !in kept
    ensures Picks(out, src + [x], kept, picks)
  {
  }

  lemma SameBagMember<T>(a: seq<T>, b: seq<T>, x: T)
    requires multiset(a) == multiset(b)
    ensures x in a <==> x in b
  {
    assert x in a <==> x in multiset(a);
    assert x in b <==> x in multiset(b);
  }

  lemma CancelBag<T>(a: multiset<T>, b: multiset<T>, c: multiset<T>)
    ensures a + c == b + c <==> a == b
  {
    if a + c == b + c {
      assert forall x :: a[x] == (a + c)[x] - c[x] && b[x] == (b + c)[x] - c[x];
    }
  }

  lemma {:induction false} SubsetSize<T>(a: set<T>, b: set<T>)
    requires a <= b
    ensures |a| <= |b|
  {
    if a != {} {
      var x :| x in a;
      SubsetSize(a - {x}, b - {x});
    }
  }
}

/** The fee schedule, over `real` instead of `f64`. */
module Fees {
  import opened Types

  datatype FeeCalculator = FeeCalculator(gasPrice: u64, batchUtilization: real, volatility: real)

  const DEFAULT_FEES := FeeCalculator(50, 0.0, 0.0)

  function BaseBps(t: Tier): nat {
    match t
    case Standard => 5
    case Express => 15
    case Instant => 50
  }

  function Rate(fees: FeeCalculator, t: Tier): real {
    BaseBps(t) as real * (fees.gasPrice as real / 50.0)
    * (1.0 - fees.batchUtilization * 0.5) * (1.0 + fees.volatility * 0.5)
  }

  function FeeBps(fees: FeeCalculator, t: Tier): (bps: nat)
    ensures 1 <= bps <= 500
  {
    var raw := Rate(fees, t);
    var low := if raw < 1.0 then 1.0 else raw;
    (if low > 500.0 then 500.0 else low).Floor
  }

  /** The fee the engine computes in 128-bit arithmetic and then truncates. */
  function EngineFee(amount: u64, price: u64, bps: nat): u64 {
    (amount * price * bps / 10_000) % TWO_64
  }

  /** The fee the settlement loop computes, every product wrapping at 64 bits. */
  function SettlementFee(amount: u64, price: u64, bps: nat): u64 {
    var notional := (price * amount) % TWO_64;
    ((notional * bps) % TWO_64) / 10_000
  }

  /** The rate is the whole part of base * gas/50 * (1 - u/2) * (1 + v/2), held between 1 and 500. */
  lemma FeeBpsIs(fees: FeeCalculator, t: Tier, raw: real)
    requires var base := match t case Standard => 5.0 case Express => 15.0 case Instant => 50.0;
             raw == base * fees.gasPrice as real
                    * (2.0 - fees.batchUtilization) * (2.0 + fees.volatility) / 200.0
    ensures raw < 1.0 ==> FeeBps(fees, t) == 1
    ensures raw >= 500.0 ==> FeeBps(fees, t) == 500
    ensures 1.0 <= raw < 500.0 ==> FeeBps(fees, t) as real <= raw < FeeBps(fees, t) as real + 1.0
  {
    assert Rate(fees, t) == raw by {
      var base := BaseBps(t) as real;
      assert base == match t case Standard => 5.0 case Express => 15.0 case Instant => 50.0;
      RateFactors(base, fees.gasPrice as real, fees.batchUtilization, fees.volatility);
    }
    hide Rate;
  }

  lemma RateFactors(base: real, g: real, u: real, v: real)
    ensures base * (g / 50.0) * (1.0 - u * 0.5) * (1.0 + v * 0.5) == base * g * (2.0 - u) * (2.0 + v) / 200.0
  {
    var x, y, z := base * (g / 50.0), 1.0 - u * 0.5, 1.0 + v * 0.5;
    assert x * 50.0 == base * g;
    assert y * 2.0 == 2.0 - u && z * 2.0 == 2.0 + v;
    assert base * g * (2.0 - u) * (2.0 + v) == (x * 50.0) * (y * 2.0) * (z * 2.0) == x * y * z * 200.0;
  }

  lemma DefaultReproducesFixedSchedule(t: Tier)
    ensures FeeBps(DEFAULT_FEES, t) == match t case Standard => 5 case Express => 15 case Instant => 50
  {
    match t
    case Standard => assert 5.0 * (50.0 / 50.0) * 1.0 * 1.0 == 5.0;
    case Express => assert 15.0 * (50.0 / 50.0) * 1.0 * 1.0 == 15.0;
    case Instant => assert 50.0 * (50.0 / 50.0) * 1.0 * 1.0 == 50.0;
  }

  /** The two fees agree exactly when the 64-bit product does not wrap. */
  lemma FeesAgreeIffNoWrap(amount: u64, price: u64, bps: nat)
    requires price * amount < TWO_64
    requires bps <= 500
    ensures SettlementFee(amount, price, bps) == EngineFee(amount, price, bps)
            <==> price * amount * bps < TWO_64
  {
    var notional := price * amount;
    assert amount * price == notional;
    assert notional % TWO_64 == notional;
    var full := notional * bps;
    assert 0 <= full <= notional * 500;
    assert full / 10_000 < TWO_64;
    if full >= TWO_64 {
      assert full % TWO_64 <= full - TWO_64;
    }
  }
}
