/** Canonical forms of polynomials up to a nonzero factor, the texts that stand for them, and the
    matching of two circuits. */
module CircuitDiff {
  import opened Field
  import opened Types
  import opened R1cs
  import opened Coefficients
  import opened Rendering

  // ---- Scaling ----

  function Scale(p: nat, c: int, t: Terms): Terms
    requires p > 0
  {
    map k | k in t :: (t[k] * c) % p
  }

  ghost function Inverse(p: nat, a: int): nat
    requires p >= 2
  {
    Pow(a, p - 2) % p
  }

  /** Every coefficient divided by the one at the least key. */
  ghost function Canon(p: nat, t: Terms): Terms
    requires p >= 2
  {
    if t == map[] then map[] else Scale(p, Inverse(p, t[Pivot(t.Keys)]), t)
  }

  method Canonicalize(p: nat, t: Terms) returns (canon: Terms)
    requires p >= 2
    ensures canon == Canon(p, t)
  {
    if t == map[] {
      return map[];
    }
    var k := FindLeast(t.Keys);
    LeastUnique(k, Pivot(t.Keys), t.Keys);
    var inv := ModInverse(p, t[k]);
    canon := Scale(p, inv, t);
  }

  /** Scaling multiplies the value. */
  lemma {:induction false} ScaleValue(p: nat, ev: string -> int, c: int, t: Terms)
    requires p > 0
    ensures Cong(p, Eval(ev, Scale(p, c, t)), Eval(ev, t) * c)
    decreases |t|
  {
    hide Cong;
    if t == map[] {
      assert Scale(p, c, t) == map[];
      CongRefl(p, 0);
    } else {
      var k :| k in t;
      var rest, v := t - {k}, ev(k);
      ScaleValue(p, ev, c, rest);
      assert Scale(p, c, t) - {k} == Scale(p, c, rest);
      EvalRemove(ev, t, k);
      EvalRemove(ev, Scale(p, c, t), k);
      ScaleStep(p, t[k], c, v, Eval(ev, Scale(p, c, rest)), Eval(ev, rest));
    }
  }

  lemma ScaleStep(p: nat, a: int, c: int, v: int, scaled: int, rest: int)
    requires p > 0 && Cong(p, scaled, rest * c)
    ensures Cong(p, ((a * c) % p) * v + scaled, (a * v + rest) * c)
  {
    CongMod(p, a * c);
    CongRefl(p, v);
    CongMul(p, (a * c) % p, a * c, v, v);
    CongAdd(p, ((a * c) % p) * v, a * c * v, scaled, rest * c);
    assert a * c * v + rest * c == (a * v + rest) * c by { assert a * c * v == a * v * c; }
  }

  // ---- Canonical forms decide equality up to a factor ----

  /** If inverse times value is one on both sides, the factor between the values is the quotient. */
  lemma FactorOfInverses(p: nat, a: int, ia: int, b: int, ib: int, c: int)
    requires p > 0 && Cong(p, a * ia, 1) && Cong(p, b * ib, 1) && Cong(p, b, a * c)
    ensures Cong(p, c * ib, ia)
  {
    CongRefl(p, c * ib);
    CongMul(p, a * ia, 1, c * ib, c * ib);
    CongSym(p, a * ia * (c * ib), c * ib);
    CongRefl(p, ia * ib);
    CongMul(p, b, a * c, ia * ib, ia * ib);
    CongSym(p, b * (ia * ib), a * c * (ia * ib));
    assert a * ia * (c * ib) == a * c * (ia * ib);
    CongTrans(p, c * ib, a * c * (ia * ib), b * (ia * ib));
    CongRefl(p, ia);
    CongMul(p, b * ib, 1, ia, ia);
    assert b * (ia * ib) == b * ib * ia;
    CongTrans(p, c * ib, b * ib * ia, ia);
  }

  lemma ScaledCanonEntry(p: nat, x: nat, c: int, ia: int, ib: int)
    requires p > 0 && Cong(p, c * ib, ia)
    ensures (((x * c) % p) * ib) % p == (x * ia) % p
  {
    var y := (x * c) % p;
    CongMod(p, x * c);
    CongRefl(p, ib);
    CongMul(p, y, x * c, ib, ib);
    CongRefl(p, x);
    CongMul(p, x, x, c * ib, ia);
    assert x * c * ib == x * (c * ib);
    CongTrans(p, y * ib, x * c * ib, x * ia);
    ResiduesEqual(p, y * ib, x * ia);
  }

  lemma ResiduesEqual(p: nat, x: int, y: int)
    requires p > 0 && Cong(p, x, y)
    ensures x % p == y % p
  {
    CongMod(p, x);
    CongMod(p, y);
    CongTrans(p, x % p, x, y);
    CongTrans(p, x % p, y, y % p);
    CongInRange(p, x % p, y % p);
  }

  /** Multiples of one polynomial have the same canonical form. */
  lemma MultiplesSameCanon(p: nat, t: Terms, c: int)
    requires IsPrime(p) && Normal(p, t) && !Divides(p, c)
    ensures Canon(p, Scale(p, c, t)) == Canon(p, t)
  {
    if t != map[] {
      var u := Scale(p, c, t);
      assert u.Keys == t.Keys;
      var k := Pivot(t.Keys);
      PivotInverse(p, t, k);
      NonzeroMultiple(p, t[k], c);
      ScaleNormal(p, t, c);
      PivotInverse(p, u, k);
      CongMod(p, t[k] * c);
      hide Inverse, Divides, IsPrime;
      FactorOfInverses(p, t[k], Inverse(p, t[k]), u[k], Inverse(p, u[k]), c);
      forall j | j in t ensures Canon(p, u)[j] == Canon(p, t)[j] {
        ScaledCanonEntry(p, t[j], c, Inverse(p, t[k]), Inverse(p, u[k]));
      }
    }
  }

  lemma ScaleNormal(p: nat, t: Terms, c: int)
    requires IsPrime(p) && Normal(p, t) && !Divides(p, c)
    ensures Normal(p, Scale(p, c, t))
  {
    forall j | j in t ensures 0 < (t[j] * c) % p < p {
      ResidueNonzero(p, t[j]);
      NonzeroMultiple(p, t[j], c);
    }
  }

  lemma NonzeroMultiple(p: nat, a: nat, c: int)
    requires IsPrime(p) && !Divides(p, a) && !Divides(p, c)
    ensures !Divides(p, (a * c) % p) && 0 < (a * c) % p < p
  {
    MultipleDivides(p, 0);
    CongMod(p, a * c);
    CongZero(p, (a * c) % p, a * c);
    if Divides(p, a * c) { CancelFactor(p, a, c); }
  }

  lemma CanonEntryFactor(p: nat, x: nat, y: nat, ia: int, b: int, ib: int)
    requires p > 0 && y < p && Cong(p, b * ib, 1) && (x * ia) % p == (y * ib) % p
    ensures y == (x * ((ia * b) % p)) % p
  {
    CongMod(p, x * ia);
    CongMod(p, y * ib);
    CongTrans(p, x * ia, (x * ia) % p, y * ib);
    CongRefl(p, b);
    CongMul(p, x * ia, y * ib, b, b);
    CongRefl(p, y);
    CongMul(p, y, y, b * ib, 1);
    assert y * ib * b == y * (b * ib);
    CongTrans(p, x * ia * b, y * ib * b, y);
    CongMod(p, ia * b);
    CongRefl(p, x);
    CongMul(p, x, x, (ia * b) % p, ia * b);
    assert x * (ia * b) == x * ia * b;
    CongTrans(p, x * ((ia * b) % p), x * ia * b, y);
    ResiduesEqual(p, x * ((ia * b) % p), y);
    RemainderUnique(p, y, 0, y);
  }

  /** Two scaled polynomials that agree entry by entry are multiples, by the factor at the pivot. */
  lemma ScaledEqual(p: nat, t: Terms, u: Terms, ia: int, b: int, ib: int)
    requires p > 0 && Normal(p, u) && t.Keys == u.Keys
    requires Cong(p, b * ib, 1) && Scale(p, ia, t) == Scale(p, ib, u)
    ensures u == Scale(p, (ia * b) % p, t)
  {
    hide Cong;
    forall j | j in t ensures u[j] == Scale(p, (ia * b) % p, t)[j] {
      assert Scale(p, ia, t)[j] == Scale(p, ib, u)[j];
      CanonEntryFactor(p, t[j], u[j], ia, b, ib);
    }
  }

  /** Equal canonical forms come from multiples of one polynomial. */
  lemma SameCanonMultiples(p: nat, t: Terms, u: Terms) returns (c: nat)
    requires IsPrime(p) && Normal(p, t) && Normal(p, u) && Canon(p, t) == Canon(p, u)
    ensures 0 < c < p && u == Scale(p, c, t)
  {
    EmptyCanon(p, t);
    EmptyCanon(p, u);
    if t == map[] {
      c := 1;
      assert u == Scale(p, c, t);
    } else {
      SameKeys(p, t, u);
      hide Inverse, Canon, Scale, Divides, IsPrime;
      var k := Pivot(t.Keys);
      PivotInverse(p, t, k);
      PivotInverse(p, u, k);
      NonzeroMultiple(p, Inverse(p, t[k]), u[k]);
      ScaledEqual(p, t, u, Inverse(p, t[k]), u[k], Inverse(p, u[k]));
      c := (Inverse(p, t[k]) * u[k]) % p;
    }
  }

  lemma PivotInverse(p: nat, t: Terms, k: string)
    requires IsPrime(p) && Normal(p, t) && t != map[] && k == Pivot(t.Keys)
    ensures !Divides(p, t[k]) && !Divides(p, Inverse(p, t[k])) && Cong(p, t[k] * Inverse(p, t[k]), 1)
    ensures Canon(p, t) == Scale(p, Inverse(p, t[k]), t)
  {
    ResidueNonzero(p, t[k]);
    hide Pow, Divides, IsPrime, Scale;
    InverseWorks(p, t[k]);
  }

  lemma EmptyCanon(p: nat, t: Terms)
    requires p >= 2
    ensures Canon(p, t) == map[] <==> t == map[]
  {
    if t != map[] {
      var k := Pivot(t.Keys);
      assert k in Canon(p, t);
    }
  }

  lemma SameKeys(p: nat, t: Terms, u: Terms)
    requires p >= 2 && t != map[] && u != map[] && Canon(p, t) == Canon(p, u)
    ensures t.Keys == u.Keys
  {
    assert Canon(p, t).Keys == t.Keys;
    assert Canon(p, u).Keys == u.Keys;
  }

  /** Two constraints get the same canonical form if and only if one polynomial is a nonzero multiple
      of the other. */
  lemma SameCanonIffMultiple(p: nat, k: Constraint, l: Constraint)
    requires IsPrime(p)
    ensures Canon(p, Expand(p, k)) == Canon(p, Expand(p, l))
            <==> exists c: nat :: 0 < c < p && Expand(p, l) == Scale(p, c, Expand(p, k))
  {
    var t, u := Expand(p, k), Expand(p, l);
    ExpandNormal(p, k);
    ExpandNormal(p, l);
    if Canon(p, t) == Canon(p, u) {
      var c := SameCanonMultiples(p, t, u);
    }
    if c: nat :| 0 < c < p && u == Scale(p, c, t) {
      ResidueNonzero(p, c);
      MultiplesSameCanon(p, t, c);
    }
  }

  // ---- Matching ----

  /** Greedy matching: each text of the first list takes the first equal one left of the second. It
      leaves exactly the multiset differences, so nothing is left if and only if the two lists hold
      the same texts equally often. */
  method MatchTexts(ark: seq<string>, circom: seq<string>)
    returns (matched: nat, unmatched: seq<string>, remaining: seq<string>)
    ensures multiset(unmatched) == multiset(ark) - multiset(circom)
    ensures multiset(remaining) == multiset(circom) - multiset(ark)
    ensures matched + |unmatched| == |ark| && matched + |remaining| == |circom|
    ensures unmatched == [] && remaining == [] <==> multiset(ark) == multiset(circom)
  {
    matched, unmatched, remaining := 0, [], circom;
    ghost var pairs: multiset<string> := multiset{};
    for i := 0 to |ark|
      invariant multiset(ark[..i]) == multiset(unmatched) + pairs
      invariant multiset(circom) == multiset(remaining) + pairs
      invariant |pairs| == matched
      invariant Apart(unmatched, remaining)
    {
      assert ark[..i + 1] == ark[..i] + [ark[i]];
      var at := IndexOf(remaining, ark[i]);
      if at < |remaining| {
        matched := matched + 1;
        pairs := pairs + multiset{ark[i]};
        RemoveOne(unmatched, remaining, at);
        remaining := remaining[..at] + remaining[at + 1..];
      } else {
        unmatched := unmatched + [ark[i]];
      }
    }
    assert ark[..|ark|] == ark;
    Leftovers(ark, circom, unmatched, remaining, pairs);
  }

  ghost predicate Apart(unmatched: seq<string>, remaining: seq<string>) {
    forall x :: x in unmatched ==> x !in remaining
  }

  method IndexOf(forms: seq<string>, x: string) returns (i: nat)
    ensures i <= |forms|
    ensures i < |forms| ==> forms[i] == x
    ensures i == |forms| ==> x !in forms
  {
    i := 0;
    while i < |forms| && forms[i] != x
      invariant i <= |forms|
      invariant forall j :: 0 <= j < i ==> forms[j] != x
    {
      i := i + 1;
    }
  }

  lemma RemoveOne(unmatched: seq<string>, s: seq<string>, i: nat)
    requires i < |s| && Apart(unmatched, s)
    ensures multiset(s) == multiset(s[..i] + s[i + 1..]) + multiset{s[i]}
    ensures Apart(unmatched, s[..i] + s[i + 1..])
  {
    assert s == s[..i] + [s[i]] + s[i + 1..];
  }

  lemma Leftovers(ark: seq<string>, circom: seq<string>, unmatched: seq<string>, remaining: seq<string>,
      pairs: multiset<string>)
    requires multiset(ark) == multiset(unmatched) + pairs
    requires multiset(circom) == multiset(remaining) + pairs
    requires Apart(unmatched, remaining)
    ensures multiset(unmatched) == multiset(ark) - multiset(circom)
    ensures multiset(remaining) == multiset(circom) - multiset(ark)
    ensures unmatched == [] && remaining == [] <==> multiset(ark) == multiset(circom)
    ensures |ark| == |unmatched| + |pairs| && |circom| == |remaining| + |pairs|
  {
    forall x ensures multiset(unmatched)[x] == 0 || multiset(remaining)[x] == 0 {
      assert x in unmatched <==> x in multiset(unmatched);
      assert x in remaining <==> x in multiset(remaining);
    }
    assert |ark| == |multiset(ark)| && |circom| == |multiset(circom)|;
    assert |unmatched| == |multiset(unmatched)| && |remaining| == |multiset(remaining)|;
  }

  // ---- What the comparer decides ----

  /** The text a constraint is compared by. */
  ghost function Text(p: nat, k: Constraint): string
    requires p >= 2
  {
    Render(Canon(p, Expand(p, k)))
  }

  /** Multiples as polynomials are multiples at every assignment. */
  lemma MultipleMeans(p: nat, labels: set<Label>, k: Constraint, l: Constraint, c: nat)
    requires p >= 2 && KeysInjective(labels) && Over(k, labels) && Over(l, labels) && Expand(p, l) == Scale(p, c,
        Expand(p, k))
    ensures ProportionalBy(p, k, l, c)
  {
    hide Expand, Scale, Over, KeysInjective, Value;
    forall env: Label -> int | env("one") == 1 ensures Cong(p, Value(env, l), Mul(c, Value(env, k))) {
      MultipleAt(p, labels, k, l, c, env);
    }
  }

  lemma MultipleAt(p: nat, labels: set<Label>, k: Constraint, l: Constraint, c: nat, env: Label -> int)
    requires p >= 2 && KeysInjective(labels) && Over(k, labels) && Over(l, labels) && Expand(p, l) == Scale(p, c,
        Expand(p, k))
    requires env("one") == 1
    ensures Cong(p, Value(env, l), Mul(c, Value(env, k)))
  {
    hide *;
    var ev := key => KeyMeaning(env, labels, key);
    MeaningRespects(env, labels);
    ExpandMeans(p, ev, env, labels, k);
    ExpandMeans(p, ev, env, labels, l);
    var t := Expand(p, k);
    ScaleValue(p, ev, c, t);
    var e, f := Eval(ev, t), Eval(ev, Expand(p, l));
    CongSym(p, f, Value(env, l));
    CongRefl(p, c);
    CongMul(p, e, Value(env, k), c, c);
    CongTrans(p, Value(env, l), f, e * c);
    CongTrans(p, Value(env, l), e * c, Value(env, k) * c);
    MulIs(c, Value(env, k));
  }

  lemma MulIs(c: int, x: int)
    ensures Mul(c, x) == x * c
  {
  }

  lemma ScaledAt(p: nat, c: nat, t: Terms, key: string)
    requires p > 0
    ensures At(Scale(p, c, t), key) == (At(t, key) * c) % p
  {
    if key !in t { assert (0 * c) % p == 0; }
  }

  /** And back: constraints proportional at every assignment expand to multiples. */
  lemma MeansMultiple(p: nat, labels: set<Label>, k: Constraint, l: Constraint, c: nat)
    requires IsPrime(p) && p >= 3 && KeysInjective(labels) && Over(k, labels) && Over(l, labels)
    requires 0 < c < p && ProportionalBy(p, k, l, c)
    ensures Expand(p, l) == Scale(p, c, Expand(p, k))
  {
    var t, u := Expand(p, k), Expand(p, l);
    ExpandNormal(p, k);
    ExpandNormal(p, l);
    ResidueNonzero(p, c);
    ScaleNormal(p, t, c);
    ExpandKeys(p, labels, k);
    ExpandKeys(p, labels, l);
    hide Expand, Over, KeysInjective, ProportionalBy, Divides, IsPrime, Scale;
    forall key ensures At(u, key) == At(Scale(p, c, t), key) {
      ScaledAt(p, c, t, key);
      if key in t || key in u {
        var x, y :| x in labels && y in labels && PairKey(x, y) == key;
        SameCoefficient(p, labels, k, l, c, x, y);
      }
    }
    SameEverywhere(u, Scale(p, c, t), p);
  }

  lemma SameCoefficient(p: nat, labels: set<Label>, k: Constraint, l: Constraint, c: nat, x: Label, y: Label)
    requires IsPrime(p) && p >= 3 && KeysInjective(labels) && Over(k, labels) && Over(l, labels)
    requires x in labels && y in labels && ProportionalBy(p, k, l, c)
    requires Normal(p, Expand(p, l))
    ensures At(Expand(p, l), PairKey(x, y)) == (At(Expand(p, k), PairKey(x, y)) * c) % p
  {
    var a, b := At(Expand(p, k), PairKey(x, y)), At(Expand(p, l), PairKey(x, y));
    assert 0 <= b < p;
    hide *;
    ExpandCoeff(p, labels, k, x, y);
    ExpandCoeff(p, labels, l, x, y);
    CoefficientsProportional(p, k, l, c, x, y);
    var f, g := Coeff(k, x, y), Coeff(l, x, y);
    MulIs(c, f);
    CongTrans(p, b, g, f * c);
    CongRefl(p, c);
    CongMul(p, a, f, c, c);
    CongSym(p, a * c, f * c);
    CongTrans(p, b, f * c, a * c);
    ResiduesEqual(p, b, a * c);
    SmallResidue(p, b);
  }

  lemma SmallResidue(p: nat, b: nat)
    requires b < p
    ensures b % p == b
  {
  }

  lemma SameEverywhere(t: Terms, u: Terms, p: nat)
    requires Normal(p, t) && Normal(p, u) && forall key :: At(t, key) == At(u, key)
    ensures t == u
  {
    forall key ensures key in t <==> key in u {
      assert At(t, key) == At(u, key);
    }
    forall key | key in t ensures t[key] == u[key] {
      assert At(t, key) == At(u, key);
    }
  }

  /** With injective keys, canonical forms are equal exactly for constraints that are the same polynomial
      up to a nonzero factor. */
  lemma SameCanonIffProportional(p: nat, labels: set<Label>, k: Constraint, l: Constraint)
    requires IsPrime(p) && p >= 3 && KeysInjective(labels) && Over(k, labels) && Over(l, labels)
    ensures Canon(p, Expand(p, k)) == Canon(p, Expand(p, l)) <==> Proportional(p, k, l)
  {
    SameCanonIffMultiple(p, k, l);
    hide Expand, Over, KeysInjective, IsPrime, Scale, Canon, ProportionalBy;
    if c: nat :| 0 < c < p && Expand(p, l) == Scale(p, c, Expand(p, k)) {
      MultipleMeans(p, labels, k, l, c);
    }
    if c: nat :| 0 < c < p && ProportionalBy(p, k, l, c) {
      MeansMultiple(p, labels, k, l, c);
    }
  }

  /** The text of a form over this alphabet determines the form. */
  ghost predicate TextsInjective(p: nat, labels: set<Label>)
    requires p >= 2
  {
    forall k, l | Over(k, labels) && Over(l, labels) ::
      Text(p, k) == Text(p, l) ==> Canon(p, Expand(p, k)) == Canon(p, Expand(p, l))
  }

  /** Whenever the comparer matches two constraints over the alphabet, they are the same polynomial up to
      a nonzero factor. */
  ghost predicate Sound(p: nat, labels: set<Label>)
    requires p >= 2
  {
    forall k, l | Over(k, labels) && Over(l, labels) :: Text(p, k) == Text(p, l) ==> Proportional(p, k, l)
  }

  function Product(x: Label, y: Label): Constraint {
    Constraint([(x, 1)], [(y, 1)], [])
  }

  /** Two products that share a key without being the same product are matched, yet some assignment
      makes one zero and the other not. */
  lemma SharedKeyDiffers(p: nat, x: Label, y: Label, u: Label, v: Label)
    requires p >= 2 && PairKey(x, y) == PairKey(u, v) && !SamePair(x, y, u, v)
    ensures Text(p, Product(x, y)) == Text(p, Product(u, v)) && !Proportional(p, Product(x, y), Product(u, v))
  {
    SingleProduct(p, x, y);
    SingleProduct(p, u, v);
    hide Expand, Text, PairKey, Proportional;
    var z := Separating(x, y, u, v);
    NotProportional(p, x, y, u, v, z);
    SameExpansionSameText(p, Product(x, y), Product(u, v));
  }

  lemma SameExpansionSameText(p: nat, k: Constraint, l: Constraint)
    requires p >= 2 && Expand(p, k) == Expand(p, l)
    ensures Text(p, k) == Text(p, l)
  {
    hide Expand, Canon, Render;
  }

  /** A label in one of the products and not in the other. */
  lemma Separating(x: Label, y: Label, u: Label, v: Label) returns (z: Label)
    requires PairKey(x, y) == PairKey(u, v) && !SamePair(x, y, u, v)
    ensures z != "one" && (z in {x, y} <==> z !in {u, v}) && (z in {x, y} || z in {u, v})
  {
    if x != "one" && x !in {u, v} {
      z := x;
    } else if y != "one" && y !in {u, v} {
      z := y;
    } else if u != "one" && u !in {x, y} {
      z := u;
    } else if v != "one" && v !in {x, y} {
      z := v;
    } else {
      assert false;
    }
  }

  lemma NotProportional(p: nat, x: Label, y: Label, u: Label, v: Label, z: Label)
    requires p >= 2 && z != "one" && (z in {x, y} <==> z !in {u, v}) && (z in {x, y} || z in {u, v})
    ensures !Proportional(p, Product(x, y), Product(u, v))
  {
    var env: Label -> int := w => if w == z then 0 else 1;
    ProductValue(env, x, y);
    ProductValue(env, u, v);
    forall c: nat | 0 < c < p ensures !ProportionalBy(p, Product(x, y), Product(u, v), c) {
      assert env("one") == 1;
      var f, g := Value(env, Product(x, y)), Value(env, Product(u, v));
      assert (f == 0 && g == 1) || (f == 1 && g == 0);
      assert !Cong(p, g, Mul(c, f)) by {
        if f == 0 {
          RemainderUnique(p, 1, 0, 1);
        } else {
          RemainderUnique(p, 0 - c, -1, p - c);
        }
      }
    }
  }

  lemma ProductValue(env: Label -> int, x: Label, y: Label)
    ensures Value(env, Product(x, y)) == env(x) * env(y)
  {
    var k := Product(x, y);
    assert k.a[..0] == [] && k.b[..0] == [];
    assert Dot(env, []) == 0;
    assert Dot(env, k.a) == env(x) && Dot(env, k.b) == env(y);
  }

  /** The exact condition on the labels: the comparer is sound for every pair of constraints over an
      alphabet if and only if, over that alphabet, different products have different keys and different
      forms have different texts. */
  lemma SoundIff(p: nat, labels: set<Label>)
    requires IsPrime(p) && p >= 3 && "one" in labels
    ensures Sound(p, labels) <==> KeysInjective(labels) && TextsInjective(p, labels)
  {
    hide *;
    if KeysInjective(labels) && TextsInjective(p, labels) { InjectiveIsSound(p, labels); }
    if Sound(p, labels) {
      SoundNeedsKeys(p, labels);
      SoundNeedsTexts(p, labels);
    }
  }

  lemma InjectiveIsSound(p: nat, labels: set<Label>)
    requires IsPrime(p) && p >= 3 && KeysInjective(labels) && TextsInjective(p, labels)
    ensures Sound(p, labels)
  {
    hide Over, KeysInjective, Text, Canon, Expand, Proportional, IsPrime;
    forall k, l | Over(k, labels) && Over(l, labels) && Text(p, k) == Text(p, l) ensures Proportional(p, k, l) {
      SameCanonIffProportional(p, labels, k, l);
    }
  }

  lemma SoundNeedsKeys(p: nat, labels: set<Label>)
    requires p >= 2 && "one" in labels && Sound(p, labels)
    ensures KeysInjective(labels)
  {
    hide Text, PairKey, Proportional, SamePair;
    forall x, y, u, v | x in labels && y in labels && u in labels && v in labels && PairKey(x, y) == PairKey(u, v)
      ensures SamePair(x, y, u, v)
    {
      if !SamePair(x, y, u, v) {
        assert Over(Product(x, y), labels) && Over(Product(u, v), labels);
        SharedKeyDiffers(p, x, y, u, v);
      }
    }
  }

  lemma SoundNeedsTexts(p: nat, labels: set<Label>)
    requires IsPrime(p) && p >= 3 && Sound(p, labels) && KeysInjective(labels)
    ensures TextsInjective(p, labels)
  {
    hide Over, KeysInjective, Text, Canon, Expand, Proportional, IsPrime;
    forall k, l | Over(k, labels) && Over(l, labels) && Text(p, k) == Text(p, l)
      ensures Canon(p, Expand(p, k)) == Canon(p, Expand(p, l))
    {
      SameCanonIffProportional(p, labels, k, l);
    }
  }

  /** The keys constraints over an alphabet can have. */
  function KeysOf(labels: set<Label>): set<string> {
    set x, y | x in labels && y in labels :: PairKey(x, y)
  }

  lemma FormKeys(p: nat, labels: set<Label>, k: Constraint)
    requires p >= 2 && Over(k, labels)
    ensures Canon(p, Expand(p, k)).Keys <= KeysOf(labels)
  {
    var t := Expand(p, k);
    ExpandKeys(p, labels, k);
    hide Expand, Over;
    assert Canon(p, t).Keys == t.Keys;
    forall key | key in t ensures key in KeysOf(labels) {
      var x, y :| x in labels && y in labels && PairKey(x, y) == key;
    }
  }

  /** A condition on the alphabet's keys alone: different products have different keys, and no key begins
      with another key, "=", a number and ";". */
  lemma SeparateKeysSound(p: nat, labels: set<Label>)
    requires IsPrime(p) && p >= 3 && KeysInjective(labels) && NoEntryPrefix(KeysOf(labels))
    ensures Sound(p, labels)
  {
    hide Over, KeysInjective, Canon, Expand, IsPrime, Sound, Render, NoEntryPrefix, KeysOf;
    forall k, l | Over(k, labels) && Over(l, labels) && Text(p, k) == Text(p, l)
      ensures Canon(p, Expand(p, k)) == Canon(p, Expand(p, l))
    {
      FormKeys(p, labels, k);
      FormKeys(p, labels, l);
      RenderInjective(KeysOf(labels), Canon(p, Expand(p, k)), Canon(p, Expand(p, l)));
    }
    InjectiveIsSound(p, labels);
  }

  /** Labels without "*" and ";" meet it. */
  lemma PlainLabelsSound(p: nat, labels: set<Label>)
    requires IsPrime(p) && p >= 3
    requires forall x :: x in labels ==> '*' !in x && ';' !in x
    ensures Sound(p, labels)
  {
    StarFreeKeys(labels);
    forall key | key in KeysOf(labels) ensures ';' !in key {
      var x, y :| x in labels && y in labels && PairKey(x, y) == key;
    }
    hide *;
    PlainKeysSeparate(KeysOf(labels));
    SeparateKeysSound(p, labels);
  }

  // ---- The comparer ----

  ghost function Texts(p: nat, ks: seq<Constraint>): (fs: seq<string>)
    requires p >= 2
    ensures |fs| == |ks|
  {
    seq(|ks|, i requires 0 <= i < |ks| => Text(p, ks[i]))
  }

  ghost predicate SatisfiesAll(p: nat, env: Label -> int, ks: seq<Constraint>)
    requires p > 0
  {
    forall i :: 0 <= i < |ks| ==> Satisfies(p, env, ks[i])
  }

  ghost predicate AllOver(ks: seq<Constraint>, labels: set<Label>) {
    forall i :: 0 <= i < |ks| ==> Over(ks[i], labels)
  }

  /** Constraints that are the same polynomial up to a nonzero factor hold at the same assignments. */
  lemma ProportionalSatisfies(p: nat, env: Label -> int, k: Constraint, l: Constraint)
    requires IsPrime(p) && env("one") == 1 && Proportional(p, k, l)
    ensures Satisfies(p, env, k) <==> Satisfies(p, env, l)
  {
    var c: nat :| 0 < c < p && ProportionalBy(p, k, l, c);
    var f, g := Value(env, k), Value(env, l);
    assert Cong(p, g, Mul(c, f));
    assert Satisfies(p, env, k) == Divides(p, f) && Satisfies(p, env, l) == Divides(p, g);
    ResidueNonzero(p, c);
    hide *;
    MulIs(c, f);
    CongZero(p, g, f * c);
    if Divides(p, f) {
      DividesProduct(p, f, c);
    } else if Divides(p, f * c) {
      assert f * c == c * f;
      CancelFactor(p, c, f);
    }
  }

  lemma HalfSound(p: nat, env: Label -> int, labels: set<Label>, ks: seq<Constraint>, ls: seq<Constraint>)
    requires IsPrime(p) && Sound(p, labels) && env("one") == 1 && AllOver(ks, labels) && AllOver(ls, labels)
    requires multiset(Texts(p, ks)) == multiset(Texts(p, ls)) && SatisfiesAll(p, env, ks)
    ensures SatisfiesAll(p, env, ls)
  {
    hide Satisfies, Text, Over, Proportional;
    forall i | 0 <= i < |ls| ensures Satisfies(p, env, ls[i]) {
      var f := Texts(p, ls)[i];
      assert f in multiset(Texts(p, ls));
      assert f in Texts(p, ks);
      var j :| 0 <= j < |ks| && Texts(p, ks)[j] == f;
      assert Over(ks[j], labels) && Over(ls[i], labels) && Text(p, ks[j]) == Text(p, ls[i]);
      ProportionalSatisfies(p, env, ks[j], ls[i]);
    }
  }

  /** Over an alphabet on which the comparer is sound, no leftovers on either side means that the two
      constraint systems are satisfied by exactly the same assignments of the field. */
  lemma NoLeftoversSameSolutions(p: nat, env: Label -> int, labels: set<Label>, ark: seq<Constraint>,
      circom: seq<Constraint>)
    requires IsPrime(p) && Sound(p, labels) && env("one") == 1 && AllOver(ark, labels) && AllOver(circom, labels)
    requires multiset(Texts(p, ark)) == multiset(Texts(p, circom))
    ensures SatisfiesAll(p, env, ark) <==> SatisfiesAll(p, env, circom)
  {
    hide Sound, SatisfiesAll, Texts, AllOver;
    if SatisfiesAll(p, env, ark) { HalfSound(p, env, labels, ark, circom); }
    if SatisfiesAll(p, env, circom) { HalfSound(p, env, labels, circom, ark); }
  }

  /** The whole comparison: expand, canonicalize and write down both sides, then match the texts. */
  method DiffMatrices(p: nat, ark: seq<Constraint>, circom: seq<Constraint>) returns (same: bool)
    requires p >= 2
    ensures same <==> multiset(Texts(p, ark)) == multiset(Texts(p, circom))
  {
    var remaining := CanonicalTexts(p, circom);
    var texts := CanonicalTexts(p, ark);
    var matched, unmatched, left := MatchTexts(texts, remaining);
    same := unmatched == [] && left == [];
  }

  method CanonicalTexts(p: nat, ks: seq<Constraint>) returns (fs: seq<string>)
    requires p >= 2
    ensures fs == Texts(p, ks)
  {
    fs := [];
    for i := 0 to |ks|
      invariant |fs| == i
      invariant forall j :: 0 <= j < i ==> fs[j] == Text(p, ks[j])
    {
      hide Canon, Expand, Render;
      var t := ExpandConstraint(p, ks[i]);
      var f := Canonicalize(p, t);
      var text := RenderTerms(f);
      fs := fs + [text];
    }
  }

  // ---- Labels that defeat it ----

  lemma SingleProduct(p: nat, x: Label, y: Label)
    requires p >= 2
    ensures Expand(p, Product(x, y)) == map[PairKey(x, y) := 1]
  {
    var k := Product(x, y);
    RemainderUnique(p, 1, 0, 1);
    assert k.a[..0] == [] && k.b[..0] == [];
    assert AddRow(p, map[], (x, 1), []) == map[];
    assert AddRow(p, map[], (x, 1), k.b) == AddTerm(p, map[], PairKey(x, y), (1 * 1) % p);
    assert AddProduct(p, map[], [], k.b) == map[];
    assert AddProduct(p, map[], k.a, k.b) == AddRow(p, map[], (x, 1), k.b);
  }

  /** Labels containing the joining character defeat the comparer: a variable named "x*y" and the
      product of x and y get one text, but not the same solutions. */
  lemma StarLabelsCollide(p: nat)
    requires p >= 2
    ensures Text(p, Product("x", "y")) == Text(p, Product("x*y", "one"))
    ensures !Proportional(p, Product("x", "y"), Product("x*y", "one"))
  {
    assert PairKey("x", "y") == "x*y" == PairKey("x*y", "one");
    SharedKeyDiffers(p, "x", "y", "x*y", "one");
  }

  function Sum(a: Label, b: Label): Constraint {
    Constraint([(a, 1), (b, 1)], [("one", 1)], [])
  }

  function Spelled(a: Label, b: Label): Label {
    a + "=1;" + b
  }

  /** So does a label that spells out a sum, whatever the two others: a + b, and a variable named
      "a=1;b". */
  lemma SpelledLabelCollides(p: nat, a: Label, b: Label)
    requires p >= 2 && a != "one" && b != "one" && a != b && LexLe(a, b)
    ensures Text(p, Sum(a, b)) == Text(p, Product(Spelled(a, b), "one"))
    ensures !Proportional(p, Sum(a, b), Product(Spelled(a, b), "one"))
  {
    SpelledIsNew(a, b);
    SumForm(p, a, b);
    SingleForm(p, Spelled(a, b));
    SumText(a, b);
    SingleText(Spelled(a, b));
    assert Spelled(a, b) + "=1" == a + "=1;" + b + "=1";
    hide Expand, Canon, Render, Proportional;
    SumNotProportional(p, a, b, Spelled(a, b));
  }

  lemma SpelledIsNew(a: Label, b: Label)
    ensures Spelled(a, b) != "one" && Spelled(a, b) != a && Spelled(a, b) != b
  {
    assert Spelled(a, b)[|a| + 2] == ';';
    assert |Spelled(a, b)| == |a| + |b| + 3;
  }

  /** So an alphabet holding two labels and the one that spells out their sum is not sound. */
  lemma SpelledAlphabetUnsound(p: nat, labels: set<Label>, a: Label, b: Label)
    requires p >= 2 && a != "one" && b != "one" && a != b && LexLe(a, b)
    requires {"one", a, b, Spelled(a, b)} <= labels
    ensures !Sound(p, labels)
  {
    SumOver(labels, a, b);
    ProductOver(labels, Spelled(a, b), "one");
    hide *;
    SpelledLabelCollides(p, a, b);
    Unsound(p, labels, Sum(a, b), Product(Spelled(a, b), "one"));
  }

  lemma SumOver(labels: set<Label>, a: Label, b: Label)
    requires {"one", a, b} <= labels
    ensures Over(Sum(a, b), labels)
  {
  }

  lemma ProductOver(labels: set<Label>, x: Label, y: Label)
    requires {"one", x, y} <= labels
    ensures Over(Product(x, y), labels)
  {
  }

  lemma Unsound(p: nat, labels: set<Label>, k: Constraint, l: Constraint)
    requires p >= 2 && Over(k, labels) && Over(l, labels) && Text(p, k) == Text(p, l) && !Proportional(p, k, l)
    ensures !Sound(p, labels)
  {
    hide Text, Proportional, Over;
  }

  lemma PowOne(n: nat)
    ensures Pow(1, n) == 1
  {
    if n > 0 { PowOne(n - 1); }
  }

  lemma CanonOfOnes(p: nat, t: Terms)
    requires p >= 2 && t != map[] && forall k :: k in t ==> t[k] == 1
    ensures Canon(p, t) == t
  {
    RemainderUnique(p, 1, 0, 1);
    PowOne(p - 2);
    hide Pow;
    assert Inverse(p, 1) == 1;
    assert Scale(p, 1, t) == t;
  }

  lemma SumForm(p: nat, x: Label, y: Label)
    requires p >= 2 && x != "one" && y != "one" && x != y
    ensures Canon(p, Expand(p, Sum(x, y))) == map[x := 1, y := 1]
  {
    var a: Row := [(x, 1), (y, 1)];
    var b: Row := [("one", 1)];
    RemainderUnique(p, 1, 0, 1);
    assert a[..1] == [(x, 1)] && a[..1][..0] == [] && b[..0] == [];
    assert PairKey(x, "one") == x && PairKey(y, "one") == y;
    assert AddProduct(p, map[], [], b) == map[];
    assert AddRow(p, map[], (x, 1), []) == map[];
    assert AddRow(p, map[], (x, 1), b) == map[x := 1];
    assert AddProduct(p, map[], a[..1], b) == map[x := 1];
    assert AddRow(p, map[x := 1], (y, 1), []) == map[x := 1];
    assert AddRow(p, map[x := 1], (y, 1), b) == map[x := 1, y := 1];
    assert AddProduct(p, map[], a, b) == map[x := 1, y := 1];
    assert x in map[x := 1, y := 1];
    CanonOfOnes(p, map[x := 1, y := 1]);
  }

  lemma SingleForm(p: nat, x: Label)
    requires p >= 2 && x != "one"
    ensures Canon(p, Expand(p, Product(x, "one"))) == map[x := 1]
  {
    SingleProduct(p, x, "one");
    hide Expand;
    assert x in map[x := 1];
    CanonOfOnes(p, map[x := 1]);
  }

  lemma LexSelf(s: string)
    ensures LexLe(s, s)
  {
    LexTotal(s, s);
  }

  lemma SumText(x: Label, y: Label)
    requires x != y && LexLe(x, y)
    ensures Render(map[x := 1, y := 1]) == x + "=1;" + y + "=1"
  {
    hide *;
    var t: Terms := map[x := 1, y := 1];
    PairLeast(x, y);
    PairTerms(x, y);
    RenderIs(t);
    RenderIs(map[y := 1]);
    EntriesHead(t, x);
    MoreShape(map[y := 1]);
    SingleText(y);
    OneEntry(x);
    JoinedText(x, y);
  }

  lemma PairTerms(x: Label, y: Label)
    requires x != y
    ensures var t: Terms := map[x := 1, y := 1];
            t != map[] && x in t && t[x] == 1 && t - {x} == map[y := 1] && map[y := 1] != map[]
  {
    var t: Terms := map[x := 1, y := 1];
    assert x in t && y in map[y := 1];
    assert (t - {x}).Keys == {y};
  }

  lemma JoinedText(x: string, y: string)
    ensures x + "=1" + ([';'] + (y + "=1")) == x + "=1;" + y + "=1"
  {
    assert "=1;" == "=1" + [';'];
    ConcatAssociates(x + "=1", [';'], y + "=1");
    ConcatAssociates(x, "=1", [';']);
    ConcatAssociates(x + "=1;", y, "=1");
  }

  lemma PairLeast(x: Label, y: Label)
    requires LexLe(x, y)
    ensures IsLeast(x, map[x := 1, y := 1].Keys)
  {
    LexSelf(x);
    hide LexLe;
  }

  lemma RenderIs(t: Terms)
    requires t != map[]
    ensures Render(t) == Entries(t)
  {
    hide Entries;
  }

  lemma OneEntry(x: string)
    ensures Entry(x, 1) == x + "=1"
  {
    assert Digits(1) == "1";
  }

  lemma SingleText(x: Label)
    ensures Render(map[x := 1]) == x + "=1"
  {
    var t: Terms := map[x := 1];
    assert x in t;
    var k := Pivot(t.Keys);
    assert k == x;
    assert t - {k} == map[];
    assert Digits(1) == "1";
    assert x + ['='] + "1" == x + "=1";
  }

  lemma SumNotProportional(p: nat, x: Label, y: Label, z: Label)
    requires p >= 2 && x != "one" && y != "one" && z != x && z != y
    ensures !Proportional(p, Sum(x, y), Product(z, "one"))
  {
    var k, l := Sum(x, y), Product(z, "one");
    var env: Label -> int := w => if w == x || w == y then 0 else 1;
    ProductValue(env, z, "one");
    assert k.a[..1] == [(x, 1)] && k.a[..1][..0] == [] && k.b[..0] == [];
    assert Dot(env, k.a[..1]) == 0 && Dot(env, k.a) == 0;
    assert Value(env, k) == 0 && Value(env, l) == 1;
    forall c: nat | 0 < c < p ensures !ProportionalBy(p, k, l, c) {
      RemainderUnique(p, 1, 0, 1);
      assert env("one") == 1 && !Cong(p, 1, Mul(c, 0));
    }
  }
}
