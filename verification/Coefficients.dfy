/** The polynomial a constraint stands for, coefficient by coefficient and without keys: what expansion
    should compute, and what the values at assignments determine. */
module Coefficients {
  import opened Field
  import opened R1cs

  function RowCoeff(row: Row, x: Label): int {
    if row == [] then 0
    else RowCoeff(row[..|row| - 1], x) + (if row[|row| - 1].0 == x then row[|row| - 1].1 else 0)
  }

  /** The coefficient of the product of `u` and `v` in A*B - C; "one" is the constant. */
  function Coeff(k: Constraint, u: Label, v: Label): int {
    (if u == v then RowCoeff(k.a, u) * RowCoeff(k.b, u)
     else RowCoeff(k.a, u) * RowCoeff(k.b, v) + RowCoeff(k.a, v) * RowCoeff(k.b, u))
    - (if u == "one" then RowCoeff(k.c, v) else if v == "one" then RowCoeff(k.c, u) else 0)
  }

  function At(t: Terms, key: string): nat {
    if key in t then t[key] else 0
  }

  // ---- Expansion computes these coefficients when keys are injective ----

  /** What a row contributes to the product of `u` and `v` when multiplied by the label `x`. */
  ghost function Partner(row: Row, x: Label, u: Label, v: Label): int {
    if row == [] then 0
    else
      Partner(row[..|row| - 1], x, u, v) + (if SamePair(x, row[|row| - 1].0, u, v) then row[|row| - 1].1 else 0)
  }

  lemma PartnerSnoc(init: Row, y: (Label, int), x: Label, u: Label, v: Label)
    ensures Partner(init + [y], x, u, v) == Partner(init, x, u, v) + (if SamePair(x, y.0, u, v) then y.1 else 0)
    ensures RowCoeff(init + [y], u) == RowCoeff(init, u) + (if y.0 == u then y.1 else 0)
  {
    assert (init + [y])[..|init|] == init;
  }

  lemma {:induction false} PartnerIs(row: Row, x: Label, u: Label, v: Label)
    ensures Partner(row, x, u, v) == if x == u then RowCoeff(row, v) else if x == v then RowCoeff(row, u) else 0
  {
    if row != [] { PartnerIs(row[..|row| - 1], x, u, v); }
  }

  lemma AddTermAt(p: nat, t: Terms, key: string, coeff: int, at: string)
    requires p > 0
    ensures Cong(p, At(AddTerm(p, t, key, coeff), at), At(t, at) + (if key == at then coeff else 0))
  {
    hide Cong;
    CongRefl(p, At(t, at));
    CongMod(p, At(t, key) + coeff);
  }

  lemma SameKeyIff(labels: set<Label>, x: Label, y: Label, u: Label, v: Label)
    requires KeysInjective(labels) && x in labels && y in labels && u in labels && v in labels
    ensures PairKey(x, y) == PairKey(u, v) <==> SamePair(x, y, u, v)
  {
    hide PairKey;
    if SamePair(x, y, u, v) { PairKeyOfSame(x, y, u, v); }
  }

  /** One more congruent step: a reduced term was added, or nothing was. */
  lemma AddStep(p: nat, after: int, before: int, base: int, coeff: int, hit: bool)
    requires p > 0 && Cong(p, before, base) && Cong(p, after, before + (if hit then coeff % p else 0))
    ensures Cong(p, after, base + (if hit then coeff else 0))
  {
    hide Cong;
    if hit {
      CongMod(p, coeff);
      CongAdd(p, before, base, coeff % p, coeff);
      CongTrans(p, after, before + coeff % p, base + coeff);
    } else {
      CongTrans(p, after, before, base);
    }
  }

  lemma {:induction false} AddRowAt(p: nat, labels: set<Label>, t: Terms, x: (Label, int), row: Row, u: Label, v: Label)
    requires p > 0 && KeysInjective(labels) && x.0 in labels && RowOver(row, labels) && u in labels && v in labels
    ensures Cong(p, At(AddRow(p, t, x, row), PairKey(u, v)), At(t, PairKey(u, v)) + Mul(x.1, Partner(row, x.0, u, v)))
  {
    hide *;
    if row == [] {
      RowEmpty(p, t, x, u, v);
      CongRefl(p, At(t, PairKey(u, v)));
    } else {
      var init, y := row[..|row| - 1], row[|row| - 1];
      assert row == init + [y];
      RowSplit(init, y, labels);
      AddRowAt(p, labels, t, x, init, u, v);
      AddRowSnoc(p, t, x, init, y);
      PartnerSnoc(init, y, x.0, u, v);
      SameKeyIff(labels, x.0, y.0, u, v);
      var s, at := AddRow(p, t, x, init), PairKey(u, v);
      AddTermAt(p, s, PairKey(x.0, y.0), Mul(x.1, y.1) % p, at);
      AddStep(p, At(AddRow(p, t, x, row), at), At(s, at), At(t, at) + Mul(x.1, Partner(init, x.0, u, v)),
              Mul(x.1, y.1), SamePair(x.0, y.0, u, v));
      MulAdd(x.1, Partner(init, x.0, u, v), y.1);
    }
  }

  lemma RowEmpty(p: nat, t: Terms, x: (Label, int), u: Label, v: Label)
    requires p > 0
    ensures AddRow(p, t, x, []) == t && Mul(x.1, Partner([], x.0, u, v)) == 0
  {
  }

  lemma RowSplit(init: Row, y: (Label, int), labels: set<Label>)
    requires RowOver(init + [y], labels)
    ensures RowOver(init, labels) && y.0 in labels
  {
    assert (init + [y])[|init|] == y;
    assert forall i :: 0 <= i < |init| ==> (init + [y])[i] == init[i];
  }

  lemma MulAdd(a: int, b: int, c: int)
    ensures Mul(a, b + c) == Mul(a, b) + Mul(a, c) && Mul(a, b + 0) == Mul(a, b)
  {
  }

  ghost function PairSum(a: Row, b: Row, u: Label, v: Label): int {
    if a == [] then 0
    else PairSum(a[..|a| - 1], b, u, v) + Mul(a[|a| - 1].1, Partner(b, a[|a| - 1].0, u, v))
  }

  lemma PairSumSnoc(init: Row, x: (Label, int), b: Row, u: Label, v: Label)
    ensures PairSum(init + [x], b, u, v) == PairSum(init, b, u, v) + Mul(x.1, Partner(b, x.0, u, v))
    ensures PairSum([], b, u, v) == 0
  {
    assert (init + [x])[..|init|] == init;
  }

  lemma AddProductSnoc(p: nat, t: Terms, init: Row, x: (Label, int), b: Row)
    requires p > 0
    ensures AddProduct(p, t, init + [x], b) == AddRow(p, AddProduct(p, t, init, b), x, b)
    ensures AddProduct(p, t, [], b) == t
  {
    assert (init + [x])[..|init|] == init;
  }

  lemma {:induction false} AddProductAt(p: nat, labels: set<Label>, t: Terms, a: Row, b: Row, u: Label, v: Label)
    requires p > 0 && KeysInjective(labels) && RowOver(a, labels) && RowOver(b, labels) && u in labels && v in labels
    ensures Cong(p, At(AddProduct(p, t, a, b), PairKey(u, v)), At(t, PairKey(u, v)) + PairSum(a, b, u, v))
  {
    hide *;
    var at := PairKey(u, v);
    if a == [] {
      AddProductSnoc(p, t, [], ("one", 0), b);
      PairSumSnoc([], ("one", 0), b, u, v);
      CongRefl(p, At(t, at));
    } else {
      var init, x := a[..|a| - 1], a[|a| - 1];
      assert a == init + [x];
      RowSplit(init, x, labels);
      AddProductAt(p, labels, t, init, b, u, v);
      AddProductSnoc(p, t, init, x, b);
      PairSumSnoc(init, x, b, u, v);
      var s, more := AddProduct(p, t, init, b), Mul(x.1, Partner(b, x.0, u, v));
      AddRowAt(p, labels, s, x, b, u, v);
      CongRefl(p, more);
      CongAdd(p, At(s, at), At(t, at) + PairSum(init, b, u, v), more, more);
      CongTrans(p, At(AddProduct(p, t, a, b), at), At(s, at) + more, At(t, at) + PairSum(init, b, u, v) + more);
    }
  }

  lemma SubRowSnoc(p: nat, t: Terms, init: Row, z: (Label, int))
    requires p > 0
    ensures SubRow(p, t, init + [z]) == AddTerm(p, SubRow(p, t, init), PairKey(z.0, "one"), (-z.1) % p)
    ensures SubRow(p, t, []) == t
  {
    assert (init + [z])[..|init|] == init;
  }

  lemma {:induction false} SubRowAt(p: nat, labels: set<Label>, t: Terms, c: Row, u: Label, v: Label)
    requires p > 0 && KeysInjective(labels) && RowOver(c, labels) && "one" in labels && u in labels && v in labels
    ensures Cong(p, At(SubRow(p, t, c), PairKey(u, v)), At(t, PairKey(u, v)) - Partner(c, "one", u, v))
  {
    hide *;
    var at := PairKey(u, v);
    if c == [] {
      SubRowSnoc(p, t, [], ("one", 0));
      NoPartner("one", u, v);
      CongRefl(p, At(t, at));
    } else {
      var init, z := c[..|c| - 1], c[|c| - 1];
      assert c == init + [z];
      RowSplit(init, z, labels);
      SubRowAt(p, labels, t, init, u, v);
      SubRowSnoc(p, t, init, z);
      PartnerSnoc(init, z, "one", u, v);
      SameKeyIff(labels, z.0, "one", u, v);
      PairSwap(z.0, "one", u, v);
      var s := SubRow(p, t, init);
      AddTermAt(p, s, PairKey(z.0, "one"), (-z.1) % p, at);
      AddStep(p, At(SubRow(p, t, c), at), At(s, at), At(t, at) - Partner(init, "one", u, v), -z.1, SamePair("one",
          z.0, u, v));
    }
  }

  lemma NoPartner(x: Label, u: Label, v: Label)
    ensures Partner([], x, u, v) == 0
  {
  }

  lemma PairSwap(x: Label, y: Label, u: Label, v: Label)
    ensures SamePair(x, y, u, v) <==> SamePair(y, x, u, v)
  {
  }

  lemma {:induction false} PairSumIs(a: Row, b: Row, u: Label, v: Label)
    ensures PairSum(a, b, u, v) ==
            if u == v then Mul(RowCoeff(a, u), RowCoeff(b, u))
            else Mul(RowCoeff(a, u), RowCoeff(b, v)) + Mul(RowCoeff(a, v), RowCoeff(b, u))
  {
    if a != [] {
      var init, x := a[..|a| - 1], a[|a| - 1];
      assert a == init + [x];
      PairSumIs(init, b, u, v);
      hide *;
      PairSumSnoc(init, x, b, u, v);
      PartnerIs(b, x.0, u, v);
      PartnerSnoc(init, x, x.0, u, v);
      PartnerSnoc(init, x, x.0, v, u);
      MulDist(RowCoeff(init, u), x.1, RowCoeff(b, v));
      MulDist(RowCoeff(init, v), x.1, RowCoeff(b, u));
      MulDist(RowCoeff(init, u), x.1, RowCoeff(b, u));
    }
  }

  lemma MulDist(a: int, b: int, c: int)
    ensures Mul(a + b, c) == Mul(a, c) + Mul(b, c) && Mul(a + 0, c) == Mul(a, c) && Mul(b, 0) == 0
  {
  }

  lemma CoeffIs(k: Constraint, u: Label, v: Label)
    ensures Coeff(k, u, v) == PairSum(k.a, k.b, u, v) - Partner(k.c, "one", u, v)
  {
    hide RowCoeff, PairSum, Partner;
    PairSumIs(k.a, k.b, u, v);
    PartnerIs(k.c, "one", u, v);
  }

  lemma ExpandShape(p: nat, k: Constraint, labels: set<Label>, key: string)
    requires p > 0 && Over(k, labels)
    ensures Expand(p, k) == SubRow(p, AddProduct(p, map[], k.a, k.b), k.c) && At(map[], key) == 0
    ensures RowOver(k.a, labels) && RowOver(k.b, labels) && RowOver(k.c, labels) && "one" in labels
  {
    hide SubRow, AddProduct;
  }

  /** With injective keys, the expansion holds at each key the coefficient of its product. */
  lemma ExpandCoeff(p: nat, labels: set<Label>, k: Constraint, u: Label, v: Label)
    requires p > 0 && KeysInjective(labels) && Over(k, labels) && u in labels && v in labels
    ensures Cong(p, At(Expand(p, k), PairKey(u, v)), Coeff(k, u, v))
  {
    hide *;
    var at := PairKey(u, v);
    ExpandShape(p, k, labels, at);
    CoeffIs(k, u, v);
    var t := AddProduct(p, map[], k.a, k.b);
    AddProductAt(p, labels, map[], k.a, k.b, u, v);
    SubRowAt(p, labels, t, k.c, u, v);
    CombineCong(p, At(Expand(p, k), at), At(t, at), PairSum(k.a, k.b, u, v), Partner(k.c, "one", u, v));
  }

  // ---- Every key of an expansion is that of a product over the alphabet ----

  ghost predicate KeysOver(t: Terms, labels: set<Label>) {
    forall key :: key in t ==> exists u, v :: u in labels && v in labels && PairKey(u, v) == key
  }

  lemma {:induction false} AddRowKeys(p: nat, labels: set<Label>, t: Terms, x: (Label, int), row: Row)
    requires p > 0 && x.0 in labels && RowOver(row, labels) && KeysOver(t, labels)
    ensures KeysOver(AddRow(p, t, x, row), labels)
  {
    hide PairKey;
    if row != [] { AddRowKeys(p, labels, t, x, row[..|row| - 1]); }
  }

  lemma {:induction false} AddProductKeys(p: nat, labels: set<Label>, t: Terms, a: Row, b: Row)
    requires p > 0 && RowOver(a, labels) && RowOver(b, labels) && KeysOver(t, labels)
    ensures KeysOver(AddProduct(p, t, a, b), labels)
  {
    hide KeysOver;
    if a != [] {
      AddProductKeys(p, labels, t, a[..|a| - 1], b);
      AddRowKeys(p, labels, AddProduct(p, t, a[..|a| - 1], b), a[|a| - 1], b);
    }
  }

  lemma {:induction false} SubRowKeys(p: nat, labels: set<Label>, t: Terms, c: Row)
    requires p > 0 && RowOver(c, labels) && "one" in labels && KeysOver(t, labels)
    ensures KeysOver(SubRow(p, t, c), labels)
  {
    hide PairKey;
    if c != [] { SubRowKeys(p, labels, t, c[..|c| - 1]); }
  }

  lemma ExpandKeys(p: nat, labels: set<Label>, k: Constraint)
    requires p > 0 && Over(k, labels)
    ensures KeysOver(Expand(p, k), labels)
  {
    hide AddProduct, SubRow;
    AddProductKeys(p, labels, map[], k.a, k.b);
    SubRowKeys(p, labels, AddProduct(p, map[], k.a, k.b), k.c);
  }

  // ---- Values determine coefficients ----

  /** The assignment that is `a` at `u`, `b` at `v`, and zero elsewhere. */
  function Env(u: Label, a: int, v: Label, b: int): Label -> int {
    x => if x == "one" then 1 else if x == u then a else if x == v then b else 0
  }

  lemma {:induction false} DotOne(row: Row, u: Label, a: int)
    requires u != "one"
    ensures Dot(Env(u, a, u, a), row) == RowCoeff(row, "one") + a * RowCoeff(row, u)
  {
    if row != [] {
      var init, y := row[..|row| - 1], row[|row| - 1];
      DotOne(init, u, a);
      if y.0 == u { assert a * (RowCoeff(init, u) + y.1) == a * RowCoeff(init, u) + y.1 * a; }
    }
  }

  lemma {:induction false} DotTwo(row: Row, u: Label, v: Label)
    requires u != "one" && v != "one" && u != v
    ensures Dot(Env(u, 1, v, 1), row) == RowCoeff(row, "one") + RowCoeff(row, u) + RowCoeff(row, v)
  {
    if row != [] { DotTwo(row[..|row| - 1], u, v); }
  }

  lemma Foil(a: int, b: int, c: int, d: int)
    ensures (a + b) * (c + d) == a * c + a * d + b * c + b * d
    ensures (a - b) * (c - d) == a * c - a * d - b * c + b * d
  {
    assert (a + b) * (c + d) == (a + b) * c + (a + b) * d;
    assert (a - b) * (c - d) == (a - b) * c - (a - b) * d;
  }

  /** The constant, linear and square coefficients of one label from three values. */
  lemma OneLabel(k: Constraint, u: Label)
    requires u != "one"
    ensures Value(Env(u, 0, u, 0), k) == Coeff(k, "one", "one")
    ensures Value(Env(u, 1, u, 1), k) - Value(Env(u, -1, u, -1), k) == 2 * Coeff(k, u, "one")
    ensures Value(Env(u, 1, u, 1), k) + Value(Env(u, -1, u, -1), k) - 2 * Value(Env(u, 0, u, 0), k)
            == 2 * Coeff(k, u, u)
  {
    DotOne(k.a, u, 0); DotOne(k.b, u, 0); DotOne(k.c, u, 0);
    DotOne(k.a, u, 1); DotOne(k.b, u, 1); DotOne(k.c, u, 1);
    DotOne(k.a, u, -1); DotOne(k.b, u, -1); DotOne(k.c, u, -1);
    hide Dot, RowCoeff;
    Foil(RowCoeff(k.a, "one"), RowCoeff(k.a, u), RowCoeff(k.b, "one"), RowCoeff(k.b, u));
  }

  lemma FoilMul(a: int, b: int, c: int, d: int)
    ensures Mul(a + b, c + d) == Mul(a, c) + Mul(a, d) + Mul(b, c) + Mul(b, d)
  {
    Foil(a, b, c, d);
  }

  lemma CrossTerm(a1: int, au: int, av: int, b1: int, bu: int, bv: int)
    ensures Mul(a1 + au + av, b1 + bu + bv) - Mul(a1 + au, b1 + bu) - Mul(a1 + av, b1 + bv) + Mul(a1, b1)
            == Mul(au, bv) + Mul(av, bu)
  {
    hide *;
    FoilMul(a1 + au, av, b1 + bu, bv);
    FoilMul(a1, av, b1, bv);
    MulDist(a1, au, bv);
    MulAdd(av, b1, bu);
  }

  lemma ValueOne(k: Constraint, u: Label, a: int)
    requires u != "one" && (a == 0 || a == 1)
    ensures Value(Env(u, a, u, a), k) ==
            if a == 0 then Mul(RowCoeff(k.a, "one"), RowCoeff(k.b, "one")) - RowCoeff(k.c, "one")
            else Mul(RowCoeff(k.a, "one") + RowCoeff(k.a, u), RowCoeff(k.b, "one") + RowCoeff(k.b, u))
                 - (RowCoeff(k.c, "one") + RowCoeff(k.c, u))
  {
    hide Dot, RowCoeff;
    DotOne(k.a, u, a);
    DotOne(k.b, u, a);
    DotOne(k.c, u, a);
  }

  lemma ValueTwo(k: Constraint, u: Label, v: Label)
    requires u != "one" && v != "one" && u != v
    ensures Value(Env(u, 1, v, 1), k) ==
            Mul(RowCoeff(k.a, "one") + RowCoeff(k.a, u) + RowCoeff(k.a, v),
                RowCoeff(k.b, "one") + RowCoeff(k.b, u) + RowCoeff(k.b, v))
            - (RowCoeff(k.c, "one") + RowCoeff(k.c, u) + RowCoeff(k.c, v))
  {
    hide Dot, RowCoeff;
    DotTwo(k.a, u, v);
    DotTwo(k.b, u, v);
    DotTwo(k.c, u, v);
  }

  lemma CoeffTwo(k: Constraint, u: Label, v: Label)
    requires u != "one" && v != "one" && u != v
    ensures Coeff(k, u, v) == Mul(RowCoeff(k.a, u), RowCoeff(k.b, v)) + Mul(RowCoeff(k.a, v), RowCoeff(k.b, u))
  {
    hide RowCoeff;
  }

  /** The coefficient of a product of two labels from four values. */
  lemma TwoLabels(k: Constraint, u: Label, v: Label)
    requires u != "one" && v != "one" && u != v
    ensures Value(Env(u, 1, v, 1), k) - Value(Env(u, 1, u, 1), k) - Value(Env(v, 1, v, 1), k)
            + Value(Env(u, 0, u, 0), k) == Coeff(k, u, v)
  {
    hide *;
    ValueTwo(k, u, v);
    ValueOne(k, u, 1);
    ValueOne(k, v, 1);
    ValueOne(k, u, 0);
    CoeffTwo(k, u, v);
    CrossTerm(RowCoeff(k.a, "one"), RowCoeff(k.a, u), RowCoeff(k.a, v), RowCoeff(k.b, "one"), RowCoeff(k.b, u),
        RowCoeff(k.b, v));
  }

  /** The same polynomial up to an overall nonzero factor, at every assignment. */
  ghost predicate Proportional(p: nat, k: Constraint, l: Constraint)
    requires p > 0
  {
    exists c: nat :: 0 < c < p && ProportionalBy(p, k, l, c)
  }

  ghost predicate ProportionalBy(p: nat, k: Constraint, l: Constraint, c: nat)
    requires p > 0
  {
    forall env: Label -> int :: env("one") == 1 ==> Cong(p, Value(env, l), Mul(c, Value(env, k)))
  }

  lemma ProportionalAt(p: nat, k: Constraint, l: Constraint, c: nat, u: Label, a: int, v: Label, b: int)
    requires p > 0 && ProportionalBy(p, k, l, c)
    ensures Cong(p, Value(Env(u, a, v, b), l), Mul(c, Value(Env(u, a, v, b), k)))
  {
    assert Env(u, a, v, b)("one") == 1;
  }

  lemma CongSub(p: nat, x: int, x': int, y: int, y': int)
    requires p > 0 && Cong(p, x, x') && Cong(p, y, y')
    ensures Cong(p, x - y, x' - y')
  {
    hide Cong;
    CongRefl(p, -1);
    CongMul(p, y, y', -1, -1);
    CongAdd(p, x, x', y * -1, y' * -1);
  }

  lemma HalfCong(p: nat, x: int, c: int, y: int)
    requires IsPrime(p) && p >= 3 && Cong(p, 2 * x, Mul(c, 2 * y))
    ensures Cong(p, x, Mul(c, y))
  {
    assert 2 % p == 2;
    assert 2 * x - c * (2 * y) == 2 * (x - c * y) by { assert c * (2 * y) == 2 * (c * y); }
    CancelFactor(p, 2, x - c * y);
  }

  lemma MulSum(c: int, x: int, y: int)
    ensures Mul(c, x) + Mul(c, y) == Mul(c, x + y) && Mul(c, x) - Mul(c, y) == Mul(c, x - y)
  {
  }

  lemma ConstantCoeffs(p: nat, k: Constraint, l: Constraint, c: nat)
    requires IsPrime(p) && p >= 3 && ProportionalBy(p, k, l, c)
    ensures Cong(p, Coeff(l, "one", "one"), Mul(c, Coeff(k, "one", "one")))
  {
    hide *;
    OneLabel(k, "x");
    OneLabel(l, "x");
    ProportionalAt(p, k, l, c, "x", 0, "x", 0);
  }

  lemma LabelCoeffs(p: nat, k: Constraint, l: Constraint, c: nat, u: Label)
    requires IsPrime(p) && p >= 3 && ProportionalBy(p, k, l, c) && u != "one"
    ensures Cong(p, Coeff(l, u, "one"), Mul(c, Coeff(k, u, "one")))
    ensures Cong(p, Coeff(l, u, u), Mul(c, Coeff(k, u, u)))
  {
    hide *;
    OneLabel(k, u);
    OneLabel(l, u);
    ProportionalAt(p, k, l, c, u, 1, u, 1);
    ProportionalAt(p, k, l, c, u, -1, u, -1);
    ProportionalAt(p, k, l, c, u, 0, u, 0);
    var f1, f2, f0 := Value(Env(u, 1, u, 1), k), Value(Env(u, -1, u, -1), k), Value(Env(u, 0, u, 0), k);
    var g1, g2, g0 := Value(Env(u, 1, u, 1), l), Value(Env(u, -1, u, -1), l), Value(Env(u, 0, u, 0), l);
    CongSub(p, g1, Mul(c, f1), g2, Mul(c, f2));
    MulSum(c, f1, f2);
    HalfCong(p, Coeff(l, u, "one"), c, Coeff(k, u, "one"));
    CongAdd(p, g1, Mul(c, f1), g2, Mul(c, f2));
    CongAdd(p, g0, Mul(c, f0), g0, Mul(c, f0));
    CongSub(p, g1 + g2, Mul(c, f1) + Mul(c, f2), g0 + g0, Mul(c, f0) + Mul(c, f0));
    MulSum(c, f0, f0);
    MulSum(c, f1 + f2, f0 + f0);
    HalfCong(p, Coeff(l, u, u), c, Coeff(k, u, u));
  }

  lemma PairCoeffs(p: nat, k: Constraint, l: Constraint, c: nat, u: Label, v: Label)
    requires IsPrime(p) && p >= 3 && ProportionalBy(p, k, l, c) && u != "one" && v != "one" && u != v
    ensures Cong(p, Coeff(l, u, v), Mul(c, Coeff(k, u, v)))
  {
    hide *;
    TwoLabels(k, u, v);
    TwoLabels(l, u, v);
    ProportionalAt(p, k, l, c, u, 1, v, 1);
    ProportionalAt(p, k, l, c, u, 1, u, 1);
    ProportionalAt(p, k, l, c, v, 1, v, 1);
    ProportionalAt(p, k, l, c, u, 0, u, 0);
    var f2, f1, e1, f0 := Value(Env(u, 1, v, 1), k), Value(Env(u, 1, u, 1), k), Value(Env(v, 1, v, 1), k),
        Value(Env(u, 0, u, 0), k);
    var g2, g1, h1, g0 := Value(Env(u, 1, v, 1), l), Value(Env(u, 1, u, 1), l), Value(Env(v, 1, v, 1), l),
        Value(Env(u, 0, u, 0), l);
    CongSub(p, g2, Mul(c, f2), g1, Mul(c, f1));
    CongSub(p, g2 - g1, Mul(c, f2) - Mul(c, f1), h1, Mul(c, e1));
    CongAdd(p, g2 - g1 - h1, Mul(c, f2) - Mul(c, f1) - Mul(c, e1), g0, Mul(c, f0));
    MulSum(c, f2, f1);
    MulSum(c, f2 - f1, e1);
    MulSum(c, f2 - f1 - e1, f0);
  }

  lemma CoeffSym(k: Constraint, u: Label, v: Label)
    ensures Coeff(k, u, v) == Coeff(k, v, u)
  {
    hide RowCoeff;
  }

  /** Constraints proportional at every assignment have proportional coefficients. */
  lemma CoefficientsProportional(p: nat, k: Constraint, l: Constraint, c: nat, u: Label, v: Label)
    requires IsPrime(p) && p >= 3 && ProportionalBy(p, k, l, c)
    ensures Cong(p, Coeff(l, u, v), Mul(c, Coeff(k, u, v)))
  {
    hide *;
    if u == "one" && v == "one" {
      ConstantCoeffs(p, k, l, c);
    } else if v == "one" || u == v {
      LabelCoeffs(p, k, l, c, u);
    } else if u == "one" {
      LabelCoeffs(p, k, l, c, v);
      CoeffSym(k, u, v);
      CoeffSym(l, u, v);
    } else {
      PairCoeffs(p, k, l, c, u, v);
    }
  }
}
