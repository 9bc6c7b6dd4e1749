/** The constraint-system comparer: two circuits are the same when their constraints, expanded into
    polynomials and scaled to a canonical form, match one to one. */
module R1cs {
  import opened Field

  type Label = string

  /** One side of a constraint: label and coefficient, in the order the entries are listed. */
  type Row = seq<(Label, int)>

  datatype Constraint = Constraint(a: Row, b: Row, c: Row)

  /** A polynomial: monomial key to coefficient. */
  type Terms = map<string, nat>

  // ---- Monomial keys ----

  predicate LexLe(s: string, t: string) {
    s == [] || (t != [] && (s[0] < t[0] || (s[0] == t[0] && LexLe(s[1..], t[1..]))))
  }

  lemma {:induction false} LexTotal(s: string, t: string)
    ensures LexLe(s, t) || LexLe(t, s)
    ensures LexLe(s, t) && LexLe(t, s) ==> s == t
  {
    if s != [] && t != [] {
      LexTotal(s[1..], t[1..]);
      assert s == [s[0]] + s[1..] && t == [t[0]] + t[1..];
    }
  }

  lemma {:induction false} LexTrans(s: string, t: string, u: string)
    requires LexLe(s, t) && LexLe(t, u)
    ensures LexLe(s, u)
  {
    if s != [] && s[0] == t[0] == u[0] { LexTrans(s[1..], t[1..], u[1..]); }
  }

  /** The key of a product of two labels; "one" is the constant and drops out. */
  function PairKey(x: Label, y: Label): string {
    if x == "one" then y
    else if y == "one" then x
    else if LexLe(x, y) then x + "*" + y
    else y + "*" + x
  }

  /** A product, named so that it can be carried through a proof as one value. */
  function Mul(x: int, y: int): int {
    x * y
  }

  ghost predicate SamePair(x: Label, y: Label, u: Label, v: Label) {
    (x == u && y == v) || (x == v && y == u)
  }

  /** Over these labels different products have different keys. */
  ghost predicate KeysInjective(labels: set<Label>) {
    forall x, y, u, v | x in labels && y in labels && u in labels && v in labels ::
      PairKey(x, y) == PairKey(u, v) ==> SamePair(x, y, u, v)
  }

  lemma PairKeyOfSame(x: Label, y: Label, u: Label, v: Label)
    requires SamePair(x, y, u, v)
    ensures PairKey(x, y) == PairKey(u, v)
  {
    LexTotal(x, y);
  }

  /** The first separator splits a text in one way only. */
  lemma SplitUnique(sep: char, a: string, b: string, c: string, d: string)
    requires sep !in a && sep !in c && a + [sep] + b == c + [sep] + d
    ensures a == c && b == d
  {
    var s, t := a + [sep] + b, c + [sep] + d;
    assert s[|a|] == sep && t[|c|] == sep;
    assert forall i :: 0 <= i < |a| ==> s[i] == a[i];
    assert forall i :: 0 <= i < |c| ==> t[i] == c[i];
    assert |a| == |c|;
    assert a == s[..|a|] && c == t[..|c|];
    assert b == s[|a| + 1..] && d == t[|c| + 1..];
  }

  lemma PairKeyShape(x: Label, y: Label)
    requires x != "one" && y != "one"
    ensures exists a, b :: SamePair(x, y, a, b) && PairKey(x, y) == a + ['*'] + b
  {
    if LexLe(x, y) {
      assert SamePair(x, y, x, y) && PairKey(x, y) == x + ['*'] + y;
    } else {
      assert SamePair(x, y, y, x) && PairKey(x, y) == y + ['*'] + x;
    }
  }

  /** Labels without the joining character have injective keys. */
  lemma StarFreeKeys(labels: set<Label>)
    requires forall x :: x in labels ==> '*' !in x
    ensures KeysInjective(labels)
  {
    forall x, y, u, v | x in labels && y in labels && u in labels && v in labels && PairKey(x, y) == PairKey(u, v)
      ensures SamePair(x, y, u, v)
    {
      StarFreePairs(x, y, u, v);
    }
  }

  lemma HasStar(x: Label, y: Label)
    requires x != "one" && y != "one"
    ensures '*' in PairKey(x, y)
  {
    PairKeyShape(x, y);
    var a, b :| SamePair(x, y, a, b) && PairKey(x, y) == a + ['*'] + b;
    assert PairKey(x, y)[|a|] == '*';
  }

  lemma StarFreePairs(x: Label, y: Label, u: Label, v: Label)
    requires '*' !in x && '*' !in y && '*' !in u && '*' !in v && PairKey(x, y) == PairKey(u, v)
    ensures SamePair(x, y, u, v)
  {
    if x != "one" && y != "one" { HasStar(x, y); }
    if u != "one" && v != "one" { HasStar(u, v); }
    if x != "one" && y != "one" && u != "one" && v != "one" {
      PairKeyShape(x, y);
      var a, b :| SamePair(x, y, a, b) && PairKey(x, y) == a + ['*'] + b;
      PairKeyShape(u, v);
      var c, d :| SamePair(u, v, c, d) && PairKey(u, v) == c + ['*'] + d;
      SplitUnique('*', a, b, c, d);
    }
  }

  // ---- Expansion ----

  function AddTerm(p: nat, t: Terms, key: string, coeff: int): Terms
    requires p > 0
  {
    var next := ((if key in t then t[key] else 0) + coeff) % p;
    if next == 0 then t - {key} else t[key := next]
  }

  function AddRow(p: nat, t: Terms, x: (Label, int), row: Row): Terms
    requires p > 0
  {
    if row == [] then t
    else
      var y := row[|row| - 1];
      AddTerm(p, AddRow(p, t, x, row[..|row| - 1]), PairKey(x.0, y.0), (x.1 * y.1) % p)
  }

  function AddProduct(p: nat, t: Terms, a: Row, b: Row): Terms
    requires p > 0
  {
    if a == [] then t else AddRow(p, AddProduct(p, t, a[..|a| - 1], b), a[|a| - 1], b)
  }

  function SubRow(p: nat, t: Terms, c: Row): Terms
    requires p > 0
  {
    if c == [] then t
    else
      var z := c[|c| - 1];
      AddTerm(p, SubRow(p, t, c[..|c| - 1]), PairKey(z.0, "one"), (-z.1) % p)
  }

  /** The polynomial A*B - C of a constraint. */
  function Expand(p: nat, k: Constraint): Terms
    requires p > 0
  {
    SubRow(p, AddProduct(p, map[], k.a, k.b), k.c)
  }

  method ExpandConstraint(p: nat, k: Constraint) returns (t: Terms)
    requires p > 0
    ensures t == Expand(p, k)
  {
    t := map[];
    for i := 0 to |k.a|
      invariant t == AddProduct(p, map[], k.a[..i], k.b)
    {
      hide AddRow;
      assert k.a[..i + 1][..i] == k.a[..i];
      t := ExpandRow(p, t, k.a[i], k.b);
    }
    assert k.a[..|k.a|] == k.a;
    ghost var t1 := t;
    for i := 0 to |k.c|
      invariant t == SubRow(p, t1, k.c[..i])
    {
      hide AddTerm;
      assert k.c[..i + 1][..i] == k.c[..i];
      t := AddTerm(p, t, PairKey(k.c[i].0, "one"), (-k.c[i].1) % p);
    }
    assert k.c[..|k.c|] == k.c;
  }

  method ExpandRow(p: nat, t0: Terms, x: (Label, int), b: Row) returns (t: Terms)
    requires p > 0
    ensures t == AddRow(p, t0, x, b)
  {
    t := t0;
    for j := 0 to |b|
      invariant t == AddRow(p, t0, x, b[..j])
    {
      hide AddTerm;
      assert b[..j + 1][..j] == b[..j];
      t := AddTerm(p, t, PairKey(x.0, b[j].0), (x.1 * b[j].1) % p);
    }
    assert b[..|b|] == b;
  }

  // ---- What constraints and polynomials mean ----

  function Dot(env: Label -> int, row: Row): int {
    if row == [] then 0 else Dot(env, row[..|row| - 1]) + row[|row| - 1].1 * env(row[|row| - 1].0)
  }

  predicate Satisfies(p: nat, env: Label -> int, k: Constraint)
    requires p > 0
  {
    Divides(p, Dot(env, k.a) * Dot(env, k.b) - Dot(env, k.c))
  }

  /** What a polynomial is worth when each key stands for a value. */
  ghost function Eval(ev: string -> int, t: Terms): int {
    if t == map[] then 0
    else
      var k :| k in t;
      t[k] * ev(k) + Eval(ev, t - {k})
  }

  /** Keys stand for the products of their labels. */
  ghost predicate Respects(ev: string -> int, env: Label -> int, labels: set<Label>) {
    forall x, y | x in labels && y in labels :: ev(PairKey(x, y)) == Mul(env(x), env(y))
  }

  ghost function KeyMeaning(env: Label -> int, labels: set<Label>, key: string): int {
    if exists x, y :: x in labels && y in labels && PairKey(x, y) == key then
      var x, y :| x in labels && y in labels && PairKey(x, y) == key;
      Mul(env(x), env(y))
    else 0
  }

  lemma MeaningAt(env: Label -> int, labels: set<Label>, x: Label, y: Label) returns (u: Label, v: Label)
    requires x in labels && y in labels
    ensures u in labels && v in labels && PairKey(u, v) == PairKey(x, y)
    ensures KeyMeaning(env, labels, PairKey(x, y)) == Mul(env(u), env(v))
  {
    hide PairKey, Mul;
    var key := PairKey(x, y);
    assert exists a, b :: a in labels && b in labels && PairKey(a, b) == key;
    u, v :| u in labels && v in labels && PairKey(u, v) == key && KeyMeaning(env, labels, key) == Mul(env(u), env(v));
  }

  /** When keys are injective there is such a reading of the keys, for every assignment. */
  lemma MeaningRespects(env: Label -> int, labels: set<Label>)
    requires KeysInjective(labels)
    ensures Respects(key => KeyMeaning(env, labels, key), env, labels)
  {
    hide PairKey, KeyMeaning;
    forall x, y | x in labels && y in labels ensures KeyMeaning(env, labels, PairKey(x, y)) == Mul(env(x), env(y)) {
      var u, v := MeaningAt(env, labels, x, y);
      assert SamePair(u, v, x, y);
    }
  }

  lemma {:induction false} EvalRemove(ev: string -> int, t: Terms, k: string)
    requires k in t
    ensures Eval(ev, t) == t[k] * ev(k) + Eval(ev, t - {k})
    decreases |t|
  {
    var j :| j in t && Eval(ev, t) == t[j] * ev(j) + Eval(ev, t - {j});
    if j != k {
      EvalRemove(ev, t - {j}, k);
      EvalRemove(ev, t - {k}, j);
      assert (t - {j}) - {k} == (t - {k}) - {j};
    }
  }

  /** Adding a term adds its value, modulo p. */
  lemma AddTermValue(p: nat, ev: string -> int, t: Terms, key: string, coeff: int)
    requires p > 0
    ensures Cong(p, Eval(ev, AddTerm(p, t, key, coeff)), Eval(ev, t) + Mul(coeff, ev(key)))
  {
    hide Eval, Cong;
    var cur := if key in t then t[key] else 0;
    var rest := t - {key};
    var v := ev(key);
    var next := (cur + coeff) % p;
    if key in t {
      EvalRemove(ev, t, key);
    } else {
      assert rest == t;
    }
    assert Eval(ev, t) == cur * v + Eval(ev, rest);
    var t' := AddTerm(p, t, key, coeff);
    if next != 0 {
      assert t' - {key} == rest;
      EvalRemove(ev, t', key);
    }
    assert Eval(ev, t') == next * v + Eval(ev, rest);
    TermCong(p, next, cur + coeff, v, Eval(ev, rest));
    assert (cur + coeff) * v == cur * v + coeff * v;
  }

  lemma TermCong(p: nat, x: int, y: int, v: int, rest: int)
    requires p > 0 && x == y % p
    ensures Cong(p, x * v + rest, y * v + rest)
  {
    CongMod(p, y);
    CongRefl(p, v);
    CongRefl(p, rest);
    CongMul(p, x, y, v, v);
    CongAdd(p, x * v, y * v, rest, rest);
  }

  ghost predicate RowOver(row: Row, labels: set<Label>) {
    forall i :: 0 <= i < |row| ==> row[i].0 in labels
  }

  /** A constraint over an alphabet; the constant "one" belongs to every alphabet. */
  ghost predicate Over(k: Constraint, labels: set<Label>) {
    "one" in labels && RowOver(k.a, labels) && RowOver(k.b, labels) && RowOver(k.c, labels)
  }

  lemma {:induction false} AddRowValue(p: nat, ev: string -> int, env: Label -> int, labels: set<Label>, t: Terms,
                                       x: (Label, int), row: Row)
    requires p > 0 && x.0 in labels && RowOver(row, labels) && Respects(ev, env, labels)
    ensures Cong(p, Eval(ev, AddRow(p, t, x, row)), Eval(ev, t) + Scaled(env, x, row))
  {
    hide Eval, AddTerm, AddRow, Cong, PairKey, Dot, Scaled, Mul;
    if row == [] {
      AddRowEmpty(p, env, t, x);
      CongRefl(p, Eval(ev, t));
    } else {
      var init, y := row[..|row| - 1], row[|row| - 1];
      AddRowValue(p, ev, env, labels, t, x, init);
      var s := AddRow(p, t, x, init);
      var key := PairKey(x.0, y.0);
      assert ev(key) == Mul(env(x.0), env(y.0));
      AddTermValue(p, ev, s, key, Mul(x.1, y.1) % p);
      AddRowSnoc(p, t, x, init, y);
      assert row == init + [y];
      Accumulate(p, Eval(ev, AddRow(p, t, x, row)), Eval(ev, s), Eval(ev, t) + Scaled(env, x, init),
                 Mul(x.1, y.1), ev(key));
      ScaledSnoc(env, x, init, y);
    }
  }

  function Scaled(env: Label -> int, x: (Label, int), row: Row): int {
    x.1 * env(x.0) * Dot(env, row)
  }

  lemma ScaledSnoc(env: Label -> int, x: (Label, int), init: Row, y: (Label, int))
    ensures Scaled(env, x, init + [y]) == Scaled(env, x, init) + Mul(Mul(x.1, y.1), Mul(env(x.0), env(y.0)))
  {
    assert (init + [y])[..|init|] == init;
    Distribute(x.1, env(x.0), Dot(env, init), y.1, env(y.0));
  }

  lemma AddRowEmpty(p: nat, env: Label -> int, t: Terms, x: (Label, int))
    requires p > 0
    ensures AddRow(p, t, x, []) == t && Scaled(env, x, []) == 0
  {
  }

  lemma AddRowSnoc(p: nat, t: Terms, x: (Label, int), init: Row, y: (Label, int))
    requires p > 0
    ensures AddRow(p, t, x, init + [y])
            == AddTerm(p, AddRow(p, t, x, init), PairKey(x.0, y.0), Mul(x.1, y.1) % p)
  {
    assert (init + [y])[..|init|] == init;
  }

  /** Adding a reduced coefficient times a value adds the unreduced one, modulo p. */
  lemma Accumulate(p: nat, after: int, before: int, base: int, c: int, v: int)
    requires p > 0 && Cong(p, after, before + Mul(c % p, v)) && Cong(p, before, base)
    ensures Cong(p, after, base + Mul(c, v))
  {
    TermCong(p, c % p, c, v, before);
    CongTrans(p, after, before + (c % p) * v, before + c * v);
    CongRefl(p, c * v);
    CongAdd(p, before, base, c * v, c * v);
    CongTrans(p, after, before + c * v, base + c * v);
  }

  lemma Distribute(a: int, va: int, d: int, b: int, vb: int)
    ensures a * va * d + (a * b) * (va * vb) == a * va * (d + b * vb)
  {
    assert (a * b) * (va * vb) == a * va * (b * vb);
  }

  lemma {:induction false} AddProductValue(p: nat, ev: string -> int, env: Label -> int, labels: set<Label>, t: Terms,
                                           a: Row, b: Row)
    requires p > 0 && RowOver(a, labels) && RowOver(b, labels) && Respects(ev, env, labels)
    ensures Cong(p, Eval(ev, AddProduct(p, t, a, b)), Eval(ev, t) + Dot(env, a) * Dot(env, b))
  {
    hide Eval, AddRow, Cong, Respects;
    if a == [] {
      CongRefl(p, Eval(ev, t));
    } else {
      var init, x := a[..|a| - 1], a[|a| - 1];
      AddProductValue(p, ev, env, labels, t, init, b);
      var s := AddProduct(p, t, init, b);
      AddRowValue(p, ev, env, labels, s, x, b);
      var d, e, w := Dot(env, init), Dot(env, b), x.1 * env(x.0);
      assert Scaled(env, x, b) == w * e;
      CongRefl(p, w * e);
      CongAdd(p, Eval(ev, s), Eval(ev, t) + d * e, w * e, w * e);
      assert Eval(ev, t) + d * e + w * e == Eval(ev, t) + (d + w) * e;
      CongTrans(p, Eval(ev, AddProduct(p, t, a, b)), Eval(ev, s) + w * e, Eval(ev, t) + Dot(env, a) * e);
    }
  }

  lemma {:induction false} SubRowValue(p: nat, ev: string -> int, env: Label -> int, labels: set<Label>, t: Terms,
      c: Row)
    requires p > 0 && RowOver(c, labels) && "one" in labels && Respects(ev, env, labels) && env("one") == 1
    ensures Cong(p, Eval(ev, SubRow(p, t, c)), Eval(ev, t) - Dot(env, c))
  {
    hide Eval, PairKey, AddTerm, Cong;
    if c == [] {
      CongRefl(p, Eval(ev, t));
    } else {
      var init, z := c[..|c| - 1], c[|c| - 1];
      SubRowValue(p, ev, env, labels, t, init);
      assert ev(PairKey(z.0, "one")) == Mul(env(z.0), env("one"));
      var s, v := SubRow(p, t, init), env(z.0);
      AddTermValue(p, ev, s, PairKey(z.0, "one"), (-z.1) % p);
      Accumulate(p, Eval(ev, SubRow(p, t, c)), Eval(ev, s), Eval(ev, t) - Dot(env, init), -z.1, v);
      assert (-z.1) * v == -(z.1 * v);
    }
  }

  /** The polynomial a constraint enforces to vanish, at an assignment. */
  function Value(env: Label -> int, k: Constraint): int {
    Dot(env, k.a) * Dot(env, k.b) - Dot(env, k.c)
  }

  lemma ExpandParts(p: nat, ev: string -> int, env: Label -> int, k: Constraint, labels: set<Label>)
    requires p > 0 && Over(k, labels)
    ensures Expand(p, k) == SubRow(p, AddProduct(p, map[], k.a, k.b), k.c) && Eval(ev, map[]) == 0
    ensures Value(env, k) == Dot(env, k.a) * Dot(env, k.b) - Dot(env, k.c)
    ensures RowOver(k.a, labels) && RowOver(k.b, labels) && RowOver(k.c, labels) && "one" in labels
  {
    hide SubRow, AddProduct, Dot;
  }

  lemma CombineCong(p: nat, e: int, t: int, ab: int, c: int)
    requires p > 0 && Cong(p, e, t - c) && Cong(p, t, 0 + ab)
    ensures Cong(p, e, ab - c)
  {
    hide Cong;
    CongRefl(p, -c);
    CongAdd(p, t, ab, -c, -c);
    CongTrans(p, e, t - c, ab - c);
  }

  /** The expansion evaluates to A*B - C wherever keys stand for the products of their labels. */
  lemma ExpandMeans(p: nat, ev: string -> int, env: Label -> int, labels: set<Label>, k: Constraint)
    requires p > 0 && Over(k, labels) && Respects(ev, env, labels) && env("one") == 1
    ensures Cong(p, Eval(ev, Expand(p, k)), Value(env, k))
  {
    hide *;
    ExpandParts(p, ev, env, k, labels);
    var t := AddProduct(p, map[], k.a, k.b);
    AddProductValue(p, ev, env, labels, map[], k.a, k.b);
    SubRowValue(p, ev, env, labels, t, k.c);
    CombineCong(p, Eval(ev, Expand(p, k)), Eval(ev, t), Dot(env, k.a) * Dot(env, k.b), Dot(env, k.c));
  }

  /** Every coefficient of an expansion is a nonzero residue. */
  ghost predicate Normal(p: nat, t: Terms) {
    forall k :: k in t ==> 0 < t[k] < p
  }

  lemma {:induction false} AddRowNormal(p: nat, t: Terms, x: (Label, int), row: Row)
    requires p > 0 && Normal(p, t)
    ensures Normal(p, AddRow(p, t, x, row))
  {
    if row != [] { AddRowNormal(p, t, x, row[..|row| - 1]); }
  }

  lemma {:induction false} AddProductNormal(p: nat, t: Terms, a: Row, b: Row)
    requires p > 0 && Normal(p, t)
    ensures Normal(p, AddProduct(p, t, a, b))
  {
    if a != [] {
      AddProductNormal(p, t, a[..|a| - 1], b);
      AddRowNormal(p, AddProduct(p, t, a[..|a| - 1], b), a[|a| - 1], b);
    }
  }

  lemma {:induction false} SubRowNormal(p: nat, t: Terms, c: Row)
    requires p > 0 && Normal(p, t)
    ensures Normal(p, SubRow(p, t, c))
  {
    if c != [] { SubRowNormal(p, t, c[..|c| - 1]); }
  }

  lemma ExpandNormal(p: nat, k: Constraint)
    requires p > 0
    ensures Normal(p, Expand(p, k))
  {
    AddProductNormal(p, map[], k.a, k.b);
    SubRowNormal(p, AddProduct(p, map[], k.a, k.b), k.c);
  }
}
