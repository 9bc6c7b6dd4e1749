/** Arithmetic modulo a prime: congruence, Euclid's lemma, Fermat's little theorem, and the inverse
    by repeated squaring. */
module Field {
  import Types

  predicate IsPrime(p: nat) {
    p > 1 && forall d :: 1 < d < p ==> p % d != 0
  }

  predicate Divides(p: nat, x: int)
    requires p > 0
  {
    x % p == 0
  }

  predicate Cong(p: nat, x: int, y: int)
    requires p > 0
  {
    Divides(p, x - y)
  }

  lemma MulAtLeast(d: int, p: nat)
    requires d >= 1
    ensures d * p >= p
  {
  }

  /** The remainder is determined by being in range and differing by a multiple. */
  lemma RemainderUnique(p: nat, x: int, q: int, r: int)
    requires p > 0 && 0 <= r < p && x == q * p + r
    ensures x % p == r && x / p == q
  {
    var d := q - x / p;
    assert x == (x / p) * p + x % p;
    assert d * p == x % p - r;
    if d >= 1 { MulAtLeast(d, p); }
    if d <= -1 { MulAtLeast(-d, p); }
  }

  lemma MultipleDivides(p: nat, q: int)
    requires p > 0
    ensures Divides(p, q * p)
  {
    RemainderUnique(p, q * p, q, 0);
  }

  lemma Quotient(p: nat, x: int)
    requires p > 0 && Divides(p, x)
    ensures x == (x / p) * p
  {
  }

  lemma DividesSum(p: nat, x: int, y: int)
    requires p > 0 && Divides(p, x) && Divides(p, y)
    ensures Divides(p, x + y) && Divides(p, x - y)
  {
    Quotient(p, x);
    Quotient(p, y);
    MultipleDivides(p, x / p + y / p);
    MultipleDivides(p, x / p - y / p);
    assert (x / p + y / p) * p == x + y;
    assert (x / p - y / p) * p == x - y;
  }

  lemma DividesProduct(p: nat, x: int, y: int)
    requires p > 0 && Divides(p, x)
    ensures Divides(p, x * y) && Divides(p, y * x)
  {
    Quotient(p, x);
    MultipleDivides(p, (x / p) * y);
    assert (x / p) * y * p == x * y;
  }

  lemma CongTrans(p: nat, x: int, y: int, z: int)
    requires p > 0 && Cong(p, x, y) && Cong(p, y, z)
    ensures Cong(p, x, z)
  {
    DividesSum(p, x - y, y - z);
  }

  lemma CongSym(p: nat, x: int, y: int)
    requires p > 0 && Cong(p, x, y)
    ensures Cong(p, y, x)
  {
    assert Divides(p, 0) by { MultipleDivides(p, 0); }
    DividesSum(p, 0, x - y);
  }

  lemma CongRefl(p: nat, x: int)
    requires p > 0
    ensures Cong(p, x, x)
  {
    MultipleDivides(p, 0);
  }

  lemma CongAdd(p: nat, x: int, x': int, y: int, y': int)
    requires p > 0 && Cong(p, x, x') && Cong(p, y, y')
    ensures Cong(p, x + y, x' + y') && Cong(p, x - y, x' - y')
  {
    DividesSum(p, x - x', y - y');
    assert (x - x') + (y - y') == (x + y) - (x' + y');
    assert (x - x') - (y - y') == (x - y) - (x' - y');
  }

  lemma CongMul(p: nat, x: int, x': int, y: int, y': int)
    requires p > 0 && Cong(p, x, x') && Cong(p, y, y')
    ensures Cong(p, x * y, x' * y')
  {
    DividesProduct(p, x - x', y);
    DividesProduct(p, y - y', x');
    DividesSum(p, (x - x') * y, x' * (y - y'));
    assert (x - x') * y + x' * (y - y') == x * y - x' * y';
  }

  lemma CongMod(p: nat, x: int)
    requires p > 0
    ensures Cong(p, x % p, x) && Cong(p, x, x % p)
  {
    MultipleDivides(p, x / p);
    assert x - x % p == (x / p) * p;
    CongSym(p, x, x % p);
  }

  lemma CongZero(p: nat, x: int, y: int)
    requires p > 0 && Cong(p, x, y)
    ensures Divides(p, x) <==> Divides(p, y)
  {
    if Divides(p, x) { DividesSum(p, x, x - y); }
    if Divides(p, y) { DividesSum(p, x - y, y); }
  }

  lemma CongInRange(p: nat, x: int, y: int)
    requires p > 0 && Cong(p, x, y) && 0 <= x < p && 0 <= y < p
    ensures x == y
  {
    Quotient(p, x - y);
    var d := (x - y) / p;
    if d >= 1 { MulAtLeast(d, p); }
    if d <= -1 { MulAtLeast(-d, p); }
  }

  lemma ResidueNonzero(p: nat, x: int)
    requires p > 0 && 0 < x < p
    ensures !Divides(p, x)
  {
    RemainderUnique(p, x, 0, x);
  }

  // ---- Euclid's lemma ----

  /** The least positive `m` with `p` dividing `a * m`, found from a positive one that works. */
  lemma {:induction false} LeastAnnihilator(p: nat, a: int, k: nat) returns (m: nat)
    requires p > 0 && k > 0 && Divides(p, a * k)
    ensures 0 < m <= k && Divides(p, a * m)
    ensures forall j :: 0 < j < m ==> !Divides(p, a * j)
    decreases k
  {
    if j :| 0 < j < k && Divides(p, a * j) {
      m := LeastAnnihilator(p, a, j);
    } else {
      m := k;
    }
  }

  lemma AnnihilatorDivides(p: nat, a: int, m: nat, k: nat)
    requires p > 0 && m > 0 && Divides(p, a * m) && Divides(p, a * k)
    requires forall j :: 0 < j < m ==> !Divides(p, a * j)
    ensures k % m == 0
  {
    var q, r := k / m, k % m;
    assert k == q * m + r;
    DividesProduct(p, a * m, q);
    DividesSum(p, a * k, a * m * q);
    assert a * k - a * m * q == a * r by { assert a * k == a * (q * m) + a * r; }
  }

  /** A prime that divides a product divides one of the factors. */
  lemma Euclid(p: nat, a: int, b: nat)
    requires IsPrime(p) && Divides(p, a * b) && !Divides(p, a)
    ensures Divides(p, b)
  {
    MultipleDivides(p, a);
    var m := LeastAnnihilator(p, a, p);
    AnnihilatorDivides(p, a, m, p);
    AnnihilatorDivides(p, a, m, b);
    assert a * 1 == a;
  }

  lemma ProductNonzero(p: nat, a: nat, b: nat)
    requires IsPrime(p) && !Divides(p, a) && !Divides(p, b)
    ensures !Divides(p, a * b)
  {
    if Divides(p, a * b) { Euclid(p, a, b); }
  }

  // ---- Powers and Fermat's little theorem ----

  function Pow(a: int, n: nat): int {
    if n == 0 then 1 else a * Pow(a, n - 1)
  }

  lemma {:induction false} PowAdd(a: int, m: nat, n: nat)
    ensures Pow(a, m + n) == Pow(a, m) * Pow(a, n)
  {
    if m > 0 {
      PowAdd(a, m - 1, n);
      assert a * (Pow(a, m - 1) * Pow(a, n)) == a * Pow(a, m - 1) * Pow(a, n);
    }
  }

  lemma {:induction false} PowSquare(a: int, n: nat)
    ensures Pow(a * a, n) == Pow(a, 2 * n)
  {
    if n > 0 {
      PowSquare(a, n - 1);
      PowAdd(a, 2, 2 * (n - 1));
      assert Pow(a, 2) == a * Pow(a, 1) == a * a;
      assert 2 + 2 * (n - 1) == 2 * n;
    }
  }

  lemma {:induction false} PowCong(p: nat, a: int, b: int, n: nat)
    requires p > 0 && Cong(p, a, b)
    ensures Cong(p, Pow(a, n), Pow(b, n))
  {
    if n == 0 {
      CongRefl(p, 1);
    } else {
      PowCong(p, a, b, n - 1);
      CongMul(p, a, b, Pow(a, n - 1), Pow(b, n - 1));
    }
  }

  /** The product of a finite set of numbers. */
  ghost function Prod(s: set<nat>): nat {
    if s == {} then 1 else var x :| x in s; x * Prod(s - {x})
  }

  lemma {:induction false} ProdRemove(s: set<nat>, x: nat)
    requires x in s
    ensures Prod(s) == x * Prod(s - {x})
    decreases |s|
  {
    var y :| y in s && Prod(s) == y * Prod(s - {y});
    if y != x {
      ProdRemove(s - {y}, x);
      ProdRemove(s - {x}, y);
      assert (s - {y}) - {x} == (s - {x}) - {y};
      var rest := Prod((s - {x}) - {y});
      assert y * (x * rest) == x * (y * rest);
    }
  }

  function Times(p: nat, a: int, x: nat): nat
    requires p > 0
  {
    (a * x) % p
  }

  ghost function Image(p: nat, a: int, s: set<nat>): set<nat>
    requires p > 0
  {
    set x | x in s :: Times(p, a, x)
  }

  ghost predicate Residues(p: nat, s: set<nat>) {
    forall x :: x in s ==> 0 < x < p
  }

  /** Multiplication by a nonzero element is injective on residues. */
  lemma TimesInjective(p: nat, a: int, x: nat, y: nat)
    requires IsPrime(p) && !Divides(p, a) && x < p && y < p && Times(p, a, x) == Times(p, a, y)
    ensures x == y
  {
    CongMod(p, a * x);
    CongMod(p, a * y);
    CongTrans(p, a * x, Times(p, a, x), a * y);
    assert a * x - a * y == a * (x - y);
    CancelFactor(p, a, x - y);
    CongInRange(p, x, y);
  }

  lemma ImageRemove(p: nat, a: int, s: set<nat>, x: nat)
    requires IsPrime(p) && !Divides(p, a) && Residues(p, s) && x in s
    ensures Times(p, a, x) in Image(p, a, s)
    ensures Image(p, a, s - {x}) == Image(p, a, s) - {Times(p, a, x)}
  {
    hide Times, Divides, IsPrime;
    forall y | y in s && Times(p, a, y) == Times(p, a, x) ensures y == x {
      TimesInjective(p, a, y, x);
    }
  }

  lemma ProdImageStep(p: nat, a: int, x: nat, image: int, power: int, prod: int)
    requires p > 0 && Cong(p, image, power * prod)
    ensures Cong(p, Times(p, a, x) * image, (a * power) * (x * prod))
  {
    CongMod(p, a * x);
    CongMul(p, Times(p, a, x), a * x, image, power * prod);
    assert (a * x) * (power * prod) == (a * power) * (x * prod);
  }

  /** Multiplying every residue of a set multiplies the product by a power. */
  lemma {:induction false} ProdImage(p: nat, a: int, s: set<nat>)
    requires IsPrime(p) && !Divides(p, a) && Residues(p, s)
    ensures Cong(p, Prod(Image(p, a, s)), Pow(a, |s|) * Prod(s))
    ensures |Image(p, a, s)| == |s|
    decreases |s|
  {
    if s == {} {
      assert Image(p, a, s) == {};
      CongRefl(p, 1);
    } else {
      var x :| x in s;
      var t := s - {x};
      ProdImage(p, a, t);
      ImageRemove(p, a, s, x);
      assert Pow(a, |s|) == a * Pow(a, |t|);
      hide Prod, Pow, Image, Times, Cong, Divides, IsPrime;
      ProdRemove(Image(p, a, s), Times(p, a, x));
      ProdRemove(s, x);
      ProdImageStep(p, a, x, Prod(Image(p, a, t)), Pow(a, |t|), Prod(t));
    }
  }

  lemma {:induction false} ProdNonzero(p: nat, s: set<nat>)
    requires IsPrime(p) && Residues(p, s)
    ensures !Divides(p, Prod(s))
    decreases |s|
  {
    if s == {} {
      ResidueNonzero(p, 1);
    } else {
      var x :| x in s;
      ProdNonzero(p, s - {x});
      ProdRemove(s, x);
      ResidueNonzero(p, x);
      ProductNonzero(p, x, Prod(s - {x}));
    }
  }

  ghost function AllResidues(n: nat): set<nat> {
    if n <= 1 then {} else AllResidues(n - 1) + {n - 1}
  }

  lemma {:induction false} ResidueCount(n: nat)
    requires n > 0
    ensures |AllResidues(n)| == n - 1
    ensures forall x :: x in AllResidues(n) <==> 0 < x < n
  {
    if n > 1 { ResidueCount(n - 1); }
  }

  lemma SubsetOfSameSize(a: set<nat>, b: set<nat>)
    requires a <= b && |a| == |b|
    ensures a == b
  {
    if a != b {
      var x :| x in b && x !in a;
      Types.SubsetSize(a, b - {x});
    }
  }

  lemma ImageOfAll(p: nat, a: int)
    requires IsPrime(p) && !Divides(p, a)
    ensures Image(p, a, AllResidues(p)) == AllResidues(p)
  {
    var s := AllResidues(p);
    ResidueCount(p);
    ProdImage(p, a, s);
    forall x | x in s ensures Times(p, a, x) in s {
      ResidueNonzero(p, x);
      if Divides(p, a * x) { Euclid(p, a, x); }
    }
    hide Times;
    SubsetOfSameSize(Image(p, a, s), s);
  }

  /** Fermat's little theorem. */
  lemma Fermat(p: nat, a: int)
    requires IsPrime(p) && !Divides(p, a)
    ensures Cong(p, Pow(a, p - 1), 1)
  {
    var s := AllResidues(p);
    ResidueCount(p);
    hide Prod, Pow, AllResidues, Image, IsPrime, Divides, Times;
    ImageOfAll(p, a);
    ProdImage(p, a, s);
    ProdNonzero(p, s);
    CancelProduct(p, Pow(a, p - 1), Prod(s));
  }

  lemma CancelProduct(p: nat, w: int, f: int)
    requires IsPrime(p) && !Divides(p, f) && Cong(p, f, w * f)
    ensures Cong(p, w, 1)
  {
    CongSym(p, f, w * f);
    assert w * f - f == f * (w - 1);
    CancelFactor(p, f, w - 1);
  }

  lemma CancelFactor(p: nat, f: int, x: int)
    requires IsPrime(p) && !Divides(p, f) && Divides(p, f * x)
    ensures Divides(p, x)
  {
    if x >= 0 {
      Euclid(p, f, x);
    } else {
      DividesProduct(p, f * x, -1);
      assert f * x * -1 == f * (-x);
      Euclid(p, f, -x);
      DividesProduct(p, -x, -1);
    }
  }

  // ---- The inverse ----

  /** a^(p-2) modulo p by repeated squaring. */
  method ModInverse(p: nat, a: int) returns (result: nat)
    requires p >= 2
    ensures result == Pow(a, p - 2) % p
  {
    var base: nat, exp: nat := a % p, p - 2;
    result := 1 % p;
    CongMod(p, a);
    PowCong(p, a, base, p - 2);
    CongMod(p, 1);
    CongMul(p, 1 % p, 1, Pow(base, exp), Pow(base, exp)) by { CongRefl(p, Pow(base, exp)); }
    CongSym(p, Pow(a, p - 2), Pow(base, exp));
    CongTrans(p, result * Pow(base, exp), Pow(base, exp), Pow(a, p - 2));
    while exp > 0
      invariant 0 <= result < p && 0 <= base < p
      invariant Cong(p, result * Pow(base, exp), Pow(a, p - 2))
      decreases exp
    {
      ghost var r0, b0, e0 := result, base, exp;
      if exp % 2 == 1 {
        result := (result * base) % p;
      }
      base := (base * base) % p;
      exp := exp / 2;
      SquareStep(p, r0, b0, e0, Pow(a, p - 2));
    }
    assert result * Pow(base, 0) == result;
    CongMod(p, Pow(a, p - 2));
    CongTrans(p, result, Pow(a, p - 2), Pow(a, p - 2) % p);
    CongInRange(p, result, Pow(a, p - 2) % p);
  }

  lemma SquareStep(p: nat, r: nat, b: nat, e: nat, target: int)
    requires p >= 2 && e > 0 && Cong(p, r * Pow(b, e), target)
    ensures var r' := if e % 2 == 1 then (r * b) % p else r;
            Cong(p, r' * Pow((b * b) % p, e / 2), target)
  {
    var half := e / 2;
    var r1 := if e % 2 == 1 then r * b else r;
    var r' := if e % 2 == 1 then (r * b) % p else r;
    PowSquare(b, half);
    if e % 2 == 1 {
      PowAdd(b, 1, 2 * half);
      assert Pow(b, 1) == b;
      assert r * (b * Pow(b, 2 * half)) == (r * b) * Pow(b, 2 * half);
      CongMod(p, r * b);
    } else {
      CongRefl(p, r);
    }
    assert r * Pow(b, e) == r1 * Pow(b * b, half);
    CongMod(p, b * b);
    PowCong(p, (b * b) % p, b * b, half);
    CongMul(p, r', r1, Pow((b * b) % p, half), Pow(b * b, half));
    CongTrans(p, r' * Pow((b * b) % p, half), r * Pow(b, e), target);
  }

  /** For a prime modulus it is the inverse, and it is never zero. */
  lemma InverseWorks(p: nat, a: int)
    requires IsPrime(p) && !Divides(p, a)
    ensures Cong(p, a * (Pow(a, p - 2) % p), 1)
    ensures !Divides(p, Pow(a, p - 2) % p)
  {
    var w := Pow(a, p - 2);
    Fermat(p, a);
    assert Pow(a, p - 1) == a * w;
    CongMod(p, w);
    CongRefl(p, a);
    CongMul(p, a, a, w % p, w);
    CongTrans(p, a * (w % p), a * w, 1);
    if Divides(p, w % p) {
      DividesProduct(p, w % p, a);
      CongZero(p, a * (w % p), 1);
      ResidueNonzero(p, 1);
    }
  }
}
