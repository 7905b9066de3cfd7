/** Prime fields: Fermat's little theorem, the square roots of one, and square
    roots modulo a prime that is 5 modulo 8. */
module Primes {
  import opened ModArith

  ghost predicate IsPrime(p: int) {
    p >= 2 && forall d :: 2 <= d < p ==> !Divides(d, p)
  }

  // ---------------------------------------------------------------- inverses

  lemma SmallNotDivisible(p: int, a: int)
    requires 0 < a < p
    ensures !Divides(p, a)
  {
    if Divides(p, a) {
      CongSmall(a, 0, p);
    }
  }

  lemma Inverse(p: int, a: int) returns (u: int)
    requires IsPrime(p) && !Divides(p, a)
    ensures Cong(u * a, 1, p)
  {
    var g, u', v := Bezout(a % p, p);
    u := u';
    if g != 1 {
      MultipleBound(p / g, g);
      assert p == p / g * g;
      if g > p {
        SmallNotDivisible(g, p);
      }
      assert g == p;
      SmallNotDivisible(p, a % p);
      assert false;
    }
    CongMod(a, p);
    CongRefl(u, p);
    CongMul(u, u, a, a % p, p);
    CongIntro(u * (a % p), 1, p, -v);
    CongTrans(u * a, u * (a % p), 1, p);
  }

  lemma EuclidLemma(p: int, a: int, b: int)
    requires IsPrime(p) && Divides(p, a * b)
    ensures Divides(p, a) || Divides(p, b)
  {
    if !Divides(p, a) {
      var u := Inverse(p, a);
      var k := Quotient(p, u * a - 1);
      var l := Quotient(p, a * b);
      calc {
        b;
        (u * a) * b - (u * a - 1) * b;
        { assert (u * a) * b == u * (a * b); }
        u * (a * b) - (u * a - 1) * b;
        u * (l * p) - (k * p) * b;
        { assert u * (l * p) == (u * l) * p; assert (k * p) * b == (k * b) * p; }
        (u * l) * p - (k * b) * p;
        (u * l - k * b) * p;
      }
      MultipleDivides(u * l - k * b, p);
    }
  }

  lemma Cancel(p: int, a: int, x: int, y: int)
    requires IsPrime(p) && !Divides(p, a) && Cong(a * x, a * y, p)
    ensures Cong(x, y, p)
  {
    assert a * x - a * y == a * (x - y);
    EuclidLemma(p, a, x - y);
  }

  /** Modulo a prime, 1 has no square roots besides 1 and -1. */
  lemma SquareRootsOfOne(p: int, x: int)
    requires IsPrime(p) && Cong(x * x, 1, p)
    ensures Cong(x, 1, p) || Cong(x, -1, p)
  {
    assert x * x - 1 == (x - 1) * (x - -1);
    EuclidLemma(p, x - 1, x - -1);
  }

  // ------------------------------------------- products and Fermat's theorem

  function Fact(n: nat): int {
    if n == 0 then 1 else n * Fact(n - 1)
  }

  function Prod(s: seq<int>): int {
    if s == [] then 1 else Prod(s[..|s| - 1]) * s[|s| - 1]
  }

  ghost predicate Distinct(s: seq<int>) {
    forall i, j :: 0 <= i < j < |s| ==> s[i] != s[j]
  }

  ghost predicate InRange(s: seq<int>, n: int) {
    forall i :: 0 <= i < |s| ==> 1 <= s[i] <= n
  }

  function Remove(s: seq<int>, k: nat): seq<int>
    requires k < |s|
  {
    s[..k] + s[k + 1..]
  }

  lemma {:induction false} ProdRemove(s: seq<int>, k: nat)
    requires k < |s|
    ensures Prod(s) == s[k] * Prod(Remove(s, k))
  {
    var n := |s| - 1;
    if k == n {
      assert Remove(s, k) == s[..n];
    } else {
      ProdRemove(s[..n], k);
      var t := Remove(s[..n], k);
      assert Remove(s, k) == t + [s[n]];
      assert (t + [s[n]])[..n - 1] == t;
      MulAssoc(s[k], Prod(t), s[n]);
    }
  }

  lemma MulAssoc(a: int, b: int, c: int)
    ensures (a * b) * c == a * (b * c)
  {
  }

  lemma RemoveKeeps(s: seq<int>, k: nat, n: nat)
    requires k < |s| && Distinct(s) && InRange(s, n) && s[k] == n
    ensures Distinct(Remove(s, k)) && InRange(Remove(s, k), n - 1)
  {
    var t := Remove(s, k);
    forall i | 0 <= i < |t| ensures 1 <= t[i] <= n - 1 {
      assert t[i] == s[if i < k then i else i + 1] != n;
    }
  }

  lemma {:induction false} Pigeonhole(s: seq<int>, n: nat)
    requires Distinct(s) && InRange(s, n)
    ensures |s| <= n
  {
    assert s != [] ==> 1 <= s[0] <= n;
    if n == 0 {
    } else if n in s {
      var k :| 0 <= k < |s| && s[k] == n;
      RemoveKeeps(s, k, n);
      Pigeonhole(Remove(s, k), n - 1);
    } else {
      Pigeonhole(s, n - 1);
    }
  }

  /** n distinct values in 1..n multiply to n!. */
  lemma {:induction false} PermutationProduct(s: seq<int>)
    requires Distinct(s) && InRange(s, |s|)
    ensures Prod(s) == Fact(|s|)
  {
    var n := |s|;
    if n == 0 {
    } else {
      if n !in s {
        Pigeonhole(s, n - 1);
      }
      var k :| 0 <= k < n && s[k] == n;
      ProdRemove(s, k);
      RemoveKeeps(s, k, n);
      PermutationProduct(Remove(s, k));
    }
  }

  /** a, 2a, ..., na, each reduced modulo p. */
  function Multiples(a: int, p: int, n: nat): seq<int>
    requires p > 0
  {
    seq(n, i => a * (i + 1) % p)
  }

  lemma MultiplesProduct(a: int, p: int, n: nat)
    requires p > 0
    ensures Cong(Prod(Multiples(a, p, n)), Pow(a, n) * Fact(n), p)
  {
    if n == 0 {
      CongRefl(1, p);
    } else {
      MultiplesProduct(a, p, n - 1);
      var s, t := Multiples(a, p, n), Multiples(a, p, n - 1);
      assert s[..n - 1] == t;
      CongMod(a * n, p);
      CongMul(Prod(t), Pow(a, n - 1) * Fact(n - 1), a * n % p, a * n, p);
      var x, f := Pow(a, n - 1), Fact(n - 1);
      MulSwap(x, f, a, n);
      assert (x * f) * (a * n) == (a * x) * (n * f);
    }
  }

  lemma FactNotDivisible(p: int, n: nat)
    requires IsPrime(p) && n < p
    ensures !Divides(p, Fact(n))
  {
    if n == 0 {
      SmallNotDivisible(p, 1);
    } else {
      FactNotDivisible(p, n - 1);
      SmallNotDivisible(p, n);
      if Divides(p, n * Fact(n - 1)) {
        EuclidLemma(p, n, Fact(n - 1));
      }
    }
  }

  lemma MultiplesPermute(p: int, a: int)
    requires IsPrime(p) && !Divides(p, a)
    ensures Distinct(Multiples(a, p, p - 1)) && InRange(Multiples(a, p, p - 1), p - 1)
  {
    var s := Multiples(a, p, p - 1);
    forall i | 0 <= i < |s| ensures 1 <= s[i] <= p - 1 {
      if s[i] == 0 {
        EuclidLemma(p, a, i + 1);
        SmallNotDivisible(p, i + 1);
      }
    }
    forall i, j | 0 <= i < j < |s| ensures s[i] != s[j] {
      if s[i] == s[j] {
        CongSameMod(a * (i + 1), a * (j + 1), p);
        Cancel(p, a, i + 1, j + 1);
        CongSmall(i + 1, j + 1, p);
      }
    }
  }

  /** Fermat's little theorem. */
  lemma Fermat(p: int, a: int)
    requires IsPrime(p) && !Divides(p, a)
    ensures Cong(Pow(a, p - 1), 1, p)
  {
    var s := Multiples(a, p, p - 1);
    MultiplesPermute(p, a);
    PermutationProduct(s);
    MultiplesProduct(a, p, p - 1);
    var f := Fact(p - 1);
    FactNotDivisible(p, p - 1);
    var x := Pow(a, p - 1);
    CongSym(f, x * f, p);
    assert Cong(f * x, f * 1, p) by {
      assert x * f == f * x;
    }
    Cancel(p, f, x, 1);
  }

  // ------------------------------------- 2 is a non-residue when p % 8 == 5

  function Evens(n: nat): int {
    if n == 0 then 1 else 2 * n * Evens(n - 1)
  }

  function Odds(n: nat): int {
    if n == 0 then 1 else (2 * n - 1) * Odds(n - 1)
  }

  /** The j largest of the factors 2, 4, ..., 4m. */
  function UpperEvens(m: nat, j: nat): int {
    if j == 0 then 1 else (4 * m + 1 - (2 * j - 1)) * UpperEvens(m, j - 1)
  }

  lemma EvensArePower(n: nat)
    ensures Evens(n) == Pow(2, n) * Fact(n)
  {
    if n == 0 {
    } else {
      EvensArePower(n - 1);
      MulSwap(2, n, Pow(2, n - 1), Fact(n - 1));
    }
  }

  lemma {:induction false} FactSplits(m: nat)
    ensures Fact(2 * m) == Evens(m) * Odds(m)
  {
    if m > 0 {
      FactSplits(m - 1);
      var e, o := Evens(m - 1), Odds(m - 1);
      assert Fact(2 * m) == 2 * m * Fact(2 * m - 1);
      assert Fact(2 * m - 1) == (2 * m - 1) * Fact(2 * (m - 1));
      MulAssoc(2 * m, 2 * m - 1, e * o);
      MulSwap(2 * m, 2 * m - 1, e, o);
    }
  }

  lemma EvensSplit(m: nat, j: nat)
    requires j <= 2 * m
    ensures Evens(2 * m) == Evens(2 * m - j) * UpperEvens(m, j)
  {
    if j == 0 {
    } else {
      EvensSplit(m, j - 1);
      var k, u := 2 * m - j, UpperEvens(m, j - 1);
      assert Evens(k + 1) == 2 * (k + 1) * Evens(k);
      assert UpperEvens(m, j) == 2 * (k + 1) * u;
      MoveFactor(2 * (k + 1), Evens(k), u);
    }
  }

  lemma MoveFactor(a: int, b: int, c: int)
    ensures (a * b) * c == b * (a * c)
  {
  }

  /** Folding: modulo 4m+1 the upper even factors are the odd ones negated. */
  lemma UpperEvensFold(m: nat, j: nat)
    requires m > 0
    ensures Cong(UpperEvens(m, j), Pow(-1, j) * Odds(j), 4 * m + 1)
  {
    var p := 4 * m + 1;
    if j == 0 {
      CongRefl(1, p);
    } else {
      UpperEvensFold(m, j - 1);
      var x, o := Pow(-1, j - 1), Odds(j - 1);
      CongIntro(p - (2 * j - 1), -1 * (2 * j - 1), p, 1);
      CongMul(p - (2 * j - 1), -1 * (2 * j - 1), UpperEvens(m, j - 1), x * o, p);
      MulSwap(-1, 2 * j - 1, x, o);
    }
  }

  lemma PowMinusOne(n: nat)
    ensures Pow(-1, n) == if n % 2 == 0 then 1 else -1
  {
  }

  /** Modulo a prime that is 5 modulo 8, the half power of 2 is -1: 2 is not a square. */
  lemma TwoIsNonResidue(p: int)
    requires IsPrime(p) && p % 8 == 5
    ensures Cong(Pow(2, (p - 1) / 2), -1, p)
  {
    var m := QuarterIsOdd(p);
    FoldedFactorial(m);
    FactNotDivisible(p, 2 * m);
    Cancel(p, Fact(2 * m), Pow(2, 2 * m), -1);
  }

  lemma QuarterIsOdd(p: int) returns (m: nat)
    requires p % 8 == 5 && p > 0
    ensures p == 4 * m + 1 && m % 2 == 1 && m == (p - 1) / 4 && 2 * m == (p - 1) / 2
  {
    m := (p - 1) / 4;
  }

  lemma FoldedFactorial(m: nat)
    requires m % 2 == 1
    ensures Cong(Fact(2 * m) * Pow(2, 2 * m), Fact(2 * m) * -1, 4 * m + 1)
  {
    var p, f, x := 4 * m + 1, Fact(2 * m), Pow(2, 2 * m);
    var e, o, u := Evens(m), Odds(m), UpperEvens(m, m);
    EvensArePower(2 * m);
    EvensSplit(m, m);
    UpperEvensFold(m, m);
    PowMinusOne(m);
    FactSplits(m);
    CongRefl(e, p);
    CongMul(e, e, u, -1 * o, p);
    assert f * x == e * u;
    MulAssoc(e, o, -1);
    assert e * (o * -1) == e * (-1 * o);
  }

  /** 2^((p-1)/4) is a square root of -1. */
  lemma RootOfMinusOne(p: int)
    requires IsPrime(p) && p % 8 == 5
    ensures var s := Pow(2, (p - 1) / 4); Cong(s * s, -1, p)
  {
    var m := (p - 1) / 4;
    PowAdd(2, m, m);
    TwoIsNonResidue(p);
  }

  // ------------------------------------------------ square roots, two candidates

  ghost predicate IsRoot(r: int, a: int, p: int)
    requires p > 0
  {
    Cong(r * r, a, p)
  }

  /** No number squares to 2 modulo a prime that is 5 modulo 8. */
  lemma TwoIsNoSquare(p: int, r: int)
    requires IsPrime(p) && p % 8 == 5
    ensures !IsRoot(r, 2, p)
  {
    if IsRoot(r, 2, p) {
      RootOfUnit(p, r, 2);
      Fermat(p, r);
      var h := (p - 1) / 2;
      PowPow(r, 2, h);
      assert Pow(r, 2) == r * r by { PowBase1(r); }
      CongPow(r * r, 2, h, p);
      TwoIsNonResidue(p);
      CongTrans(Pow(r * r, h), Pow(2, h), -1, p);
      CongSym(Pow(r, p - 1), 1, p);
      CongTrans(1, Pow(r, p - 1), -1, p);
      SmallNotDivisible(p, 2);
    }
  }

  lemma RootOfUnit(p: int, r: int, a: int)
    requires IsPrime(p) && IsRoot(r, a, p) && 0 < a < p
    ensures !Divides(p, r)
  {
    if Divides(p, r) {
      assert Cong(r, 0, p);
      CongMul(r, 0, r, 0, p);
      CongSym(r * r, a, p);
      CongTrans(a, r * r, 0, p);
      SmallNotDivisible(p, a);
    }
  }

  /** The candidate a^((p+3)/8) squares to plus or minus a, whenever a is a square. */
  lemma CandidateSquare(p: int, a: int, r: int)
    requires IsPrime(p) && p % 8 == 5 && !Divides(p, a) && IsRoot(r, a, p)
    ensures var x := Pow(a, (p + 3) / 8); Cong(x * x, a, p) || Cong(x * x, -a, p)
  {
    var k := (p - 5) / 8;
    assert p == 8 * k + 5 && (p + 3) / 8 == k + 1;
    var x, y, h := Pow(a, k + 1), Pow(a, 2 * k + 1), Pow(r, 4 * k + 2);
    PowAdd(a, k + 1, k + 1);
    assert x * x == a * y;
    // a^(2k+1) is r^((p-1)/2), a square root of one
    CongPow(r * r, a, 2 * k + 1, p);
    PowBase1(r);
    PowPow(r, 2, 2 * k + 1);
    assert Cong(h, y, p);
    if Divides(p, r) {
      var l := Quotient(p, r);
      assert r * r == (l * r) * p;
      CongIntro(r * r, 0, p, l * r);
      CongSym(r * r, a, p);
      CongTrans(a, r * r, 0, p);
      assert false;
    }
    Fermat(p, r);
    PowAdd(r, 4 * k + 2, 4 * k + 2);
    SquareRootsOfOne(p, h);
    var e := if Cong(h, 1, p) then 1 else -1;
    CongSym(h, y, p);
    CongTrans(y, h, e, p);
    CongRefl(a, p);
    CongMul(a, a, y, e, p);
  }

  /** The two-candidate test decides exactly the squares: it never rejects a root that
      exists and never accepts a value without one. */
  lemma TwoCandidateTest(p: int, a: int)
    requires IsPrime(p) && p % 8 == 5 && !Divides(p, a)
    ensures var x, s := Pow(a, (p + 3) / 8), Pow(2, (p - 1) / 4);
            (exists r :: IsRoot(r, a, p)) <==> (IsRoot(x, a, p) || IsRoot(x * s, a, p))
  {
    var x, s := Pow(a, (p + 3) / 8), Pow(2, (p - 1) / 4);
    if r :| IsRoot(r, a, p) {
      CandidateSquare(p, a, r);
      if Cong(x * x, -a, p) {
        RootOfMinusOne(p);
        CongMul(x * x, -a, s * s, -1, p);
        MulSwap(x, x, s, s);
        assert IsRoot(x * s, a, p);
      }
    }
  }
}
