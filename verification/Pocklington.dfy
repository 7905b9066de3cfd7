/** Pocklington's primality criterion, in the form that one prime factor larger than the
    cube root suffices, and the exponentiation steps of a certificate. */
module Pocklington {
  import opened ModArith
  import opened Primes

  /** x is 2^e modulo n. */
  ghost predicate At(n: int, e: nat, x: int)
    requires n > 0
  {
    Cong(Pow(2, e), x, n)
  }

  // -------------------------------------------------------------- the criterion

  /** Any n >= 2 has a prime factor. */
  lemma PrimeFactor(n: int) returns (r: int)
    requires n >= 2
    ensures IsPrime(r) && Divides(r, n) && r <= n
  {
    r := n;
    MultipleDivides(1, n);
    if !IsPrime(n) {
      var d :| 2 <= d < n && Divides(d, n);
      r := PrimeFactor(d);
      var k := Quotient(r, d);
      var l := Quotient(d, n);
      MulAssoc(l, k, r);
      MultipleDivides(l * k, r);
    }
  }

  lemma ProperFactor(n: int) returns (r: int, t: int)
    requires n >= 2 && !IsPrime(n)
    ensures IsPrime(r) && Divides(r, n) && n == t * r && t >= 2
  {
    var d :| 2 <= d < n && Divides(d, n);
    r := PrimeFactor(d);
    var k := Quotient(r, d);
    var l := Quotient(d, n);
    MulAssoc(l, k, r);
    t := l * k;
    MultipleDivides(t, r);
    CofactorAtLeast2(t, r, n);
  }

  lemma CongDown(a: int, b: int, n: int, r: int)
    requires n > 0 && r > 0 && Divides(r, n) && Cong(a, b, n)
    ensures Cong(a, b, r)
  {
    var k := Quotient(n, a - b);
    var l := Quotient(r, n);
    MulAssoc(k, l, r);
    CongIntro(a, b, r, k * l);
  }

  /** If a power prime to r is one for two coprime exponents, the base is one. */
  lemma CoprimeExponents(r: int, b: int, q: int, s: int)
    requires IsPrime(q) && r > 0 && s > 0 && !Divides(q, s)
    requires Cong(Pow(b, q), 1, r) && Cong(Pow(b, s), 1, r)
    ensures Cong(b, 1, r)
  {
    var v := Inverse(q, s);
    var u := v % q;
    CongMod(v, q);
    CongRefl(s, q);
    CongMul(u, v, s, s, q);
    CongTrans(u * s, v * s, 1, q);
    var k := Quotient(q, u * s - 1);
    if u == 0 {
      SmallNotDivisible(q, 1);
      CongSym(0, 1, q);
      assert false;
    }
    MultipleBound(u, s);
    MultipleBound(k, q);
    // b^(us) is 1 through s, and b through q
    PowPow(b, s, u);
    CongPow(Pow(b, s), 1, u, r);
    PowOne(u);
    assert s * u == u * s == 1 + q * k;
    PowPow(b, q, k);
    PowAdd(b, 1, q * k);
    PowBase1(b);
    CongPow(Pow(b, q), 1, k, r);
    PowOne(k);
    CongRefl(b, r);
    CongMul(b, b, Pow(b, q * k), 1, r);
    CongSym(Pow(b, u * s), b, r);
    CongTrans(b, Pow(b, u * s), 1, r);
  }

  /** Under the certificate (q, R, x, c), every prime factor of n is 1 modulo q. */
  lemma FactorsAreOne(n: int, q: int, R: nat, x: int, c: int, r: int)
    requires n > 0 && IsPrime(q) && IsPrime(r) && Divides(r, n)
    requires At(n, q * R, 1) && At(n, R, x) && Cong(c * (x - 1), 1, n)
    ensures Cong(r, 1, q)
  {
    var b := Pow(2, R);
    CongDown(Pow(2, q * R), 1, n, r);
    CongDown(b, x, n, r);
    CongDown(c * (x - 1), 1, n, r);
    PowPow(2, R, q);
    assert R * q == q * R;
    if Divides(r, b) {
      var k := Quotient(r, b);
      assert Pow(b, q) == (k * r) * Pow(b, q - 1);
      assert (k * r) * Pow(b, q - 1) == (k * Pow(b, q - 1)) * r;
      CongIntro(Pow(b, q), 0, r, k * Pow(b, q - 1));
      CongSym(Pow(b, q), 1, r);
      CongTrans(1, Pow(b, q), 0, r);
      SmallNotDivisible(r, 1);
      assert false;
    }
    Fermat(r, b);
    if !Divides(q, r - 1) {
      CoprimeExponents(r, b, q, r - 1);
      CongSym(b, x, r);
      CongTrans(x, b, 1, r);
      CongRefl(c, r);
      CongMul(c, c, x - 1, 0, r);
      CongSym(c * (x - 1), 1, r);
      CongTrans(1, c * (x - 1), 0, r);
      SmallNotDivisible(r, 1);
      assert false;
    }
  }

  lemma CofactorAtLeast2(t: int, r: int, n: int)
    requires 1 <= r < n && n == t * r
    ensures t >= 2
  {
    MultipleBound(1 - t, r);
    assert (1 - t) * r == r - n;
  }

  lemma CofactorIsOne(q: int, R: int, t: int, r: int, y: int)
    requires q * R + 1 == t * r && r - 1 == y * q
    ensures t - 1 == (R - t * y) * q
  {
    calc {
      t - 1;
      t - t * r + q * R;
      t - t * (y * q + 1) + q * R;
      { MulAssoc(t, y, q); }
      q * R - t * y * q;
      (R - t * y) * q;
    }
  }

  lemma ProductBound(x: int, y: int)
    requires x >= 1 && y >= 1
    ensures x + y <= x * y + 1
  {
    assert (x - 1) * (y - 1) >= 0;
  }

  lemma ExpandProduct(q: int, x: int, y: int)
    ensures (q * x + 1) * (q * y + 1) == q * (x * y * q + x + y) + 1
  {
    calc {
      (q * x + 1) * (q * y + 1);
      q * x * (q * y) + q * x + q * y + 1;
      { assert q * x * (q * y) == q * (x * y * q); }
      q * (x * y * q + x + y) + 1;
    }
  }

  lemma CancelFactor(q: int, a: int, b: int)
    requires q > 0 && q * a == q * b
    ensures a == b
  {
  }

  /** A factorisation of q*R + 1 into two factors that are 1 modulo q leaves a small R % q. */
  lemma SmallRemainder(q: int, R: nat, x: int, y: int)
    requires q > 0 && x >= 1 && y >= 1 && R / q + 1 < q
    requires q * R + 1 == (q * x + 1) * (q * y + 1)
    ensures R % q <= R / q + 1
  {
    var k := R / q;
    ExpandProduct(q, x, y);
    CancelFactor(q, R, x * y * q + x + y);
    MultipleBound(k - x * y, q);
    assert R == k * q + R % q;
    assert (k - x * y) * q == k * q - x * y * q;
    ProductBound(x, y);
  }

  /** The criterion: q is a prime factor of n - 1 = q * R whose size rules out a
      factorisation, and 2 has order a multiple of q modulo every factor of n. */
  lemma Criterion(n: int, q: int, R: nat, x: int, c: int)
    requires n == q * R + 1 && n >= 2 && IsPrime(q)
    requires R / q + 1 < q && R % q > R / q + 1
    requires At(n, n - 1, 1) && At(n, R, x) && Cong(c * (x - 1), 1, n)
    ensures IsPrime(n)
  {
    if !IsPrime(n) {
      var r, t := ProperFactor(n);
      FactorsAreOne(n, q, R, x, c, r);
      var y := Quotient(q, r - 1);
      CofactorIsOne(q, R, t, r, y);
      var z := R - t * y;
      MultipleBound(z, q);
      MultipleBound(y, q);
      assert t * r == (q * z + 1) * (q * y + 1) by {
        assert t == q * z + 1 && r == q * y + 1;
      }
      SmallRemainder(q, R, z, y);
    }
  }
  // ------------------------------------------------------- certificate steps

  lemma Start(n: int)
    requires n > 0
    ensures At(n, 0, 1)
  {
    CongRefl(1, n);
  }

  lemma Double(n: int, e: nat, x: int)
    requires n > 0 && At(n, e, x)
    ensures At(n, 2 * e, x * x)
  {
    CongMul(Pow(2, e), x, Pow(2, e), x, n);
    PowAdd(2, e, e);
  }

  /** The base-4 digit w that a factor t = 2^w appends to an exponent. */
  function DigitOf(t: int): nat {
    if t == 1 then 0 else if t == 2 then 1 else if t == 4 then 2 else 3
  }

  /** x^4 * t is y modulo n, where t is 1, 2, 4 or 8. */
  ghost predicate Quad(n: int, x: int, t: int, y: int) {
    && n > 0 && (t == 1 || t == 2 || t == 4 || t == 8)
    && (x * x) * (x * x) * t % n == y
  }

  /** Appending one base-4 digit to the exponent. */
  lemma OneDigit(n: int, e: nat, x: int, t: int, y: int)
    requires Quad(n, x, t, y) && At(n, e, x)
    ensures At(n, 4 * e + DigitOf(t), y)
  {
    Double(n, e, x);
    Double(n, 2 * e, x * x);
    var w := DigitOf(t);
    PowBase1(2);
    assert Pow(2, 3) == 2 * Pow(2, 2);
    assert Pow(2, w) == t;
    PowAdd(2, 4 * e, w);
    CongRefl(t, n);
    var z := (x * x) * (x * x);
    CongMul(Pow(2, 4 * e), z, t, t, n);
    CongMod(z * t, n);
    CongTrans(Pow(2, 4 * e + w), z * t, y, n);
  }

  // ------------------------------------------------------------ trial division

  ghost predicate NoFactorTo(n: int, k: int) {
    k < 2 || (n % k != 0 && NoFactorTo(n, k - 1))
  }

  lemma {:induction false} NoFactorBelow(n: int, k: int, d: int)
    requires NoFactorTo(n, k) && 2 <= d <= k
    ensures !Divides(d, n)
  {
    if d < k { NoFactorBelow(n, k - 1, d); }
  }

  /** Trial division up to k is enough when n < k * k. */
  lemma TrialDivision(n: int, k: nat)
    requires n >= 2 && n < (k + 1) * (k + 1) && NoFactorTo(n, k)
    ensures IsPrime(n) || n <= k
  {
    if n > k && !IsPrime(n) {
      var d :| 2 <= d < n && Divides(d, n);
      var l := Quotient(d, n);
      CofactorAtLeast2(l, d, n);
      ProductAtLeast(l, d, k + 1);
      MultipleDivides(d, l);
      assert d * l == l * d;
      NoFactorBelow(n, k, if d <= k then d else l);
    }
  }

  lemma ProductAtLeast(a: int, b: int, c: int)
    requires c >= 0
    ensures a >= c && b >= c ==> a * b >= c * c
  {
  }
}
