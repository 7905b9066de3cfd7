/** The two non-trivial math/big operations the curve test relies on. */
module BigInt {
  import opened Bytes
  import opened ModArith

  lemma PowSquare(b: int, k: nat)
    ensures k % 2 == 0 ==> Pow(b, k) == Pow(b * b, k / 2)
    ensures k % 2 == 1 ==> Pow(b, k) == b * Pow(b * b, k / 2)
  {
    PowBase1(b);
    PowPow(b, 2, k / 2);
    if k % 2 == 1 {
      assert Pow(b, k) == b * Pow(b, k - 1);
    }
  }

  lemma MulMiddle(r: int, b: int, x: int)
    ensures r * (b * x) == (r * b) * x
  {
  }

  /** big.Int.Exp: b^e mod m, by square and multiply. */
  method Exp(b: nat, e: nat, m: nat) returns (r: nat)
    requires m > 1
    ensures r == Pow(b, e) % m
  {
    r := 1;
    var base, k := b % m, e;
    CongMod(b, m);
    CongPow(base, b, e, m);
    while k > 0
      invariant 0 <= r < m
      invariant Cong(r * Pow(base, k), Pow(b, e), m)
      decreases k
    {
      PowSquare(base, k);
      var sq := base * base;
      var rest := Pow(sq, k / 2);
      CongMod(sq, m);
      CongPow(sq % m, sq, k / 2, m);
      var next := if k % 2 == 1 then r * base else r;
      MulMiddle(r, base, rest);
      CongMod(next, m);
      CongMul(next % m, next, Pow(sq % m, k / 2), rest, m);
      CongTrans(next % m * Pow(sq % m, k / 2), next * rest, Pow(b, e), m);
      r := next % m;
      base := sq % m;
      k := k / 2;
    }
    CongSameMod(r, Pow(b, e), m);
    CongMod(r, m);
    CongSmall(r % m, r, m);
  }

  lemma EuclidRow(g: int, n: int, q: int, r0: int, r1: int, t0: int, t1: int)
    requires n > 0 && Cong(r0, t0 * g, n) && Cong(r1, t1 * g, n)
    ensures Cong(r0 - q * r1, (t0 - q * t1) * g, n)
  {
    CongRefl(-q, n);
    CongMul(-q, -q, r1, t1 * g, n);
    CongAdd(r0, t0 * g, -q * r1, -q * (t1 * g), n);
    assert t0 * g + -q * (t1 * g) == (t0 - q * t1) * g;
  }

  lemma EuclidColumn(a: int, b: int, q: int, r0: int, r1: int)
    ensures a * r0 + b * r1 == (a * q + b) * r1 + a * (r0 - q * r1)
  {
  }

  /** A common factor above one leaves no inverse. */
  lemma NoInverse(d: int, g: int, n: int, a: int, c: int, x: int)
    requires n > 1 && d > 1 && n == a * d && g == c * d
    ensures !Cong(x * g, 1, n)
  {
    if Cong(x * g, 1, n) {
      var k := Quotient(n, x * g - 1);
      assert (x * c - k * a) * d == 1 by {
        assert x * (c * d) == (x * c) * d;
        assert k * (a * d) == (k * a) * d;
      }
      MultipleBound(x * c - k * a, d);
    }
  }

  /** big.Int.ModInverse: the inverse of g modulo n in [0, n), or nothing when there is
      none, by the extended Euclidean algorithm. */
  method ModInverse(g: nat, n: nat) returns (inv: Option<nat>)
    requires n > 1
    ensures inv.Some? ==> inv.value < n && Cong(inv.value * g, 1, n)
    ensures inv.None? ==> forall x {:trigger Cong(x * g, 1, n)} :: !Cong(x * g, 1, n)
  {
    var r0, r1, t0, t1 := n, g, 0, 1;
    ghost var a, b, c, d := 1, 0, 0, 1;
    CongIntro(n, 0 * g, n, 1);
    CongRefl(g, n);
    while r1 != 0
      invariant r0 >= 0 && r1 >= 0
      invariant Cong(r0, t0 * g, n) && Cong(r1, t1 * g, n)
      invariant n == a * r0 + b * r1 && g == c * r0 + d * r1
      invariant r0 + r1 > 0
      decreases r1
    {
      var q := r0 / r1;
      assert r0 % r1 == r0 - q * r1;
      EuclidRow(g, n, q, r0, r1, t0, t1);
      EuclidColumn(a, b, q, r0, r1);
      EuclidColumn(c, d, q, r0, r1);
      a, b := a * q + b, a;
      c, d := c * q + d, c;
      r0, r1 := r1, r0 % r1;
      t0, t1 := t1, t0 - q * t1;
    }
    if r0 == 1 {
      CongMod(t0, n);
      CongRefl(g, n);
      CongMul(t0 % n, t0, g, g, n);
      CongSym(1, t0 * g, n);
      CongTrans(t0 % n * g, t0 * g, 1, n);
      inv := Some(t0 % n);
    } else {
      forall x ensures !Cong(x * g, 1, n) {
        NoInverse(r0, g, n, a, c, x);
      }
      inv := None;
    }
  }
}
