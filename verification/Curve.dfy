/** Decompression of Ed25519 points: escrow/pda.go, IsOnCurve. */
module Curve {
  import opened Bytes
  import opened ModArith
  import opened Numerals
  import opened Primes
  import opened Prime25519
  import opened BigInt

  /** d, the value of -121665 / 121666 modulo P. */
  const D: nat := 37095705934669439343138083508754565189542113879843219016388785533085940283555

  /** A square root of 121665 * 60833 modulo P. */
  const ROOT: nat := 8770359039303344359548208979710324901663570887331859741081992614103461443253

  /** (x, y) satisfies -x^2 + y^2 = 1 + d x^2 y^2 modulo p. */
  ghost predicate OnEquation(p: int, d: int, x: int, y: int)
    requires p > 0
  {
    Cong(y * y - x * x, 1 + d * (x * x) * (y * y), p)
  }

  /** The y coordinate a compressed point carries: little-endian, top bit cleared, reduced. */
  function YCoordinate(b: Key): nat {
    LeVal(b[31 := b[31] % 128]) % P
  }

  /** The sign bit a compressed point carries. */
  function SignBit(b: Key): nat {
    b[31] / 128
  }

  /** x is a coordinate below p with the given parity. */
  ghost predicate Coordinate(p: int, x: int, sign: int) {
    0 <= x < p && x % 2 == sign
  }

  /** Some curve point has this y coordinate and an x of this parity. */
  ghost predicate HasPoint(p: int, d: int, y: int, sign: int)
    requires p > 0
  {
    exists x :: Coordinate(p, x, sign) && OnEquation(p, d, x, y)
  }

  /** The 32 bytes are the compressed form of some curve point. */
  ghost predicate OnCurve(b: Key) {
    HasPoint(P, D, YCoordinate(b), SignBit(b))
  }

  lemma EquationRearranged(d: int, xx: int, yy: int)
    ensures (yy - xx) - (1 + d * xx * yy) == (yy - 1) - xx * (d * yy + 1)
  {
    assert d * xx * yy == xx * (d * yy);
  }

  /** The curve equation says x^2 * v = u. */
  lemma EquationIsQuotient(p: int, d: int, x: int, y: int)
    requires p > 0
    ensures OnEquation(p, d, x, y) <==> Cong(x * x * (d * (y * y) + 1), y * y - 1, p)
  {
    var a, b := y * y - 1, x * x * (d * (y * y) + 1);
    EquationRearranged(d, x * x, y * y);
    if Cong(a, b, p) { CongSym(a, b, p); }
    if Cong(b, a, p) { CongSym(b, a, p); }
  }

  /** When v vanishes no x solves the equation, because d is not -1. */
  lemma NoPointWhenVanishing(p: int, d: int, x: int, y: int)
    requires IsPrime(p) && !Cong(d, -1, p) && Cong(d * (y * y) + 1, 0, p)
    ensures !OnEquation(p, d, x, y)
  {
    if OnEquation(p, d, x, y) {
      var v := d * (y * y) + 1;
      EquationIsQuotient(p, d, x, y);
      CongRefl(x * x, p);
      CongMul(x * x, x * x, v, 0, p);
      CongSym(x * x * v, y * y - 1, p);
      CongTrans(y * y - 1, x * x * v, 0, p);
      // so y^2 = 1, and v = d + 1 = 0
      CongRefl(d, p);
      CongMul(d, d, y * y - 1, 0, p);
      CongSym(d * (y * y - 1), 0, p);
      CongAdd(v, 0, 0, d * (y * y - 1), p);
      CongSym(v, d * (y * y - 1), p);
      assert d * (y * y - 1) - v == -1 - d;
      assert Cong(-1, d, p);
      CongSym(-1, d, p);
    }
  }

  /** Dividing by v: the solutions are the square roots of u / v. */
  lemma SolutionsAreRoots(p: int, d: int, x: int, y: int, w: int, a: int)
    requires IsPrime(p) && Cong(w * (d * (y * y) + 1), 1, p) && Cong(a, (y * y - 1) * w, p)
    ensures OnEquation(p, d, x, y) <==> IsRoot(x, a, p)
  {
    var v, u, xx := d * (y * y) + 1, y * y - 1, x * x;
    EquationIsQuotient(p, d, x, y);
    CongRefl(xx, p);
    CongMul(xx, xx, w * v, 1, p);
    CongRefl(w, p);
    CongRefl(v, p);
    if Cong(xx * v, u, p) {
      CongMul(xx * v, u, w, w, p);
      assert xx * v * w == xx * (w * v);
      CongSym(xx * (w * v), xx, p);
      CongTrans(xx, xx * (w * v), u * w, p);
      CongSym(a, u * w, p);
      CongTrans(xx, u * w, a, p);
    }
    if Cong(xx, a, p) {
      CongTrans(xx, a, u * w, p);
      CongMul(xx, u * w, v, v, p);
      CongRefl(u, p);
      CongMul(u, u, w * v, 1, p);
      MulAssoc(u, w, v);
      CongTrans(xx * v, u * w * v, u, p);
    }
  }

  /** x^2 = 0 has the single even solution 0. */
  lemma ZeroRoot(p: int, x: int, sign: int)
    requires IsPrime(p) && Coordinate(p, x, sign) && IsRoot(x, 0, p)
    ensures x == 0 && sign == 0
  {
    EuclidLemma(p, x, x);
    CongSmall(x, 0, p);
  }

  /** A nonzero square has a root of either parity below an odd prime. */
  lemma BothParities(p: int, r: int, a: int, sign: int) returns (x: int)
    requires IsPrime(p) && p % 2 == 1 && IsRoot(r, a, p) && !Divides(p, a) && sign in {0, 1}
    ensures Coordinate(p, x, sign) && IsRoot(x, a, p)
  {
    x := RootBelow(p, r, a);
    if x % 2 != sign {
      NegatedRoot(p, x, a);
      OtherParity(p, x, sign);
      x := p - x;
    }
  }

  lemma OtherParity(p: int, x: int, sign: int)
    requires p % 2 == 1 && sign in {0, 1} && x % 2 != sign
    ensures (p - x) % 2 == sign
  {
  }

  lemma RootBelow(p: int, r: int, a: int) returns (x: int)
    requires p > 0 && IsRoot(r, a, p) && !Divides(p, a)
    ensures 1 <= x < p && IsRoot(x, a, p)
  {
    x := r % p;
    CongMod(r, p);
    SameRoot(p, r, x, a);
    if Cong(0, a, p) {
      CongSym(0, a, p);
    }
  }

  lemma SameRoot(p: int, r: int, x: int, a: int)
    requires p > 0 && IsRoot(r, a, p) && Cong(x, r, p)
    ensures IsRoot(x, a, p)
  {
    CongMul(x, r, x, r, p);
    CongTrans(x * x, r * r, a, p);
  }

  lemma NegatedRoot(p: int, x: int, a: int)
    requires p > 0 && IsRoot(x, a, p)
    ensures IsRoot(p - x, a, p)
  {
    CongIntro(p - x, -x, p, 1);
    assert -x * -x == x * x;
    SameRoot(p, -x, p - x, a);
  }

  /** The curve constant: d * 121666 = -121665, and d is not -1. */
  lemma CurveConstant()
    ensures Cong(D * 121666, -121665, P) && !Cong(D, -1, P) && IsPrime(P) && P % 8 == 5
  {
    IsPrimeP();
    CongIntro(D * 121666, -121665, P, 77955);
    SmallNotDivisible(P, D + 1);
  }

  /** The exit for x^2 = 0: the sign bit must be clear. */
  lemma ZeroCase(p: int, sign: int)
    requires IsPrime(p)
    ensures (exists x :: Coordinate(p, x, sign) && IsRoot(x, 0, p)) <==> sign == 0
  {
    if sign == 0 {
      CongRefl(0, p);
      assert Coordinate(p, 0, 0) && IsRoot(0, 0, p);
    }
    if x :| Coordinate(p, x, sign) && IsRoot(x, 0, p) {
      ZeroRoot(p, x, sign);
    }
  }

  /** Away from x^2 = 0 the sign never matters: every square has a root of either parity. */
  lemma NonzeroCase(p: int, a: int, sign: int)
    requires IsPrime(p) && p % 2 == 1 && !Divides(p, a) && sign in {0, 1}
    ensures (exists x :: Coordinate(p, x, sign) && IsRoot(x, a, p)) <==> (exists r :: IsRoot(r, a, p))
  {
    if r :| IsRoot(r, a, p) {
      var x := BothParities(p, r, a, sign);
    }
  }

  /** The candidates as the code computes them, reduced modulo p. */
  lemma ReducedCandidate(p: int, x: int, y: int, a: int)
    requires p > 0 && Cong(x, y, p) && 0 <= a < p
    ensures x * x % p == a <==> IsRoot(y, a, p)
  {
    CongMul(x, y, x, y, p);
    CongSameMod(x * x, y * y, p);
    CongSameMod(y * y, a, p);
    CongMod(a, p);
    CongSmall(a, a % p, p);
  }

  /** A root of d * y^2 + 1 would make 2 a square, given that 121665 * 60833 is one: 121665 * y
      squares to 121665 * 121666 = 2 * (121665 * 60833). */
  lemma DenominatorIsUnit(p: int, d: int, y: int, s: int)
    requires IsPrime(p) && p % 8 == 5 && p > 121666 && Cong(d * 121666, -121665, p)
    requires IsRoot(s, 121665 * 60833, p)
    ensures !Cong(d * (y * y) + 1, 0, p)
  {
    if Cong(d * (y * y) + 1, 0, p) {
      VanishingScaled(p, d, y);
      var z := 121665 * y;
      CongSym(s * s, 121665 * 60833, p);
      CongRefl(2, p);
      CongMul(2, 2, 121665 * 60833, s * s, p);
      CongTrans(z * z, 2 * (121665 * 60833), 2 * (s * s), p);
      SmallNotDivisible(p, 121665);
      SmallNotDivisible(p, 60833);
      if Divides(p, s) {
        assert Cong(s, 0, p);
        CongMul(s, 0, s, 0, p);
        CongTrans(121665 * 60833, s * s, 0, p);
        EuclidLemma(p, 121665, 60833);
      }
      SquareRatio(p, z, s);
    }
  }

  lemma VanishingScaled(p: int, d: int, y: int)
    requires p > 0 && Cong(d * 121666, -121665, p) && Cong(d * (y * y) + 1, 0, p)
    ensures Cong(121665 * y * (121665 * y), 2 * (121665 * 60833), p)
  {
    var yy := y * y;
    CongRefl(121665 * yy, p);
    CongMul(d * 121666, -121665, 121665 * yy, 121665 * yy, p);
    CongRefl(121665 * 121666, p);
    CongMul(d * yy + 1, 0, 121665 * 121666, 121665 * 121666, p);
    var k := Quotient(p, d * 121666 * (121665 * yy) - -121665 * (121665 * yy));
    var l := Quotient(p, (d * yy + 1) * (121665 * 121666) - 0 * (121665 * 121666));
    ScaledSum(d, yy);
    assert 121665 * y * (121665 * y) == 121665 * 121665 * yy;
    CongIntro(121665 * y * (121665 * y), 2 * (121665 * 60833), p, k - l);
  }

  lemma ScaledSum(d: int, yy: int)
    ensures d * 121666 * (121665 * yy) - -121665 * (121665 * yy) - (d * yy + 1) * (121665 * 121666)
      == 121665 * 121665 * yy - 121665 * 121666
  {
    assert d * 121666 * (121665 * yy) == (d * yy) * (121665 * 121666);
  }

  /** z^2 is not twice a square. */
  lemma SquareRatio(p: int, z: int, s: int)
    requires IsPrime(p) && p % 8 == 5 && !Divides(p, s)
    ensures !Cong(z * z, 2 * (s * s), p)
  {
    if Cong(z * z, 2 * (s * s), p) {
      var w := Inverse(p, s);
      CongMul(w * s, 1, w * s, 1, p);
      CongRefl(w * w, p);
      CongMul(z * z, 2 * (s * s), w * w, w * w, p);
      CongRefl(2, p);
      CongMul(2, 2, w * s * (w * s), 1, p);
      MulSwap(z, z, w, w);
      MulSwap(s, s, w, w);
      assert 2 * (s * s) * (w * w) == 2 * (w * s * (w * s));
      CongTrans(z * w * (z * w), 2 * (s * s) * (w * w), 2, p);
      TwoIsNoSquare(p, z * w);
    }
  }

  /** What is used of the modulus and of d. */
  ghost predicate CurveParameters(p: int, d: int) {
    && IsPrime(p) && p % 8 == 5 && p > 121666 && 0 <= d < p && Cong(d * 121666, -121665, p)
    && exists s :: IsRoot(s, 121665 * 60833, p)
  }

  /** The modulus 2^255 - 19 and the constant D are such a pair. */
  lemma Parameters()
    ensures CurveParameters(P, D)
  {
    CurveConstant();
    CongIntro(ROOT * ROOT, 121665 * 60833, P,
              1328574312544681369677743335001854821550983564553614290913063952618855638136);
    assert IsRoot(ROOT, 121665 * 60833, P);
  }

  lemma NotMinusOne(p: int, d: int)
    requires CurveParameters(p, d)
    ensures !Cong(d, -1, p)
  {
    if Cong(d, -1, p) {
      CongRefl(121666, p);
      CongMul(d, -1, 121666, 121666, p);
      CongSym(d * 121666, -121665, p);
      CongTrans(-121665, d * 121666, -121666, p);
      SmallNotDivisible(p, 1);
    }
  }

  /** The denominator d * y^2 + 1 never vanishes: the exit for v = 0 is never taken. */
  lemma DenominatorNeverVanishes(p: int, d: int, y: int)
    requires CurveParameters(p, d)
    ensures !Cong(d * (y * y) + 1, 0, p)
  {
    var s :| IsRoot(s, 121665 * 60833, p);
    DenominatorIsUnit(p, d, y, s);
  }

  /** u and v as the code reduces them. */
  lemma ReducedEquation(p: int, d: int, y: int, y2: int, u: int, v: int)
    requires p > 0
    requires y2 == y * y % p && u == (y2 - 1) % p && v == (d * y2 + 1) % p
    ensures Cong(u, y * y - 1, p) && Cong(v, d * (y * y) + 1, p)
  {
    CongMod(y * y, p);
    CongRefl(1, p);
    CongRefl(-1, p);
    CongRefl(d, p);
    CongAdd(y2, y * y, -1, -1, p);
    CongMod(y2 - 1, p);
    CongTrans(u, y2 - 1, y * y - 1, p);
    CongMul(d, d, y2, y * y, p);
    CongAdd(d * y2, d * (y * y), 1, 1, p);
    CongMod(d * y2 + 1, p);
    CongTrans(v, d * y2 + 1, d * (y * y) + 1, p);
  }

  /** A value without an inverse is zero, and then there is no point. */
  lemma VanishingWithoutInverse(p: int, d: int, y: int, v: int)
    requires IsPrime(p) && !Cong(d, -1, p) && Cong(v, d * (y * y) + 1, p)
    requires forall w {:trigger Cong(w * v, 1, p)} :: !Cong(w * v, 1, p)
    ensures !exists x :: OnEquation(p, d, x, y)
  {
    if !Divides(p, v) {
      var w := Inverse(p, v);
      assert false;
    }
    CongSym(v, d * (y * y) + 1, p);
    CongTrans(d * (y * y) + 1, v, 0, p);
    forall x ensures !OnEquation(p, d, x, y) {
      NoPointWhenVanishing(p, d, x, y);
    }
  }

  lemma QuotientSolutions(p: int, d: int, y: int, u: int, v: int, w: int, x2: int)
    requires IsPrime(p) && Cong(u, y * y - 1, p) && Cong(v, d * (y * y) + 1, p)
    requires Cong(w * v, 1, p) && x2 == u * w % p
    ensures forall x :: OnEquation(p, d, x, y) <==> IsRoot(x, x2, p)
  {
    var vy, uy := d * (y * y) + 1, y * y - 1;
    CongSym(v, vy, p);
    CongRefl(w, p);
    CongMul(w, w, vy, v, p);
    CongTrans(w * vy, w * v, 1, p);
    CongMul(u, uy, w, w, p);
    CongMod(u * w, p);
    CongTrans(x2, u * w, uy * w, p);
    forall x ensures OnEquation(p, d, x, y) <==> IsRoot(x, x2, p) {
      SolutionsAreRoots(p, d, x, y, w, x2);
    }
  }

  lemma SecondCandidate(p: int, x: int, c: int, s: int, t: int, a: int)
    requires p > 0 && Cong(x, c, p) && Cong(s, t, p) && 0 <= a < p
    ensures (x * s % p) * (x * s % p) % p == a <==> IsRoot(c * t, a, p)
  {
    CongMul(x, c, s, t, p);
    CongMod(x * s, p);
    CongTrans(x * s % p, x * s, c * t, p);
    ReducedCandidate(p, x * s % p, c * t, a);
  }

  lemma BigEndianValue(b: seq<byte>)
    ensures Val(Reverse(b), 256) == LeVal(b)
  {
    if b != [] {
      BigEndianValue(b[1..]);
      assert Reverse(b) == Reverse(b[1..]) + [b[0]];
      ValSnoc(Reverse(b[1..]), b[0], 256);
    }
  }

  /** curveD as the package variable computes it is the constant D. */
  method CurveD() returns (d: nat)
    ensures d == D
  {
    var inv := ModInverse(121666, P);
    CurveConstant();
    ghost var w := InverseOf121666(P);
    assert inv.Some?;
    d := -121665 * inv.value % P;
    CurveDIsD(P, D, inv.value);
  }

  lemma InverseOf121666(p: int) returns (w: int)
    requires IsPrime(p) && p > 121666
    ensures Cong(w * 121666, 1, p)
  {
    SmallNotDivisible(p, 121666);
    w := Inverse(p, 121666);
  }

  lemma CurveDIsD(p: int, d: int, w: int)
    requires IsPrime(p) && p > 121666 && 0 <= d < p && Cong(d * 121666, -121665, p)
    requires Cong(w * 121666, 1, p)
    ensures -121665 * w % p == d
  {
    var e := -121665 * w;
    CongRefl(-121665, p);
    CongMul(-121665, -121665, w * 121666, 1, p);
    assert -121665 * (w * 121666) == 121666 * e;
    CongSym(d * 121666, -121665, p);
    CongTrans(121666 * e, -121665, 121666 * d, p);
    SmallNotDivisible(p, 121666);
    Cancel(p, 121666, e, d);
    CongMod(e, p);
    CongTrans(e % p, e, d, p);
    CongSmall(e % p, d, p);
  }

  /** sqrtM1 as the package variable computes it: the (p-1)/4-th power of 2. */
  method SqrtM1(p: nat) returns (s: nat)
    requires IsPrime(p) && p % 8 == 5
    ensures s < p && Cong(s, Pow(2, (p - 1) / 4), p) && Cong(s * s, -1, p)
  {
    s := Exp(2, (p - 1) / 4, p);
    var t := Pow(2, (p - 1) / 4);
    CongMod(t, p);
    RootOfMinusOne(p);
    CongMul(s, t, s, t, p);
    CongTrans(s * s, t * t, -1, p);
  }

  /** IsOnCurve decides exactly whether the bytes are the compressed form of a point. */
  method IsOnCurve(b: Key) returns (on: bool)
    ensures on <==> OnCurve(b)
  {
    var y, sign := ReadEncoding(b);
    var d := CurveD();
    Parameters();
    on := Decompresses(P, d, y, sign);
  }

  /** The sign bit, and the integer the other bits make, read through a reversed copy. */
  method ReadEncoding(b: Key) returns (y: nat, sign: nat)
    ensures sign == SignBit(b) && y == LeVal(b[31 := b[31] % 128])
  {
    var le := new byte[32](i requires 0 <= i < 32 => b[i]);
    sign := le[31] / 128;
    le[31] := le[31] % 128;
    ghost var cleared := b[31 := b[31] % 128];
    assert le[..] == cleared;
    var be := new byte[32];
    for i := 0 to 32
      invariant le[..] == cleared
      invariant forall j :: 0 <= j < i ==> be[31 - j] == cleared[j]
    {
      be[31 - i] := le[i];
    }
    assert be[..] == Reverse(cleared);
    BigEndianValue(cleared);
    y := Val(be[..], 256);
  }

  /** The arithmetic of IsOnCurve, from the integer y and the sign bit on. */
  method Decompresses(p: nat, d: nat, y0: nat, sign: int) returns (on: bool)
    requires CurveParameters(p, d) && sign in {0, 1}
    ensures on <==> HasPoint(p, d, y0 % p, sign)
  {
    NotMinusOne(p, d);
    var y := y0 % p;
    var y2 := y * y % p;
    var u := (y2 - 1) % p;
    var v := d * y2;
    v := v + 1;
    v := v % p;
    ReducedEquation(p, d, y, y2, u, v);
    var vInv := ModInverse(v, p);
    if vInv.None? {
      VanishingWithoutInverse(p, d, y, v);
      return false;
    }
    var x2 := u * vInv.value % p;
    QuotientSolutions(p, d, y, u, v, vInv.value, x2);
    if x2 == 0 {
      ZeroCase(p, sign);
      return sign == 0;
    }
    SmallNotDivisible(p, x2);
    NonzeroCase(p, x2, sign);
    on := HasRoot(p, x2);
  }

  /** The two candidates, tried in turn: some number squares to x2. */
  method HasRoot(p: nat, x2: nat) returns (ok: bool)
    requires IsPrime(p) && p % 8 == 5 && 0 < x2 < p
    ensures ok <==> exists r :: IsRoot(r, x2, p)
  {
    SmallNotDivisible(p, x2);
    var x := Exp(x2, (p + 3) / 8, p);
    ghost var c := Pow(x2, (p + 3) / 8);
    CongMod(c, p);
    ReducedCandidate(p, x, c, x2);
    TwoCandidateTest(p, x2);
    var chk := x * x % p;
    if chk != x2 {
      var s := SqrtM1(p);
      SecondCandidate(p, x, c, s, Pow(2, (p - 1) / 4), x2);
      x := x * s;
      x := x % p;
      chk := x * x % p;
      if chk != x2 {
        return false;
      }
    }
    return true;
  }

  // ----------------------------------------------------- the bytes as a number

  /** Above this power of two lies the sign bit. */
  const TOP: nat := 0x8000000000000000000000000000000000000000000000000000000000000000

  /** The modulus is 2^255 - 19. */
  lemma ModulusIs()
    ensures TOP == Pow(2, 255) && P == TOP - 19
  {
    assert Pow(2, 3) == 8;
    PowStep(3, 8);
    PowStep(7, 0x80);
    PowStep(15, 0x8000);
    PowStep(31, 0x8000_0000);
    PowStep(63, 0x8000_0000_0000_0000);
    PowStep(127, 0x8000_0000_0000_0000_0000_0000_0000_0000);
  }

  lemma PowStep(e: nat, v: int)
    requires Pow(2, e) == v
    ensures Pow(2, 2 * e + 1) == 2 * (v * v)
  {
    PowAdd(2, e, e);
  }

  lemma {:induction false} LeValSnoc(a: seq<byte>, c: byte)
    ensures LeVal(a + [c]) == LeVal(a) + c * Pow(256, |a|)
  {
    if a != [] {
      LeValSnoc(a[1..], c);
      assert (a + [c])[1..] == a[1..] + [c];
      var q := Pow(256, |a| - 1);
      assert 256 * (c * q) == c * (256 * q);
    }
  }

  lemma TopBitPower()
    ensures Pow(2, 255) == 128 * Pow(256, 31)
  {
    assert Pow(2, 7) == 128 && Pow(2, 8) == 256;
    PowPow(2, 8, 31);
    PowAdd(2, 7, 248);
  }

  lemma TopBitSplit(v: nat, q: nat, t: byte)
    requires v < q
    ensures (v + t * q) / (128 * q) == t / 128
    ensures (v + t * q) % (128 * q) == v + t % 128 * q
  {
    var r := v + t % 128 * q;
    MulAtMost(t % 128, 127, q);
    assert t == t / 128 * 128 + t % 128;
    assert v + t * q == t / 128 * (128 * q) + r;
    DivUnique(v + t * q, 128 * q, t / 128, r);
  }

  lemma DivUnique(n: int, m: int, k: int, r: int)
    requires 0 <= r < m && n == k * m + r
    ensures n / m == k && n % m == r
  {
    DivMod(n, m);
    MultipleBound(n / m - k, m);
    assert (n / m - k) * m == r - n % m;
  }

  lemma TopByte(a: seq<byte>, t: byte, top: int)
    requires |a| == 31 && top == 128 * Pow(256, |a|)
    ensures top > 0 && LeVal(a + [t]) / top == t / 128 && LeVal(a + [t]) % top == LeVal(a + [t % 128])
  {
    LeValSnoc(a, t);
    LeValSnoc(a, t % 128);
    LeBytesVal(a);
    TopBitSplit(LeVal(a), Pow(256, |a|), t);
  }

  lemma CutTop(b: Key) returns (a: seq<byte>, t: byte)
    ensures |a| == 31 && t == b[31] && b == a + [t] && b[31 := b[31] % 128] == a + [t % 128]
  {
    a, t := b[..31], b[31];
  }

  /** The bytes denote a 256-bit little-endian number: its top bit is the sign, and the rest,
      reduced, is y. */
  lemma YAndSign(b: Key)
    ensures SignBit(b) == LeVal(b) / TOP
    ensures YCoordinate(b) == LeVal(b) % TOP % P
  {
    var a, t := CutTop(b);
    ModulusIs();
    TopBitPower();
    TopByte(a, t, TOP);
  }

  /** The equation depends on the residue of y alone. */
  lemma EquationModulo(p: int, d: int, x: int, y: int)
    requires p > 0
    ensures OnEquation(p, d, x, y % p) <==> OnEquation(p, d, x, y)
  {
    var z := y % p;
    CongMod(y, p);
    CongMul(z, y, z, y, p);
    CongRefl(d * (x * x), p);
    CongRefl(x * x, p);
    CongMul(d * (x * x), d * (x * x), z * z, y * y, p);
    CongAdd(d * (x * x) * (z * z), d * (x * x) * (y * y), z * z, y * y, p);
    var a, b := z * z - x * x, y * y - x * x;
    var e, f := 1 + d * (x * x) * (z * z), 1 + d * (x * x) * (y * y);
    CongAdd(z * z, y * y, 0 - x * x, 0 - x * x, p);
    CongAdd(1, 1, d * (x * x) * (z * z), d * (x * x) * (y * y), p);
    CongSym(a, b, p);
    CongSym(e, f, p);
    if Cong(a, e, p) { CongTrans(b, a, e, p); CongTrans(b, e, f, p); }
    if Cong(b, f, p) { CongTrans(a, b, f, p); CongTrans(a, f, e, p); }
  }

  lemma PointModulo(p: int, d: int, y: int, sign: int)
    requires p > 0
    ensures HasPoint(p, d, y % p, sign) <==> HasPoint(p, d, y, sign)
  {
    forall x ensures OnEquation(p, d, x, y % p) <==> OnEquation(p, d, x, y) {
      EquationModulo(p, d, x, y);
    }
  }

  lemma PointMeans(p: int, d: int, y: int, sign: int)
    requires p > 0
    ensures HasPoint(p, d, y, sign) <==> exists x :: 0 <= x < p && x % 2 == sign && OnEquation(p, d, x, y)
  {
    if x :| 0 <= x < p && x % 2 == sign && OnEquation(p, d, x, y) {
      assert Coordinate(p, x, sign);
    }
  }

  /** What IsOnCurve decides, from the number n the bytes denote: some x below 2^255 - 19 has the
      top bit of n as its parity and solves the equation with the other 255 bits of n. */
  lemma OnCurveExactly(b: Key)
    ensures var n := LeVal(b);
      OnCurve(b) <==>
        exists x :: 0 <= x < P && x % 2 == n / TOP && OnEquation(P, D, x, n % TOP)
  {
    YAndSign(b);
    PointModulo(P, D, LeVal(b) % TOP, SignBit(b));
    PointMeans(P, D, LeVal(b) % TOP, SignBit(b));
  }

  /** Decompression is a function: a y coordinate and a sign belong to at most one point. It holds
      of every odd prime and every d but -1, so by CurveConstant of the curve itself. */
  lemma PointUnique(p: int, d: int, y: int, sign: int, x: int, x': int)
    requires IsPrime(p) && p % 2 == 1 && !Cong(d, -1, p)
    requires Coordinate(p, x, sign) && Coordinate(p, x', sign)
    requires OnEquation(p, d, x, y) && OnEquation(p, d, x', y)
    ensures x == x'
  {
    var v, u := d * (y * y) + 1, y * y - 1;
    if Divides(p, v) { NoPointWhenVanishing(p, d, x, y); }
    EquationIsQuotient(p, d, x, y);
    EquationIsQuotient(p, d, x', y);
    CongSym(x' * x' * v, u, p);
    CongTrans(x * x * v, u, x' * x' * v, p);
    assert Cong(v * (x * x), v * (x' * x'), p);
    Cancel(p, v, x * x, x' * x');
    EqualSquares(p, x, x');
  }

  /** Zero is the only even multiple of an odd number below twice it. */
  lemma EvenMultiple(p: int, n: int)
    requires p > 0 && p % 2 == 1 && 0 <= n < 2 * p && n % 2 == 0 && Divides(p, n)
    ensures n == 0
  {
    var k := Quotient(p, n);
    MultipleBound(k, p);
    MultipleBound(k - 2, p);
    assert (k - 2) * p == n - 2 * p;
  }

  lemma EqualUpToSign(p: int, x: int, x': int)
    requires IsPrime(p) && Cong(x * x, x' * x', p)
    ensures Divides(p, x - x') || Divides(p, x + x')
  {
    assert x * x - x' * x' == (x - x') * (x + x');
    EuclidLemma(p, x - x', x + x');
  }

  lemma EvenSum(x: int, y: int)
    ensures x % 2 == y % 2 <==> (x + y) % 2 == 0
  {
  }

  lemma SignByParity(p: int, x: int, x': int)
    requires p > 0 && p % 2 == 1 && 0 <= x < p && 0 <= x' < p && (x + x') % 2 == 0
    requires Divides(p, x - x') || Divides(p, x + x')
    ensures x == x'
  {
    if Divides(p, x + x') {
      EvenMultiple(p, x + x');
    } else {
      CongSmall(x, x', p);
    }
  }

  /** Numbers of equal parity below an odd prime with congruent squares are equal. */
  lemma EqualSquares(p: int, x: int, x': int)
    requires IsPrime(p) && p % 2 == 1 && 0 <= x < p && 0 <= x' < p && x % 2 == x' % 2
    requires Cong(x * x, x' * x', p)
    ensures x == x'
  {
    EqualUpToSign(p, x, x');
    EvenSum(x, x');
    SignByParity(p, x, x');
  }
}
