/** Positional numerals, most significant digit first: the arithmetic behind big.Int
    SetBytes, Bytes, base58 and decimal text. */
module Numerals {
  import opened ModArith

  ghost predicate InBase(ds: seq<int>, base: int) {
    forall i :: 0 <= i < |ds| ==> 0 <= ds[i] < base
  }

  /** The value of a digit string. */
  function Val(ds: seq<int>, base: int): int {
    if ds == [] then 0 else Val(ds[..|ds| - 1], base) * base + ds[|ds| - 1]
  }

  /** The shortest digit string of n; zero has no digits. */
  function Digits(n: nat, base: nat): (ds: seq<nat>)
    requires base >= 2
    ensures InBase(ds, base)
    ensures ds != [] ==> ds[0] != 0
    ensures ds == [] <==> n == 0
  {
    if n == 0 then [] else Digits(n / base, base) + [n % base]
  }

  function Zeros(n: nat): (ds: seq<nat>)
    ensures |ds| == n
  {
    seq(n, _ => 0)
  }

  function LeadingZeros(ds: seq<int>): (k: nat)
    ensures k <= |ds|
  {
    if ds == [] || ds[0] != 0 then 0 else 1 + LeadingZeros(ds[1..])
  }

  lemma ValSnoc(ds: seq<int>, d: int, base: int)
    ensures Val(ds + [d], base) == Val(ds, base) * base + d
  {
    assert (ds + [d])[..|ds|] == ds;
  }

  lemma DivMod(n: int, base: int)
    requires base > 0
    ensures n == n / base * base + n % base
  {
  }

  lemma DivModOf(n: nat, base: nat) returns (q: nat, r: nat)
    requires base >= 2
    ensures q == n / base && r == n % base && n == q * base + r && (n > 0 ==> q < n)
  {
    q, r := n / base, n % base;
    DivMod(n, base);
    Twice(q, base);
  }

  lemma Twice(q: nat, base: nat)
    requires base >= 2
    ensures q * base >= 2 * q
  {
  }

  lemma {:induction false} ValDigits(n: nat, base: nat)
    requires base >= 2
    ensures Val(Digits(n, base), base) == n
  {
    if n > 0 {
      var q, r := DivModOf(n, base);
      ValDigits(q, base);
      ValSnoc(Digits(q, base), r, base);
      assert Digits(n, base) == Digits(q, base) + [r];
    }
  }

  lemma {:induction false} ValBound(ds: seq<int>, base: int)
    requires base >= 2 && InBase(ds, base)
    ensures 0 <= Val(ds, base) < Pow(base, |ds|)
  {
    if ds != [] {
      var n := |ds| - 1;
      ValBound(ds[..n], base);
      var v, p := Val(ds[..n], base), Pow(base, n);
      HornerBound(v, ds[n], p, base);
    }
  }

  lemma HornerBound(v: int, d: int, p: int, base: int)
    requires 0 <= v < p && 0 <= d < base
    ensures 0 <= v * base + d < base * p
  {
    MulAtMost(v, p - 1, base);
    assert (p - 1) * base == base * p - base;
  }

  lemma MulAtMost(a: int, b: int, c: int)
    requires 0 <= a <= b && c >= 0
    ensures 0 <= a * c <= b * c
  {
  }

  lemma {:induction false} ValConcat(a: seq<int>, b: seq<int>, base: int)
    ensures Val(a + b, base) == Val(a, base) * Pow(base, |b|) + Val(b, base)
  {
    if b == [] {
      assert a + b == a;
    } else {
      var n := |b| - 1;
      ValConcat(a, b[..n], base);
      assert (a + b)[..|a + b| - 1] == a + b[..n];
      var v, p, w := Val(a, base), Pow(base, n), Val(b[..n], base);
      assert (v * p + w) * base == v * (base * p) + w * base;
    }
  }

  lemma {:induction false} ValZeros(k: nat, base: int)
    ensures Val(Zeros(k), base) == 0
  {
    if k > 0 {
      assert Zeros(k)[..k - 1] == Zeros(k - 1);
      ValZeros(k - 1, base);
    }
  }

  lemma ValPadded(k: nat, ds: seq<int>, base: int)
    ensures Val(Zeros(k) + ds, base) == Val(ds, base)
  {
    ValConcat(Zeros(k), ds, base);
    ValZeros(k, base);
  }

  /** A digit string without leading zeros is the shortest one of its value. */
  lemma {:induction false} DigitsVal(ds: seq<int>, base: nat)
    requires base >= 2 && InBase(ds, base) && (ds != [] ==> ds[0] != 0)
    ensures Val(ds, base) >= 0 && Digits(Val(ds, base), base) == ds
  {
    ValBound(ds, base);
    if ds != [] {
      var n := |ds| - 1;
      var v := Val(ds[..n], base);
      ValBound(ds[..n], base);
      DigitsVal(ds[..n], base);
      DivModUnique(v, ds[n], base);
      if ds[..n] == [] {
        assert Val(ds, base) == ds[0];
      } else {
        MultipleBound(v, base);
      }
      assert ds == ds[..n] + [ds[n]];
    }
  }

  lemma DivModUnique(q: int, r: int, base: int)
    requires base >= 2 && 0 <= r < base
    ensures (q * base + r) / base == q && (q * base + r) % base == r
  {
    CongIntro(q * base + r, r, base, q);
    CongMod(q * base + r, base);
    CongTrans((q * base + r) % base, q * base + r, r, base);
    CongSmall((q * base + r) % base, r, base);
    var k := (q * base + r) / base;
    assert (k - q) * base == 0;
    MultipleBound(k - q, base);
  }

  /** Numbers below base^k are those with at most k digits. */
  lemma {:induction false} DigitsLength(n: nat, base: nat, k: nat)
    requires base >= 2
    ensures n < Pow(base, k) <==> |Digits(n, base)| <= k
    decreases k
  {
    if n == 0 {
      PowPositive(base, k);
    } else if k == 0 {
    } else {
      DigitsLength(n / base, base, k - 1);
      DivBelow(n, base, Pow(base, k - 1));
    }
  }

  lemma DivBelow(n: nat, base: nat, p: int)
    requires base >= 2
    ensures n < base * p <==> n / base < p
  {
    DivMod(n, base);
    var q := n / base;
    if q < p {
      MulAtMost(q, p - 1, base);
      assert (p - 1) * base == base * p - base;
    } else if p >= 0 {
      MulAtMost(p, q, base);
      assert p * base == base * p;
    } else {
      assert base * p < 0;
    }
  }

  lemma ZerosCons(k: nat, t: seq<int>)
    ensures Zeros(k + 1) + t == [0] + (Zeros(k) + t)
  {
  }

  lemma {:induction false} LeadingZerosSplit(ds: seq<int>)
    ensures var k := LeadingZeros(ds);
            ds == Zeros(k) + ds[k..] && (ds[k..] != [] ==> ds[k..][0] != 0)
  {
    if ds != [] && ds[0] == 0 {
      var t := ds[1..];
      LeadingZerosSplit(t);
      var k := LeadingZeros(t);
      assert LeadingZeros(ds) == k + 1 && ds[k + 1..] == t[k..];
      ZerosCons(k, t[k..]);
      assert ds == [0] + t;
    }
  }

  lemma LeadingZerosPadded(k: nat, ds: seq<int>)
    requires ds != [] ==> ds[0] != 0
    ensures LeadingZeros(Zeros(k) + ds) == k
  {
    if k == 0 {
      assert Zeros(k) + ds == ds;
    } else {
      assert (Zeros(k) + ds)[1..] == Zeros(k - 1) + ds;
      LeadingZerosPadded(k - 1, ds);
    }
  }

  /** A digit string is its leading zeros followed by the shortest digits of its value. */
  lemma Canonical(ds: seq<int>, base: nat)
    requires base >= 2 && InBase(ds, base)
    ensures Val(ds, base) >= 0
    ensures ds == Zeros(LeadingZeros(ds)) + Digits(Val(ds, base), base)
  {
    var k := LeadingZeros(ds);
    LeadingZerosSplit(ds);
    ValPadded(k, ds[k..], base);
    DigitsVal(ds[k..], base);
  }

  /** Digit strings of equal length and value are equal. */
  lemma ValInjective(a: seq<int>, b: seq<int>, base: nat)
    requires base >= 2 && InBase(a, base) && InBase(b, base)
    requires |a| == |b| && Val(a, base) == Val(b, base)
    ensures a == b
  {
    Canonical(a, base);
    Canonical(b, base);
    assert |a| == LeadingZeros(a) + |Digits(Val(a, base), base)|;
    assert |b| == LeadingZeros(b) + |Digits(Val(b, base), base)|;
  }
}
