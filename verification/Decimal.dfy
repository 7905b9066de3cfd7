/** Decimal text: strconv.ParseUint, strconv.FormatUint and big.Int.SetString in base 10. */
module Decimal {
  import opened Bytes
  import opened ModArith
  import opened Numerals

  predicate IsDigit(c: byte) {
    '0' as int <= c <= '9' as int
  }

  predicate AllDigits(s: seq<byte>) {
    forall i | 0 <= i < |s| :: IsDigit(s[i])
  }

  function DigitValues(s: seq<byte>): (ds: seq<int>)
    ensures |ds| == |s|
  {
    seq(|s|, i requires 0 <= i < |s| => s[i] - '0' as int)
  }

  /** The integer a digit string denotes. */
  function DecVal(s: seq<byte>): int {
    Val(DigitValues(s), 10)
  }

  lemma DecValBound(s: seq<byte>)
    requires AllDigits(s)
    ensures 0 <= DecVal(s) < Pow(10, |s|)
  {
    ValBound(DigitValues(s), 10);
  }

  lemma DigitValuesConcat(a: seq<byte>, b: seq<byte>)
    ensures DigitValues(a + b) == DigitValues(a) + DigitValues(b)
  {
  }

  lemma DecValConcat(a: seq<byte>, b: seq<byte>)
    ensures DecVal(a + b) == DecVal(a) * Pow(10, |b|) + DecVal(b)
  {
    DigitValuesConcat(a, b);
    ValConcat(DigitValues(a), DigitValues(b), 10);
  }

  lemma DecValSnoc(s: seq<byte>, c: byte)
    ensures DecVal(s + [c]) == DecVal(s) * 10 + (c - '0' as int)
  {
    assert DigitValues(s + [c]) == DigitValues(s) + [c - '0' as int];
    ValSnoc(DigitValues(s), c - '0' as int, 10);
  }

  function ZeroChars(n: nat): (s: seq<byte>)
    ensures |s| == n && AllDigits(s)
  {
    seq(n, _ => '0' as int)
  }

  lemma DecValZeros(n: nat)
    ensures DecVal(ZeroChars(n)) == 0
  {
    assert DigitValues(ZeroChars(n)) == Zeros(n);
    ValZeros(n, 10);
  }

  /** Digit strings of equal length and value are equal. */
  lemma DecValInjective(a: seq<byte>, b: seq<byte>)
    requires AllDigits(a) && AllDigits(b) && |a| == |b| && DecVal(a) == DecVal(b)
    ensures a == b
  {
    ValInjective(DigitValues(a), DigitValues(b), 10);
    forall i | 0 <= i < |a| ensures a[i] == b[i] {
      assert DigitValues(a)[i] == DigitValues(b)[i];
    }
  }

  function Chars(ds: seq<int>): (s: seq<byte>)
    requires InBase(ds, 10)
    ensures |s| == |ds| && AllDigits(s)
  {
    seq(|ds|, i requires 0 <= i < |ds| => ds[i] + '0' as int)
  }

  /** strconv.FormatUint(n, 10). */
  function FormatUint(n: nat): (s: seq<byte>)
    ensures AllDigits(s) && s != []
    ensures |s| > 1 ==> s[0] != '0' as int
  {
    if n == 0 then ['0' as int] else Chars(Digits(n, 10))
  }

  lemma FormatValue(n: nat)
    ensures DecVal(FormatUint(n)) == n
  {
    if n == 0 {
      assert DigitValues(FormatUint(0)) == Zeros(1);
      ValZeros(1, 10);
    } else {
      assert DigitValues(FormatUint(n)) == Digits(n, 10);
      ValDigits(n, 10);
    }
  }

  /** A digit string without a leading zero is the print of its value. */
  lemma FormatCanonical(s: seq<byte>)
    requires AllDigits(s) && s != [] && (|s| > 1 ==> s[0] != '0' as int)
    ensures DecVal(s) >= 0 && FormatUint(DecVal(s)) == s
  {
    DecValBound(s);
    var ds := DigitValues(s);
    if s[0] == '0' as int {
      assert s == ['0' as int];
      FormatValue(0);
    } else {
      assert ds[0] != 0;
      DigitsVal(ds, 10);
      assert Chars(ds) == s;
    }
  }

  /** strconv.ParseUint(s, 10, 64): digits only, at least one, and at most 2^64-1. */
  function ParseUint(s: seq<byte>): (r: Option<u64>) {
    if s != [] && AllDigits(s) && 0 <= DecVal(s) <= MAX_U64 then Some(DecVal(s)) else None
  }

  lemma ParseFormat(n: u64)
    ensures ParseUint(FormatUint(n)) == Some(n)
  {
    FormatValue(n);
  }

  /** big.Int.SetString(s, 10): an optional sign, then at least one digit, and nothing else. */
  function SetString(s: seq<byte>): (r: Option<int>) {
    var signed := s != [] && (s[0] == '+' as int || s[0] == '-' as int);
    var digits := if signed then s[1..] else s;
    if digits == [] || !AllDigits(digits) then None
    else if signed && s[0] == '-' as int then Some(-DecVal(digits))
    else Some(DecVal(digits))
  }

  lemma SetStringFormat(n: nat)
    ensures SetString(FormatUint(n)) == Some(n)
  {
    FormatValue(n);
    assert IsDigit(FormatUint(n)[0]);
  }

  lemma ZerosInFront(z: nat, s: seq<byte>)
    requires AllDigits(s)
    ensures DecVal(ZeroChars(z) + s) == DecVal(s)
  {
    DecValConcat(ZeroChars(z), s);
    DecValZeros(z);
  }

  /** A digit string is the print of its value behind some zeros. */
  lemma {:induction false} ZeroPadded(s: seq<byte>) returns (z: nat)
    requires AllDigits(s) && s != []
    ensures DecVal(s) >= 0 && s == ZeroChars(z) + FormatUint(DecVal(s))
  {
    DecValBound(s);
    if |s| > 1 && s[0] == '0' as int {
      z := ZeroPadded(s[1..]);
      ZerosInFront(1, s[1..]);
      assert s == ZeroChars(1) + s[1..];
      z := z + 1;
      assert ZeroChars(1) + ZeroChars(z - 1) == ZeroChars(z);
    } else {
      z := 0;
      FormatCanonical(s);
    }
  }

  /** The texts ParseUint reads as n are the print of n behind any number of zeros. */
  lemma ParseUintExactly(s: seq<byte>, n: u64)
    ensures ParseUint(s) == Some(n) <==> exists z: nat :: s == ZeroChars(z) + FormatUint(n)
  {
    if ParseUint(s) == Some(n) {
      var z := ZeroPadded(s);
    }
    if z: nat :| s == ZeroChars(z) + FormatUint(n) {
      ZerosInFront(z, FormatUint(n));
      FormatValue(n);
    }
  }

  /** An optional sign in front of digits, and the number it makes of theirs. */
  predicate Sign(sign: seq<byte>, n: nat, v: int) {
    (v == n && (sign == [] || sign == ['+' as int])) || (v == 0 - n && sign == ['-' as int])
  }

  lemma SignedReads(sign: seq<byte>, t: seq<byte>, n: nat, v: int)
    requires Sign(sign, n, v) && t != [] && AllDigits(t) && DecVal(t) == n
    ensures SetString(sign + t) == Some(v)
  {
    assert (sign + t)[|sign|..] == t;
    assert IsDigit(t[0]);
    if sign == [] { assert sign + t == t; }
  }

  lemma SplitSign(s: seq<byte>, v: int) returns (sign: seq<byte>, t: seq<byte>)
    requires SetString(s) == Some(v)
    ensures s == sign + t && t != [] && AllDigits(t) && DecVal(t) >= 0 && Sign(sign, DecVal(t), v)
  {
    var k := if s[0] == '+' as int || s[0] == '-' as int then 1 else 0;
    sign, t := s[..k], s[k..];
    DecValBound(t);
  }

  /** The text is the sign, z zeros and the print of n. */
  ghost predicate Signed(s: seq<byte>, sign: seq<byte>, z: nat, n: nat) {
    s == sign + (ZeroChars(z) + FormatUint(n))
  }

  lemma SignedPrint(s: seq<byte>, v: int) returns (sign: seq<byte>, z: nat, n: nat)
    requires SetString(s) == Some(v)
    ensures Sign(sign, n, v) && Signed(s, sign, z, n)
  {
    var t;
    sign, t := SplitSign(s, v);
    n := DecVal(t);
    z := ZeroPadded(t);
  }

  lemma SignedPrintReads(s: seq<byte>, v: int, sign: seq<byte>, z: nat, n: nat)
    requires Sign(sign, n, v) && Signed(s, sign, z, n)
    ensures SetString(s) == Some(v)
  {
    ZerosInFront(z, FormatUint(n));
    FormatValue(n);
    SignedReads(sign, ZeroChars(z) + FormatUint(n), n, v);
  }

  /** The texts SetString reads as v are an optional sign and the print of its magnitude behind any
      number of zeros. */
  lemma SetStringExactly(s: seq<byte>, v: int)
    ensures SetString(s) == Some(v) <==>
      exists sign, z: nat, n: nat :: Sign(sign, n, v) && Signed(s, sign, z, n)
  {
    if SetString(s) == Some(v) {
      var sign, z, n := SignedPrint(s, v);
    }
    if sign, z: nat, n: nat :| Sign(sign, n, v) && Signed(s, sign, z, n) {
      SignedPrintReads(s, v, sign, z, n);
    }
  }
}
