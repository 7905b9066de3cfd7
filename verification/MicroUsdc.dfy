/** Fixed-point amounts: cmd/mcp-gateway/main.go, microUSDC. */
module MicroUsdc {
  import opened Bytes
  import opened ModArith
  import opened Decimal
  import opened Numerals

  const DOT: byte := '.' as int
  const ZERO: byte := '0' as int

  datatype AmountError =
    | Empty | NoInteger | LeadingZero | NotDigits | BadFraction | TooPrecise
    | OutOfRange | Overflow | ZeroAmount

  /** A decimal integer in shortest form: a lone zero, or digits that do not start with one. */
  ghost predicate IsInt(i: seq<byte>) {
    AllDigits(i) && i != [] && (|i| > 1 ==> i[0] != ZERO)
  }

  /** Between one and six digits. */
  ghost predicate IsFrac(f: seq<byte>) {
    AllDigits(f) && 1 <= |f| <= 6
  }

  /** The text s is the integer i alone, or i, a point and the fraction f. */
  ghost predicate Amount(s: seq<byte>, i: seq<byte>, f: seq<byte>) {
    IsInt(i) && ((f == [] && s == i) || (IsFrac(f) && s == i + [DOT] + f))
  }

  /** The amount in millionths: the digits read as one integer, scaled by the missing places. */
  ghost function Micros(i: seq<byte>, f: seq<byte>): int
    requires |f| <= 6
  {
    DecVal(i + f) * Pow(10, 6 - |f|)
  }

  function Padded(f: seq<byte>): (p: seq<byte>)
    requires |f| <= 6
    ensures |p| == 6
  {
    f + ZeroChars(6 - |f|)
  }

  lemma PowSix()
    ensures Pow(10, 6) == 1_000_000
  {
    assert Pow(10, 3) == 1000;
  }

  lemma PaddedValue(f: seq<byte>)
    requires |f| <= 6
    ensures DecVal(Padded(f)) == DecVal(f) * Pow(10, 6 - |f|)
  {
    DecValConcat(f, ZeroChars(6 - |f|));
    DecValZeros(6 - |f|);
  }

  /** Whole units and padded fraction combine to the amount. */
  lemma MicrosSplit(i: seq<byte>, f: seq<byte>)
    requires |f| <= 6
    ensures Micros(i, f) == DecVal(i) * 1_000_000 + DecVal(Padded(f))
  {
    var w, x, p, q := DecVal(i), DecVal(f), Pow(10, |f|), Pow(10, 6 - |f|);
    DecValConcat(i, f);
    PaddedValue(f);
    PowAdd(10, |f|, 6 - |f|);
    PowSix();
    assert (w * p + x) * q == w * (p * q) + x * q;
  }

  lemma FractionBelowMillion(f: seq<byte>)
    requires AllDigits(f) && |f| <= 6
    ensures 0 <= DecVal(Padded(f)) < 1_000_000
  {
    DecValBound(Padded(f));
    PowSix();
  }

  /** strings.Cut(s, "."). */
  method Cut(s: seq<byte>) returns (before: seq<byte>, after: seq<byte>, found: bool)
    ensures IsCut(s, before, after, found)
  {
    for k := 0 to |s|
      invariant DOT !in s[..k]
    {
      if s[k] == DOT {
        assert s == s[..k] + [DOT] + s[k + 1..];
        return s[..k], s[k + 1..], true;
      }
    }
    assert s[..|s|] == s;
    return s, [], false;
  }

  method CheckDigits(s: seq<byte>) returns (ok: bool)
    ensures ok <==> AllDigits(s) && s != []
  {
    for k := 0 to |s|
      invariant AllDigits(s[..k])
    {
      if s[k] < '0' as int || s[k] > '9' as int {
        return false;
      }
    }
    return |s| > 0;
  }

  /** A grammatical amount is cut at its point, and nowhere else. */
  lemma CutIsUnique(s: seq<byte>, before: seq<byte>, after: seq<byte>, i: seq<byte>, f: seq<byte>)
    requires DOT !in before && s == before + [DOT] + after && Amount(s, i, f)
    ensures i == before && f == after && IsFrac(after)
  {
    assert DOT in before + [DOT] + after;
    assert DOT !in i;
    FirstPoint(before, after, i, f);
  }

  lemma FirstPoint(a: seq<byte>, b: seq<byte>, c: seq<byte>, d: seq<byte>)
    requires DOT !in a && DOT !in c && a + [DOT] + b == c + [DOT] + d
    ensures a == c && b == d
  {
    var t := a + [DOT] + b;
    assert t[|a|] == DOT && t[|c|] == DOT;
    assert forall j :: 0 <= j < |a| ==> t[j] == a[j] != DOT;
    assert forall j :: 0 <= j < |c| ==> t[j] == c[j] != DOT;
    assert a == t[..|a|] && c == t[..|c|] && b == t[|a| + 1..] && d == t[|c| + 1..];
  }

  lemma NoPoint(s: seq<byte>, i: seq<byte>, f: seq<byte>)
    requires DOT !in s && Amount(s, i, f)
    ensures i == s && f == []
  {
    assert DOT in i + [DOT] + f;
  }

  /** The parts of a grammatical amount are determined by its text. */
  lemma PartsUnique(s: seq<byte>, i: seq<byte>, f: seq<byte>, j: seq<byte>, g: seq<byte>)
    requires Amount(s, i, f) && Amount(s, j, g)
    ensures i == j && f == g
  {
    if f == [] {
      assert DOT !in s;
      NoPoint(s, j, g);
    } else {
      assert DOT !in i;
      CutIsUnique(s, i, f, j, g);
    }
  }

  /** What each refusal that precedes the arithmetic diagnoses, in the order of the checks;
      before and after are the parts of the text around its first point. */
  ghost predicate Diagnosis(s: seq<byte>, before: seq<byte>, after: seq<byte>, found: bool, e: AmountError) {
    match e
    case Empty => s == []
    case NoInteger => s != [] && before == []
    case LeadingZero => |before| > 1 && before[0] == ZERO
    case NotDigits => before != [] && !(|before| > 1 && before[0] == ZERO) && !AllDigits(before)
    case BadFraction => IsInt(before) && found && (after == [] || !AllDigits(after))
    case TooPrecise => IsInt(before) && found && AllDigits(after) && |after| > 6
    case OutOfRange => Amount(s, before, after) && DecVal(before) > MAX_U64
    case Overflow =>
      Amount(s, before, after) && DecVal(before) <= MAX_U64 && Micros(before, after) > MAX_U64
    case ZeroAmount => Amount(s, before, after) && Micros(before, after) == 0
  }

  /** The parts strings.Cut returns. */
  ghost predicate IsCut(s: seq<byte>, before: seq<byte>, after: seq<byte>, found: bool) {
    && DOT !in before
    && (found ==> s == before + [DOT] + after)
    && (!found ==> before == s && after == [])
  }

  lemma CutsAgree(s: seq<byte>, b: seq<byte>, a: seq<byte>, f: bool, b': seq<byte>, a': seq<byte>, f': bool)
    requires IsCut(s, b, a, f) && IsCut(s, b', a', f')
    ensures b == b' && a == a' && f == f'
  {
    assert DOT in b + [DOT] + a && DOT in b' + [DOT] + a';
    if f && f' { FirstPoint(b, a, b', a'); }
  }

  /** microUSDC succeeds iff the text is grammatical and denotes between 1 and 2^64-1
      millionths, and then returns exactly that number. */
  method ParseMicroUsdc(s: seq<byte>) returns (r: Result<u64, AmountError>)
    ensures r.Ok? <==> exists i, f :: Amount(s, i, f) && 0 < Micros(i, f) <= MAX_U64
    ensures r.Ok? ==> forall i, f :: Amount(s, i, f) ==> Micros(i, f) == r.value
    ensures r == Err(ZeroAmount) <==> exists i, f :: Amount(s, i, f) && Micros(i, f) == 0
    ensures r == Err(OutOfRange) || r == Err(Overflow) <==>
      exists i, f :: Amount(s, i, f) && Micros(i, f) > MAX_U64
    ensures r.Err? ==> forall b, a, found :: IsCut(s, b, a, found) ==> Diagnosis(s, b, a, found, r.error)
  {
    if s == [] { return Err(Empty); }
    var intPart, fracPart, hasFrac := Cut(s);
    forall b, a, found | IsCut(s, b, a, found)
      ensures b == intPart && a == fracPart && found == hasFrac
    {
      CutsAgree(s, b, a, found, intPart, fracPart, hasFrac);
    }
    r := ParseParts(s, intPart, fracPart, hasFrac);
  }

  /** The body of microUSDC after the cut. */
  method ParseParts(s: seq<byte>, intPart: seq<byte>, fracPart: seq<byte>, hasFrac: bool)
      returns (r: Result<u64, AmountError>)
    requires s != [] && IsCut(s, intPart, fracPart, hasFrac)
    ensures r.Ok? <==> exists i, f :: Amount(s, i, f) && 0 < Micros(i, f) <= MAX_U64
    ensures r.Ok? ==> forall i, f :: Amount(s, i, f) ==> Micros(i, f) == r.value
    ensures r == Err(ZeroAmount) <==> exists i, f :: Amount(s, i, f) && Micros(i, f) == 0
    ensures r == Err(OutOfRange) || r == Err(Overflow) <==>
      exists i, f :: Amount(s, i, f) && Micros(i, f) > MAX_U64
    ensures r.Err? ==> Diagnosis(s, intPart, fracPart, hasFrac, r.error)
  {
    forall i, f | Amount(s, i, f) ensures i == intPart && f == fracPart && (hasFrac ==> IsFrac(f)) {
      if hasFrac { CutIsUnique(s, intPart, fracPart, i, f); } else { NoPoint(s, i, f); }
    }
    if intPart == [] { return Err(NoInteger); }
    if |intPart| > 1 && intPart[0] == ZERO { return Err(LeadingZero); }
    var digits := CheckDigits(intPart);
    if !digits { return Err(NotDigits); }
    if hasFrac {
      var fracDigits := CheckDigits(fracPart);
      if fracPart == [] || !fracDigits { return Err(BadFraction); }
      if |fracPart| > 6 { return Err(TooPrecise); }
    }
    assert Amount(s, intPart, fracPart);
    ghost var total := Micros(intPart, fracPart);
    MicrosSplit(intPart, fracPart);
    FractionBelowMillion(fracPart);
    DecValBound(intPart);
    var whole := ParseUint(intPart);
    if whole.None? { return Err(OutOfRange); }
    var padded := PadFraction(fracPart);
    var frac := ParseUint(padded);
    if frac.None? { return Err(OutOfRange); }
    if whole.value > (MAX_U64 - frac.value) / 1_000_000 { return Err(Overflow); }
    var micro := whole.value * 1_000_000 + frac.value;
    if micro == 0 { return Err(ZeroAmount); }
    return Ok(micro);
  }

  /** Pad the fraction to six digits. */
  method PadFraction(f: seq<byte>) returns (p: seq<byte>)
    requires |f| <= 6
    ensures p == Padded(f)
  {
    p := f;
    while |p| < 6
      invariant |f| <= |p| <= 6
      invariant p == f + ZeroChars(|p| - |f|)
    {
      p := p + [ZERO];
    }
  }

  // ------------------------------------------------------------- round trip

  /** f is a fraction of k millionths, with any number of trailing zeros. */
  ghost predicate Fraction(f: seq<byte>, k: int) {
    AllDigits(f) && |f| <= 6 && DecVal(Padded(f)) == k
  }

  function Printed(whole: nat, f: seq<byte>): seq<byte> {
    if f == [] then FormatUint(whole) else FormatUint(whole) + ['.' as int] + f
  }

  /** Every number of millionths printed with a faithful fraction reads back as itself. */
  lemma PrintReadsBack(m: nat, f: seq<byte>)
    requires Fraction(f, m % 1_000_000)
    ensures Amount(Printed(m / 1_000_000, f), FormatUint(m / 1_000_000), f)
    ensures Micros(FormatUint(m / 1_000_000), f) == m
  {
    FormatValue(m / 1_000_000);
    MicrosSplit(FormatUint(m / 1_000_000), f);
  }

  /** The texts of n millionths are exactly its prints: the whole units without leading zeros and,
      after a point, one to six digits that faithfully give the rest; no point if there are none. */
  lemma DenotesExactly(s: seq<byte>, n: nat)
    ensures (exists i, f :: Amount(s, i, f) && Micros(i, f) == n)
      <==> exists f :: Fraction(f, n % 1_000_000) && s == Printed(n / 1_000_000, f)
  {
    if i, f :| Amount(s, i, f) && Micros(i, f) == n {
      MicrosSplit(i, f);
      FractionBelowMillion(f);
      FormatCanonical(i);
      WholeAndRest(n, DecVal(i), DecVal(Padded(f)));
      assert Fraction(f, n % 1_000_000) && s == Printed(n / 1_000_000, f);
    }
    if f :| Fraction(f, n % 1_000_000) && s == Printed(n / 1_000_000, f) {
      PrintReadsBack(n, f);
    }
  }

  lemma WholeAndRest(n: nat, w: int, k: int)
    requires n == w * 1_000_000 + k && 0 <= k < 1_000_000
    ensures n / 1_000_000 == w && n % 1_000_000 == k
  {
  }

  /** Two amounts are equal iff they agree in the integer part and, padded, in the fraction:
      texts of the same amount differ only in trailing fractional zeros or the point. */
  lemma SameAmount(s: seq<byte>, i: seq<byte>, f: seq<byte>, t: seq<byte>, j: seq<byte>, g: seq<byte>)
    requires Amount(s, i, f) && Amount(t, j, g)
    ensures Micros(i, f) == Micros(j, g) <==> i == j && Padded(f) == Padded(g)
  {
    MicrosSplit(i, f);
    MicrosSplit(j, g);
    FractionBelowMillion(f);
    FractionBelowMillion(g);
    if Micros(i, f) == Micros(j, g) {
      FormatCanonical(i);
      FormatCanonical(j);
      DecValInjective(Padded(f), Padded(g));
    }
  }

  /** The six digits of a fraction below a million always exist. */
  lemma SixDigits(k: nat) returns (f: seq<byte>)
    requires k < 1_000_000
    ensures Fraction(f, k) && |f| == 6
  {
    FormatValue(k);
    var d := FormatUint(k);
    PowSix();
    DigitsLength(k, 10, 6);
    f := ZeroChars(6 - |d|) + d;
    DecValConcat(ZeroChars(6 - |d|), d);
    DecValZeros(6 - |d|);
    assert Padded(f) == f;
  }
}
