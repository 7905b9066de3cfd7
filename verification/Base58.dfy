/** Base58 addresses: escrow/programs.go, DecodePubkey, and the canonical encoder. */
module Base58 {
  import opened Bytes
  import opened ModArith
  import opened Numerals

  /** "123456789ABCDEFGHJKLMNPQRSTUVWXYZabcdefghijkmnopqrstuvwxyz": no 0, I, O or l. */
  const ALPHABET: seq<byte> :=
    Span('1', 9) + Span('A', 8) + Span('J', 5) + Span('P', 11) + Span('a', 11) + Span('m', 14)

  const ONE: byte := '1' as int

  datatype DecodeError = BadChar | BadLength

  ghost predicate InAlphabet(s: seq<byte>) {
    forall i :: 0 <= i < |s| ==> s[i] in ALPHABET
  }

  /** The 58 characters in order. */
  lemma AlphabetText()
    ensures |ALPHABET| == 58
    ensures ALPHABET == Ascii("123456789") + Ascii("ABCDEFGH") + Ascii("JKLMN") + Ascii("PQRSTUVWXYZ")
      + Ascii("abcdefghijk") + Ascii("mnopqrstuvwxyz")
  {
    SpanText();
  }

  lemma SpanText()
    ensures Ascii("123456789") == Span('1', 9) && Ascii("ABCDEFGH") == Span('A', 8)
    ensures Ascii("JKLMN") == Span('J', 5) && Ascii("PQRSTUVWXYZ") == Span('P', 11)
    ensures Ascii("abcdefghijk") == Span('a', 11) && Ascii("mnopqrstuvwxyz") == Span('m', 14)
  {
  }

  /** The position of c in the alphabet, or -1. */
  function CharIndex(c: byte): (d: int)
    ensures -1 <= d < |ALPHABET|
    ensures d >= 0 ==> ALPHABET[d] == c
    ensures d < 0 ==> c !in ALPHABET
  {
    FirstIndex(c, 0)
  }

  function FirstIndex(c: byte, from: nat): (d: int)
    requires from <= |ALPHABET|
    ensures -1 <= d < |ALPHABET|
    ensures d >= 0 ==> from <= d && ALPHABET[d] == c
    ensures d < 0 ==> c !in ALPHABET[from..]
    decreases |ALPHABET| - from
  {
    if from == |ALPHABET| then -1
    else if ALPHABET[from] == c then from
    else assert ALPHABET[from..] == [ALPHABET[from]] + ALPHABET[from + 1..]; FirstIndex(c, from + 1)
  }

  lemma AlphabetIncreases(i: nat, j: nat)
    requires i < j < |ALPHABET|
    ensures ALPHABET[i] < ALPHABET[j]
  {
  }

  lemma IndexOfAlphabet(i: nat)
    requires i < |ALPHABET|
    ensures CharIndex(ALPHABET[i]) == i
  {
    var d := CharIndex(ALPHABET[i]);
    assert ALPHABET[i] in ALPHABET;
    if d < i { AlphabetIncreases(d, i); } else if i < d { AlphabetIncreases(i, d); }
  }

  /** The digits a base58 string spells. */
  function DigitsOf(s: seq<byte>): (ds: seq<int>)
    ensures |ds| == |s|
  {
    seq(|s|, i requires 0 <= i < |s| => CharIndex(s[i]))
  }

  /** The base58 string that spells some digits. */
  function Spell(ds: seq<int>): (s: seq<byte>)
    requires InBase(ds, 58)
    ensures |s| == |ds| && InAlphabet(s)
  {
    seq(|ds|, i requires 0 <= i < |ds| => ALPHABET[ds[i]])
  }

  lemma SpellDigits(s: seq<byte>)
    requires InAlphabet(s)
    ensures InBase(DigitsOf(s), 58) && Spell(DigitsOf(s)) == s
  {
  }

  lemma DigitsSpell(ds: seq<int>)
    requires InBase(ds, 58)
    ensures DigitsOf(Spell(ds)) == ds
  {
    forall i | 0 <= i < |ds| ensures DigitsOf(Spell(ds))[i] == ds[i] {
      IndexOfAlphabet(ds[i]);
    }
  }

  function LeadingOnes(s: seq<byte>): (k: nat)
    ensures k <= |s|
  {
    if s == [] || s[0] != ONE then 0 else 1 + LeadingOnes(s[1..])
  }

  lemma LeadingOnesAreZeros(s: seq<byte>)
    ensures LeadingOnes(s) == LeadingZeros(DigitsOf(s))
  {
    IndexOfAlphabet(0);
    assert ALPHABET[0] == ONE;
    if s != [] {
      LeadingOnesAreZeros(s[1..]);
      assert DigitsOf(s)[1..] == DigitsOf(s[1..]);
      assert CharIndex(s[0]) == 0 ==> s[0] == ONE;
    }
  }

  /** The integer a base58 string denotes. */
  function Value(s: seq<byte>): int {
    Val(DigitsOf(s), 58)
  }

  /** The acceptance condition of DecodePubkey. */
  ghost predicate Accepts(s: seq<byte>) {
    && InAlphabet(s)
    && 0 <= Value(s) < Pow(256, 32)
    && LeadingOnes(s) <= 32 - |Digits(Value(s), 256)|
  }

  /** n.Bytes() right-aligned in 32 bytes. */
  function RightAligned(n: nat): (k: Key)
    requires |Digits(n, 256)| <= 32
  {
    Zeros(32 - |Digits(n, 256)|) + Digits(n, 256)
  }

  lemma RightAlignedValue(n: nat)
    requires |Digits(n, 256)| <= 32
    ensures Val(RightAligned(n), 256) == n
  {
    ValPadded(32 - |Digits(n, 256)|, Digits(n, 256), 256);
    ValDigits(n, 256);
  }

  /** What DecodePubkey returns. */
  ghost function Decoded(s: seq<byte>): Result<Key, DecodeError> {
    if !InAlphabet(s) then Err(BadChar)
    else if Accepts(s) then DigitsLength(Value(s), 256, 32); Ok(RightAligned(Value(s)))
    else Err(BadLength)
  }

  /** indexBase58: linear search in the alphabet. */
  method IndexBase58(c: byte) returns (d: int)
    ensures d == CharIndex(c)
  {
    for i := 0 to |ALPHABET|
      invariant CharIndex(c) == FirstIndex(c, i)
    {
      if ALPHABET[i] == c { return i; }
    }
    return -1;
  }

  /** DecodePubkey: exact acceptance, and the value of the result. */
  method DecodePubkey(s: seq<byte>) returns (r: Result<Key, DecodeError>)
    ensures r == Decoded(s)
    ensures r.Ok? <==> Accepts(s)
    ensures r.Ok? ==> Val(r.value, 256) == Value(s)
    ensures r == Err(BadChar) <==> !InAlphabet(s)
  {
    var n := 0;
    for i := 0 to |s|
      invariant n == Value(s[..i]) && n >= 0
      invariant InAlphabet(s[..i])
    {
      var idx := IndexBase58(s[i]);
      if idx < 0 {
        assert s[i] !in ALPHABET;
        return Err(BadChar);
      }
      ValueStep(s, i);
      assert s[..i + 1] == s[..i] + [s[i]];
      n := n * 58;
      n := n + idx;
    }
    assert s[..|s|] == s;
    var be := Digits(n, 256);
    DigitsLength(n, 256, 32);
    if |be| > 32 {
      return Err(BadLength);
    }
    var out := RightAlign(be);
    var lead := CountOnes(s);
    if lead > 32 - |be| {
      return Err(BadLength);
    }
    RightAlignedValue(n);
    return Ok(out);
  }

  lemma ValueStep(s: seq<byte>, i: nat)
    requires i < |s|
    ensures Value(s[..i + 1]) == Value(s[..i]) * 58 + CharIndex(s[i])
  {
    DigitsSnoc(s[..i], s[i]);
    assert s[..i + 1] == s[..i] + [s[i]];
    ValSnoc(DigitsOf(s[..i]), CharIndex(s[i]), 58);
  }

  lemma DigitsSnoc(s: seq<byte>, c: byte)
    ensures DigitsOf(s + [c]) == DigitsOf(s) + [CharIndex(c)]
  {
  }

  /** copy(out[32-len(be):], be) into a zeroed array. */
  method RightAlign(be: seq<byte>) returns (k: Key)
    requires |be| <= 32
    ensures k == Zeros(32 - |be|) + be
  {
    var out := new byte[32](_ => 0);
    var gap := 32 - |be|;
    for i := 0 to |be|
      invariant forall j :: 0 <= j < i ==> out[gap + j] == be[j]
      invariant forall j :: 0 <= j < gap ==> out[j] == 0
    {
      out[gap + i] := be[i];
    }
    assert out[..] == Zeros(gap) + be;
    k := out[..];
  }

  /** The count of leading '1' characters. */
  method CountOnes(s: seq<byte>) returns (lead: nat)
    ensures lead == LeadingOnes(s)
  {
    lead := 0;
    while lead < |s| && s[lead] == ONE
      invariant 0 <= lead <= |s|
      invariant LeadingOnes(s) == lead + LeadingOnes(s[lead..])
    {
      lead := lead + 1;
    }
  }

  // --------------------------------------------------------------- round trips

  lemma KeyValue(k: Key)
    ensures 0 <= Val(k, 256) < Pow(256, 32)
  {
    ValBound(k, 256);
  }

  /** The spelling of a key with j leading ones. */
  function Spelling(k: Key, j: nat): (s: seq<byte>) {
    KeyValue(k);
    Spell(Zeros(j) + Digits(Val(k, 256), 58))
  }

  /** The canonical encoding: one '1' per leading zero byte, then the shortest digits. */
  function Encode(k: Key): (s: seq<byte>) {
    Spelling(k, LeadingZeros(k))
  }

  lemma SpellingFacts(k: Key, j: nat)
    ensures Value(Spelling(k, j)) == Val(k, 256) && LeadingOnes(Spelling(k, j)) == j
  {
    KeyValue(k);
    var ds := Digits(Val(k, 256), 58);
    DigitsSpell(Zeros(j) + ds);
    ValPadded(j, ds, 58);
    ValDigits(Val(k, 256), 58);
    LeadingOnesAreZeros(Spelling(k, j));
    LeadingZerosPadded(j, ds);
  }

  /** Decoding the canonical encoding of any key returns the key. */
  lemma DecodeEncode(k: Key)
    ensures Decoded(Encode(k)) == Ok(k)
  {
    KeyValue(k);
    SpellingFacts(k, LeadingZeros(k));
    Canonical(k, 256);
    DigitsLength(Val(k, 256), 256, 32);
  }

  /** Different keys have different canonical encodings. */
  lemma EncodeInjective(a: Key, b: Key)
    ensures Encode(a) == Encode(b) <==> a == b
  {
    DecodeEncode(a);
    DecodeEncode(b);
  }

  /** An accepted string is its leading ones and the spelling of its shortest digits. */
  lemma AcceptedShape(s: seq<byte>)
    requires InAlphabet(s)
    ensures Value(s) >= 0
    ensures s == Spell(Zeros(LeadingOnes(s)) + Digits(Value(s), 58))
  {
    SpellDigits(s);
    Canonical(DigitsOf(s), 58);
    LeadingOnesAreZeros(s);
  }

  lemma StripOnes(s: seq<byte>)
    requires InAlphabet(s)
    ensures Value(s) >= 0 && s[LeadingOnes(s)..] == Spell(Digits(Value(s), 58))
  {
    AcceptedShape(s);
    SpellConcat(Zeros(LeadingOnes(s)), Digits(Value(s), 58));
  }

  lemma SpellConcat(a: seq<int>, b: seq<int>)
    requires InBase(a, 58) && InBase(b, 58)
    ensures Spell(a + b) == Spell(a) + Spell(b)
  {
  }

  /** Two accepted strings give the same key iff they differ only in leading ones. */
  lemma SameKey(s: seq<byte>, t: seq<byte>)
    requires Accepts(s) && Accepts(t)
    ensures Decoded(s) == Decoded(t) <==> s[LeadingOnes(s)..] == t[LeadingOnes(t)..]
  {
    StripOnes(s);
    StripOnes(t);
    DigitsLength(Value(s), 256, 32);
    DigitsLength(Value(t), 256, 32);
    RightAlignedValue(Value(s));
    RightAlignedValue(Value(t));
    if s[LeadingOnes(s)..] == t[LeadingOnes(t)..] {
      DigitsSpell(Digits(Value(s), 58));
      DigitsSpell(Digits(Value(t), 58));
      ValDigits(Value(s), 58);
      ValDigits(Value(t), 58);
    }
  }

  /** Re-encoding a decoded string returns it exactly when its leading ones equal the
      leading zero bytes of the key. */
  lemma EncodeDecode(s: seq<byte>)
    requires Accepts(s)
    ensures var k := Decoded(s).value; Encode(k) == s <==> LeadingOnes(s) == LeadingZeros(k)
  {
    var k := Decoded(s).value;
    DigitsLength(Value(s), 256, 32);
    RightAlignedValue(Value(s));
    SpellingFacts(k, LeadingZeros(k));
    AcceptedShape(s);
  }

  function Ones(n: nat): (s: seq<byte>)
    ensures |s| == n
  {
    seq(n, _ => ONE)
  }

  lemma SpellingPlusOnes(k: Key, n: nat, j: nat)
    ensures Spelling(k, n + j) == Ones(n) + Spelling(k, j)
  {
    KeyValue(k);
    var ds := Digits(Val(k, 256), 58);
    assert Zeros(n + j) + ds == Zeros(n) + (Zeros(j) + ds);
    SpellConcat(Zeros(n), Zeros(j) + ds);
    assert Spell(Zeros(n)) == Ones(n);
  }

  lemma KeyShape(k: Key)
    ensures 0 <= Val(k, 256) < Pow(256, 32)
    ensures |Digits(Val(k, 256), 256)| == 32 - LeadingZeros(k) && RightAligned(Val(k, 256)) == k
  {
    KeyValue(k);
    Canonical(k, 256);
  }

  lemma SpellingAccepted(k: Key, j: nat)
    requires j <= LeadingZeros(k)
    ensures Decoded(Spelling(k, j)) == Ok(k)
  {
    KeyShape(k);
    SpellingFacts(k, j);
    ValueDecides(Spelling(k, j), k);
  }

  lemma ValueDecides(s: seq<byte>, k: Key)
    requires InAlphabet(s) && Value(s) == Val(k, 256) && LeadingOnes(s) <= LeadingZeros(k)
    ensures Decoded(s) == Ok(k)
  {
    KeyShape(k);
  }

  lemma AcceptedSpelling(s: seq<byte>, k: Key)
    requires Decoded(s) == Ok(k)
    ensures LeadingOnes(s) <= LeadingZeros(k) && s == Spelling(k, LeadingOnes(s))
  {
    KeyShape(k);
    DigitsLength(Value(s), 256, 32);
    RightAlignedValue(Value(s));
    AcceptedShape(s);
  }

  /** The texts accepted for a key are its encoding with any number of leading ones dropped. */
  lemma AcceptedExactly(s: seq<byte>, k: Key)
    ensures Decoded(s) == Ok(k) <==> exists n: nat :: n <= LeadingZeros(k) && Encode(k) == Ones(n) + s
  {
    var z := LeadingZeros(k);
    if Decoded(s) == Ok(k) {
      var n := AcceptedDrops(s, k);
    }
    if n: nat :| n <= z && Encode(k) == Ones(n) + s {
      DroppedAccepted(s, k, n);
    }
  }

  lemma AcceptedDrops(s: seq<byte>, k: Key) returns (n: nat)
    requires Decoded(s) == Ok(k)
    ensures n <= LeadingZeros(k) && Encode(k) == Ones(n) + s
  {
    AcceptedSpelling(s, k);
    var j := LeadingOnes(s);
    n := LeadingZeros(k) - j;
    SpellingPlusOnes(k, n, j);
  }

  lemma DroppedAccepted(s: seq<byte>, k: Key, n: nat)
    requires n <= LeadingZeros(k) && Encode(k) == Ones(n) + s
    ensures Decoded(s) == Ok(k)
  {
    var j := LeadingZeros(k) - n;
    SpellingPlusOnes(k, n, j);
    SameTail(Ones(n), s, Spelling(k, j));
    SpellingAccepted(k, j);
  }

  lemma SameTail(a: seq<byte>, s: seq<byte>, t: seq<byte>)
    requires a + s == a + t
    ensures s == t
  {
    assert s == (a + s)[|a|..] && t == (a + t)[|a|..];
  }

  /** The empty text is accepted as the zero key, although it spells no bytes: a text that spells
      fewer than 32 bytes is filled up with zeros, and its key is then encoded differently. */
  lemma EmptyTextAccepted()
    ensures Accepts([]) && Decoded([]) == Ok(Zeros(32))
    ensures Encode(Zeros(32)) != []
  {
    EmptyValue();
    PowPositive(256, 32);
    assert RightAligned(0) == Zeros(32);
    ZeroKeyEncoding();
  }

  lemma EmptyValue()
    ensures InAlphabet([]) && Value([]) == 0 && LeadingOnes([]) == 0 && Digits(0, 256) == []
  {
    assert DigitsOf([]) == Zeros(0);
    ValZeros(0, 58);
  }

  lemma ZeroKeyEncoding()
    ensures Encode(Zeros(32)) != []
  {
    SpellingFacts(Zeros(32), LeadingZeros(Zeros(32)));
    assert Zeros(32)[0] == 0;
  }
}
