/** The X-PAYMENT wire format: demo/x402http.go, over encoding/hex and encoding/base64. */
module Wire {
  import opened Bytes
  import opened Settle
  import opened Gate
  import Demo

  // --------------------------------------------------------------------- hex

  function HexChar(d: nat): (c: byte)
    requires d < 16
  {
    if d < 10 then '0' as int + d else 'a' as int + d - 10
  }

  /** The value of a hexadecimal digit of either case. */
  function HexDigit(c: byte): (d: Option<nat>)
    ensures d.Some? ==> d.value < 16
  {
    if '0' as int <= c <= '9' as int then Some(c - '0' as int)
    else if 'a' as int <= c <= 'f' as int then Some(c - 'a' as int + 10)
    else if 'A' as int <= c <= 'F' as int then Some(c - 'A' as int + 10)
    else None
  }

  /** hex.EncodeToString. */
  function HexEncode(b: seq<byte>): (s: seq<byte>)
    ensures |s| == 2 * |b|
  {
    if b == [] then [] else [HexChar(b[0] / 16), HexChar(b[0] % 16)] + HexEncode(b[1..])
  }

  /** hex.DecodeString: pairs of digits, or an error. */
  function HexDecode(s: seq<byte>): (r: Option<seq<byte>>)
    ensures r.Some? ==> |s| == 2 * |r.value|
  {
    if s == [] then Some([])
    else if |s| == 1 then None
    else
      var hi, lo, rest := HexDigit(s[0]), HexDigit(s[1]), HexDecode(s[2..]);
      if hi.Some? && lo.Some? && rest.Some? then Some([16 * hi.value + lo.value] + rest.value)
      else None
  }

  lemma {:induction false} HexRoundTrip(b: seq<byte>)
    ensures HexDecode(HexEncode(b)) == Some(b)
  {
    if b != [] {
      HexRoundTrip(b[1..]);
      var s := HexEncode(b);
      assert s[2..] == HexEncode(b[1..]);
      assert s[0] == HexChar(b[0] / 16) && s[1] == HexChar(b[0] % 16);
      assert HexDigit(s[0]) == Some(b[0] / 16) && HexDigit(s[1]) == Some(b[0] % 16);
      assert b == [b[0]] + b[1..];
    }
  }

  const LOWER: seq<byte> := Ascii("0123456789abcdef")
  const UPPER: seq<byte> := Ascii("0123456789ABCDEF")

  /** A digit is read from either case and written in lower case. */
  lemma HexTable(c: byte, d: nat)
    requires d < 16
    ensures HexChar(d) == LOWER[d]
    ensures HexDigit(c) == Some(d) <==> c == LOWER[d] || c == UPPER[d]
  {
    HexLetters();
  }

  lemma HexLetters()
    ensures LOWER == Span('0', 10) + Span('a', 6) && UPPER == Span('0', 10) + Span('A', 6)
  {
  }

  /** Hex text denotes these bytes, two digits a byte, high digit first. */
  ghost predicate HexOf(s: seq<byte>, b: seq<byte>) {
    && |s| == 2 * |b|
    && forall i :: 0 <= i < |b| ==> HexDigit(s[2 * i]) == Some(b[i] / 16) && HexDigit(s[2 * i + 1]) == Some(b[i] % 16)
  }

  lemma {:induction false} HexDecodeExactly(s: seq<byte>, b: seq<byte>)
    ensures HexDecode(s) == Some(b) <==> HexOf(s, b)
  {
    if |s| >= 2 && b != [] {
      HexDecodeExactly(s[2..], b[1..]);
      HexTail(s, b);
      assert b == [b[0]] + b[1..];
    }
  }

  lemma HexTail(s: seq<byte>, b: seq<byte>)
    requires |s| >= 2 && b != []
    ensures HexOf(s, b) <==>
      HexDigit(s[0]) == Some(b[0] / 16) && HexDigit(s[1]) == Some(b[0] % 16) && HexOf(s[2..], b[1..])
  {
    var t, c := s[2..], b[1..];
    if HexOf(s, b) {
      forall i | 0 <= i < |c|
        ensures HexDigit(t[2 * i]) == Some(c[i] / 16) && HexDigit(t[2 * i + 1]) == Some(c[i] % 16)
      {
        var j := i + 1;
        assert t[2 * i] == s[2 * j] && t[2 * i + 1] == s[2 * j + 1] && c[i] == b[j];
      }
    }
    if HexDigit(s[0]) == Some(b[0] / 16) && HexDigit(s[1]) == Some(b[0] % 16) && HexOf(t, c) {
      forall i | 0 <= i < |b|
        ensures HexDigit(s[2 * i]) == Some(b[i] / 16) && HexDigit(s[2 * i + 1]) == Some(b[i] % 16)
      {
        if i > 0 {
          var j := i - 1;
          assert t[2 * j] == s[2 * i] && t[2 * j + 1] == s[2 * i + 1] && c[j] == b[i];
        }
      }
    }
  }

  // ------------------------------------------------------------------ base64

  function SextetChar(d: nat): (c: byte)
    requires d < 64
  {
    if d < 26 then 'A' as int + d
    else if d < 52 then 'a' as int + d - 26
    else if d < 62 then '0' as int + d - 52
    else if d == 62 then '+' as int
    else '/' as int
  }

  function Sextet(c: byte): (d: Option<nat>)
    ensures d.Some? ==> d.value < 64
  {
    if 'A' as int <= c <= 'Z' as int then Some(c - 'A' as int)
    else if 'a' as int <= c <= 'z' as int then Some(c - 'a' as int + 26)
    else if '0' as int <= c <= '9' as int then Some(c - '0' as int + 52)
    else if c == '+' as int then Some(62)
    else if c == '/' as int then Some(63)
    else None
  }

  lemma SextetRoundTrip(d: nat)
    requires d < 64
    ensures Sextet(SextetChar(d)) == Some(d) && SextetChar(d) != PAD && !IsNewline(SextetChar(d))
  {
  }

  const PAD: byte := '=' as int

  predicate IsNewline(c: byte) {
    c == 10 || c == 13
  }

  /** base64.StdEncoding.EncodeToString: section 4 of RFC 4648, with padding. */
  function Encode64(b: seq<byte>): seq<byte> {
    if b == [] then []
    else if |b| == 1 then
      [SextetChar(b[0] / 4), SextetChar(b[0] % 4 * 16), PAD, PAD]
    else if |b| == 2 then
      [SextetChar(b[0] / 4), SextetChar(b[0] % 4 * 16 + b[1] / 16), SextetChar(b[1] % 16 * 4), PAD]
    else
      [SextetChar(b[0] / 4), SextetChar(b[0] % 4 * 16 + b[1] / 16),
       SextetChar(b[1] % 16 * 4 + b[2] / 64), SextetChar(b[2] % 64)] + Encode64(b[3..])
  }

  /** Line breaks are skipped wherever they stand. */
  function WithoutNewlines(s: seq<byte>): seq<byte> {
    if s == [] then [] else (if IsNewline(s[0]) then [] else [s[0]]) + WithoutNewlines(s[1..])
  }

  /** Groups of four characters; padding only in the last; spare bits are not checked. */
  function DecodeGroups(s: seq<byte>): (r: Option<seq<byte>>) {
    if s == [] then Some([])
    else if |s| < 4 || Sextet(s[0]).None? || Sextet(s[1]).None? then None
    else
      var a, b := Sextet(s[0]).value, Sextet(s[1]).value;
      var first := 4 * a + b / 16;
      if s[2] == PAD then
        if s[3] == PAD && |s| == 4 then Some([first]) else None
      else if Sextet(s[2]).None? then None
      else
        var c := Sextet(s[2]).value;
        var second := b % 16 * 16 + c / 4;
        if s[3] == PAD then
          if |s| == 4 then Some([first, second]) else None
        else if Sextet(s[3]).None? then None
        else
          var rest := DecodeGroups(s[4..]);
          if rest.None? then None
          else Some([first, second, c % 4 * 64 + Sextet(s[3]).value] + rest.value)
  }

  /** base64.StdEncoding.DecodeString. */
  function Decode64(s: seq<byte>): Option<seq<byte>> {
    DecodeGroups(WithoutNewlines(s))
  }

  ghost predicate NoNewlines(s: seq<byte>) {
    forall i :: 0 <= i < |s| ==> !IsNewline(s[i])
  }

  lemma {:induction false} EncodingHasNoNewlines(b: seq<byte>)
    ensures NoNewlines(Encode64(b))
    decreases |b|
  {
    if |b| > 2 { EncodingHasNoNewlines(b[3..]); }
  }

  lemma {:induction false} NothingSkipped(s: seq<byte>)
    requires NoNewlines(s)
    ensures WithoutNewlines(s) == s
  {
    if s != [] {
      NothingSkipped(s[1..]);
      assert s == [s[0]] + s[1..];
    }
  }

  /** One full group: three bytes survive the cut into sextets. */
  lemma GroupOfThree(x: byte, y: byte, z: byte)
    ensures 4 * (x / 4) + (x % 4 * 16 + y / 16) / 16 == x
    ensures (x % 4 * 16 + y / 16) % 16 * 16 + (y % 16 * 4 + z / 64) / 4 == y
    ensures (y % 16 * 4 + z / 64) % 4 * 64 + z % 64 == z
  {
  }

  /** One step of the decoder on a group without padding. */
  lemma DecodeFull(s: seq<byte>)
    requires |s| >= 4 && Sextet(s[0]).Some? && Sextet(s[1]).Some? && Sextet(s[2]).Some? && Sextet(s[3]).Some?
    requires s[2] != PAD && s[3] != PAD && DecodeGroups(s[4..]).Some?
    ensures var a, b, c, d := Sextet(s[0]).value, Sextet(s[1]).value, Sextet(s[2]).value, Sextet(s[3]).value;
      DecodeGroups(s) == Some([4 * a + b / 16, b % 16 * 16 + c / 4, c % 4 * 64 + d] + DecodeGroups(s[4..]).value)
  {
  }

  lemma FirstBytes(b: seq<byte>)
    ensures |b| == 1 ==> b == [b[0]]
    ensures |b| == 2 ==> b == [b[0], b[1]]
    ensures |b| > 2 ==> b == [b[0], b[1], b[2]] + b[3..]
  {
  }

  /** The 64 characters in order. */
  lemma SextetTable(c: byte, d: nat)
    requires d < 64
    ensures d < 26 ==> SextetChar(d) == Ascii("ABCDEFGHIJKLMNOPQRSTUVWXYZ")[d]
    ensures 26 <= d < 52 ==> SextetChar(d) == Ascii("abcdefghijklmnopqrstuvwxyz")[d - 26]
    ensures 52 <= d ==> SextetChar(d) == Ascii("0123456789+/")[d - 52]
    ensures Sextet(c) == Some(d) <==> c == SextetChar(d)
  {
    CapitalLetters();
    SmallLetters();
    assert d >= 52 ==> Ascii("0123456789+/")[d - 52] == SextetChar(d);
  }

  lemma CapitalLetters()
    ensures Ascii("ABCDEFGHIJKLMNOPQRSTUVWXYZ") == Span('A', 26)
  {
  }

  lemma SmallLetters()
    ensures Ascii("abcdefghijklmnopqrstuvwxyz") == Span('a', 26)
  {
  }

  /** Group i of the text spells the bytes from 3 * i on: six bits a character from the top, and
      '=' where there is no byte. The bits a last group leaves over may be anything, unless exact. */
  ghost predicate Group(s: seq<byte>, b: seq<byte>, i: nat, exact: bool)
    requires 3 * i < |b| && 4 * i + 4 <= |s|
  {
    var n, x := |b| - 3 * i, b[3 * i];
    var y, z := if n > 1 then b[3 * i + 1] else 0, if n > 2 then b[3 * i + 2] else 0;
    var c, d, e, f := s[4 * i], Sextet(s[4 * i + 1]), Sextet(s[4 * i + 2]), s[4 * i + 3];
    && Sextet(c) == Some(x / 4)
    && d.Some? && d.value / 16 == x % 4 && (n > 1 || exact ==> d.value % 16 == y / 16)
    && (if n == 1 then s[4 * i + 2] == '=' as int
        else e.Some? && e.value / 4 == y % 16 && (n > 2 || exact ==> e.value % 4 == z / 64))
    && (if n <= 2 then f == '=' as int else Sextet(f) == Some(z % 64))
  }

  ghost predicate Groups(s: seq<byte>, b: seq<byte>, exact: bool) {
    && |s| == (|b| + 2) / 3 * 4
    && forall i: nat :: 3 * i < |b| ==> Group(s, b, i, exact)
  }

  lemma GroupsTail(s: seq<byte>, b: seq<byte>, exact: bool)
    requires |s| >= 4 && |b| >= 3
    ensures Groups(s, b, exact) <==> Group(s, b, 0, exact) && Groups(s[4..], b[3..], exact)
  {
    var t, c := s[4..], b[3..];
    if |s| == (|b| + 2) / 3 * 4 {
      forall i: nat | 3 * i < |c| ensures Group(t, c, i, exact) <==> Group(s, b, i + 1, exact) {
        GroupShift(s, b, i, exact);
      }
      if Group(s, b, 0, exact) && Groups(t, c, exact) {
        forall i: nat | 3 * i < |b| ensures Group(s, b, i, exact) {
          if i > 0 { assert Group(t, c, i - 1, exact) <==> Group(s, b, i - 1 + 1, exact); }
        }
      }
    }
  }

  lemma GroupShift(s: seq<byte>, b: seq<byte>, i: nat, exact: bool)
    requires |s| >= 4 && |b| > 3 && 3 * i < |b| - 3 && 4 * i + 8 <= |s|
    ensures Group(s[4..], b[3..], i, exact) <==> Group(s, b, i + 1, exact)
  {
  }

  /** Four characters that are all sextets, with a text after them that decodes. */
  ghost predicate FullStart(s: seq<byte>) {
    && |s| >= 4 && Sextet(s[0]).Some? && Sextet(s[1]).Some? && Sextet(s[2]).Some? && Sextet(s[3]).Some?
    && DecodeGroups(s[4..]).Some?
  }

  lemma DecodesThree(s: seq<byte>, b: seq<byte>)
    requires DecodeGroups(s) == Some(b) && |b| >= 3
    ensures FullStart(s)
  {
  }

  /** The six-bit parts of the three bytes that four sextets make. */
  lemma SplitGroup(a: nat, d: nat, e: nat, f: nat)
    requires a < 64 && d < 64 && e < 64 && f < 64
    ensures var x, y, z := 4 * a + d / 16, d % 16 * 16 + e / 4, e % 4 * 64 + f;
      && x / 4 == a && x % 4 == d / 16 && y / 16 == d % 16 && y % 16 == e / 4
      && z / 64 == e % 4 && z % 64 == f
  {
  }

  lemma FullBytes(s: seq<byte>) returns (x: byte, y: byte, z: byte)
    requires FullStart(s)
    ensures DecodeGroups(s) == Some([x, y, z] + DecodeGroups(s[4..]).value)
    ensures Sextet(s[0]).value == x / 4 && Sextet(s[1]).value == x % 4 * 16 + y / 16
    ensures Sextet(s[2]).value == y % 16 * 4 + z / 64 && Sextet(s[3]).value == z % 64
  {
    var a, d, e, f := Sextet(s[0]).value, Sextet(s[1]).value, Sextet(s[2]).value, Sextet(s[3]).value;
    x, y, z := 4 * a + d / 16, d % 16 * 16 + e / 4, e % 4 * 64 + f;
    SplitGroup(a, d, e, f);
    DecodeFull(s);
  }

  /** The parts of a byte triple, put together again in each sextet, determine the triple. */
  lemma JoinGroup(x: byte, y: byte, z: byte, x': byte, y': byte, z': byte)
    requires x / 4 == x' / 4 && x % 4 * 16 + y / 16 == x' % 4 * 16 + y' / 16
    requires y % 16 * 4 + z / 64 == y' % 16 * 4 + z' / 64 && z % 64 == z' % 64
    ensures x == x' && y == y' && z == z'
  {
  }

  lemma GroupZero(s: seq<byte>, b: seq<byte>)
    requires |s| >= 4 && |b| >= 3
    ensures Group(s, b, 0, false) <==>
      && Sextet(s[0]) == Some(b[0] / 4) && Sextet(s[1]) == Some(b[0] % 4 * 16 + b[1] / 16)
      && Sextet(s[2]) == Some(b[1] % 16 * 4 + b[2] / 64) && Sextet(s[3]) == Some(b[2] % 64)
  {
  }

  lemma DecodeFirst(s: seq<byte>, b: seq<byte>)
    requires |s| >= 4 && |b| >= 3
    ensures DecodeGroups(s) == Some(b) <==> Group(s, b, 0, false) && DecodeGroups(s[4..]) == Some(b[3..])
  {
    GroupZero(s, b);
    if DecodeGroups(s) == Some(b) { DecodesThree(s, b); }
    if FullStart(s) {
      var x, y, z := FullBytes(s);
      var rest := DecodeGroups(s[4..]).value;
      ThreeAndRest(x, y, z, rest, b);
      if Group(s, b, 0, false) { JoinGroup(x, y, z, b[0], b[1], b[2]); }
    }
  }

  lemma ThreeAndRest(x: byte, y: byte, z: byte, rest: seq<byte>, b: seq<byte>)
    requires |b| >= 3
    ensures [x, y, z] + rest == b <==> x == b[0] && y == b[1] && z == b[2] && rest == b[3..]
  {
    assert b == [b[0], b[1], b[2]] + b[3..];
    assert ([x, y, z] + rest)[3..] == rest;
  }

  lemma DecodeLast(s: seq<byte>, b: seq<byte>)
    requires 1 <= |b| <= 2
    ensures DecodeGroups(s) == Some(b) <==> |s| == 4 && Group(s, b, 0, false)
  {
    FirstBytes(b);
  }

  /** Decoding returns the bytes the groups spell, whatever bits the last one leaves over, and
      fails on every text that spells no bytes. */
  lemma {:induction false} DecodeExactly(s: seq<byte>, b: seq<byte>)
    ensures DecodeGroups(s) == Some(b) <==> Groups(s, b, false)
    decreases |s|
  {
    if |b| == 1 || |b| == 2 {
      DecodeLast(s, b);
    } else if |b| >= 3 && |s| >= 4 {
      DecodeFirst(s, b);
      DecodeExactly(s[4..], b[3..]);
      GroupsTail(s, b, false);
    }
  }

  lemma EncodeFirst(b: seq<byte>)
    requires |b| >= 3
    ensures |Encode64(b)| >= 4 && Encode64(b)[4..] == Encode64(b[3..]) && Group(Encode64(b), b, 0, true)
  {
    var s := Encode64(b);
    GroupOfThree(b[0], b[1], b[2]);
    SextetRoundTrip(b[0] / 4);
    SextetRoundTrip(b[0] % 4 * 16 + b[1] / 16);
    SextetRoundTrip(b[1] % 16 * 4 + b[2] / 64);
    SextetRoundTrip(b[2] % 64);
  }

  /** Encoding spells the bytes exactly, with no bit left over set. */
  lemma {:induction false} EncodeExactly(b: seq<byte>)
    ensures Groups(Encode64(b), b, true)
    decreases |b|
  {
    if |b| == 1 || |b| == 2 {
      assert Group(Encode64(b), b, 0, true);
    } else if |b| >= 3 {
      EncodeFirst(b);
      EncodeExactly(b[3..]);
      GroupsTail(Encode64(b), b, true);
    }
  }

  /** Base64 round trip for every length, all three padding cases included. */
  lemma Base64RoundTrip(b: seq<byte>)
    ensures Decode64(Encode64(b)) == Some(b)
  {
    EncodingHasNoNewlines(b);
    NothingSkipped(Encode64(b));
    EncodeExactly(b);
    Loosened(Encode64(b), b);
    DecodeExactly(Encode64(b), b);
  }

  lemma Loosened(s: seq<byte>, b: seq<byte>)
    requires Groups(s, b, true)
    ensures Groups(s, b, false)
  {
    forall i: nat | 3 * i < |b| ensures Group(s, b, i, false) {
      assert Group(s, b, i, true);
    }
  }

  /** A line break is skipped wherever it stands. */
  lemma {:induction false} NewlineIgnored(a: seq<byte>, c: byte, b: seq<byte>)
    requires c == 10 || c == 13
    ensures Decode64(a + [c] + b) == Decode64(a + b)
  {
    NewlineSkipped(a, c, b);
  }

  lemma {:induction false} NewlineSkipped(a: seq<byte>, c: byte, b: seq<byte>)
    requires IsNewline(c)
    ensures WithoutNewlines(a + [c] + b) == WithoutNewlines(a + b)
  {
    if a == [] {
      assert (a + [c] + b)[1..] == a + b;
    } else {
      NewlineSkipped(a[1..], c, b);
      assert (a + [c] + b)[1..] == a[1..] + [c] + b && (a + b)[1..] == a[1..] + b;
    }
  }

  // ------------------------------------------------------------ instructions

  datatype IxJson = IxJson(programId: seq<byte>, data: seq<byte>, accounts: seq<seq<byte>>)

  function PkHex(k: Key): seq<byte> {
    HexEncode(k)
  }

  /** hexPk: 64 hexadecimal digits. */
  function HexPk(s: seq<byte>): (r: Option<Key>) {
    var b := HexDecode(s);
    if b.Some? && |b.value| == 32 then Some(b.value) else None
  }

  lemma KeyRoundTrip(k: Key)
    ensures HexPk(PkHex(k)) == Some(k)
  {
    HexRoundTrip(k);
  }

  function ToJson(ix: Instruction): IxJson {
    IxJson(PkHex(ix.programId), Encode64(ix.data),
           seq(|ix.accounts|, i requires 0 <= i < |ix.accounts| => PkHex(ix.accounts[i])))
  }

  /** The wire form of a list, instruction by instruction. */
  function JsonOf(ixs: seq<Instruction>): (js: seq<IxJson>)
    ensures |js| == |ixs|
  {
    seq(|ixs|, i requires 0 <= i < |ixs| => ToJson(ixs[i]))
  }

  /** The JSON object is the wire form of the instruction. */
  ghost predicate Reads(j: IxJson, ix: Instruction) {
    && HexPk(j.programId) == Some(ix.programId) && Decode64(j.data) == Some(ix.data)
    && |j.accounts| == |ix.accounts|
    && forall i :: 0 <= i < |j.accounts| ==> HexPk(j.accounts[i]) == Some(ix.accounts[i])
  }

  ghost predicate ReadsAll(js: seq<IxJson>, ixs: seq<Instruction>) {
    |js| == |ixs| && forall i :: 0 <= i < |js| ==> Reads(js[i], ixs[i])
  }

  method IxsToJson(ixs: seq<Instruction>) returns (out: seq<IxJson>)
    ensures out == JsonOf(ixs)
  {
    out := [];
    for i := 0 to |ixs|
      invariant |out| == i && forall k :: 0 <= k < i ==> out[k] == ToJson(ixs[k])
    {
      var ix := ixs[i];
      var accts := [];
      for j := 0 to |ix.accounts|
        invariant |accts| == j && forall k :: 0 <= k < j ==> accts[k] == PkHex(ix.accounts[k])
      {
        accts := accts + [PkHex(ix.accounts[j])];
      }
      assert accts == ToJson(ix).accounts;
      out := out + [IxJson(PkHex(ix.programId), Encode64(ix.data), accts)];
    }
  }

  /** ixsFromJSON returns the instructions the objects are the wire form of, or an error when
      there are none. */
  method IxsFromJson(js: seq<IxJson>) returns (r: Option<seq<Instruction>>)
    ensures r.Some? ==> ReadsAll(js, r.value)
    ensures r.None? ==> forall ixs :: !ReadsAll(js, ixs)
  {
    var out := [];
    for i := 0 to |js|
      invariant |out| == i && forall k :: 0 <= k < i ==> Reads(js[k], out[k])
    {
      var j := js[i];
      var pid := HexPk(j.programId);
      if pid.None? { assert forall ix :: !Reads(js[i], ix); return None; }
      var data := Decode64(j.data);
      if data.None? { assert forall ix :: !Reads(js[i], ix); return None; }
      var accts := [];
      for k := 0 to |j.accounts|
        invariant |accts| == k && forall n :: 0 <= n < k ==> HexPk(j.accounts[n]) == Some(accts[n])
      {
        var pk := HexPk(j.accounts[k]);
        if pk.None? { assert forall ix :: !Reads(js[i], ix); return None; }
        accts := accts + [pk.value];
      }
      out := out + [Instruction(pid.value, data.value, accts)];
    }
    return Some(out);
  }

  lemma JsonRoundTrip(ix: Instruction)
    ensures Reads(ToJson(ix), ix)
  {
    KeyRoundTrip(ix.programId);
    Base64RoundTrip(ix.data);
    forall i | 0 <= i < |ix.accounts| ensures HexPk(ToJson(ix).accounts[i]) == Some(ix.accounts[i]) {
      KeyRoundTrip(ix.accounts[i]);
    }
  }

  lemma ReadsUnique(js: seq<IxJson>, ixs: seq<Instruction>, jxs: seq<Instruction>)
    requires ReadsAll(js, ixs) && ReadsAll(js, jxs)
    ensures ixs == jxs
  {
    forall i | 0 <= i < |js| ensures ixs[i] == jxs[i] {
      assert Reads(js[i], ixs[i]) && Reads(js[i], jxs[i]);
      assert ixs[i].accounts == jxs[i].accounts;
    }
  }

  /** Wire round trip: what is read back from the wire form of a list of instructions is that
      list, for every number of instructions, accounts and data bytes. */
  lemma WireRoundTrip(ixs: seq<Instruction>, r: seq<Instruction>)
    ensures ReadsAll(JsonOf(ixs), r) <==> r == ixs
  {
    var js := JsonOf(ixs);
    forall i | 0 <= i < |js| ensures Reads(js[i], ixs[i]) {
      JsonRoundTrip(ixs[i]);
    }
    if ReadsAll(js, r) { ReadsUnique(js, ixs, r); }
  }

  // -------------------------------------------------------------- over HTTP

  /** The X-PAYMENT object. */
  datatype PaymentJson = PaymentJson(
    version: nat, scheme: seq<byte>, network: seq<byte>, instructions: seq<IxJson>, signed: bool)

  /** 200 with the body, 402 with the server's demand, or 400. */
  datatype Response =
    | Released(body: seq<byte>)
    | PaymentRequired(demand: PaymentRequirements)
    | BadRequest

  /** What the payer needs of a JSON encoder and a JSON decoder: the text of a payment is not
      empty, and its instructions and signed flag are read back from it. */
  ghost predicate Codec(render: PaymentJson -> seq<byte>, parse: seq<byte> -> Option<PaymentJson>) {
    forall v, scheme, network, ixs, signed ::
      var pay := PaymentJson(v, scheme, network, JsonOf(ixs), signed);
      && render(pay) != [] && parse(render(pay)).Some?
      && parse(render(pay)).value.instructions == pay.instructions
      && parse(render(pay)).value.signed == signed
  }

  /** The X-PAYMENT header for a payment. */
  function XPayment(render: PaymentJson -> seq<byte>, scheme: seq<byte>, network: seq<byte>,
                    ixs: seq<Instruction>, signed: bool): seq<byte> {
    Encode64(render(PaymentJson(1, scheme, network, JsonOf(ixs), signed)))
  }

  /** The header is base64 of the text of a version 1 payment in this scheme and network. */
  lemma XPaymentText(render: PaymentJson -> seq<byte>, scheme: seq<byte>, network: seq<byte>,
                     ixs: seq<Instruction>, signed: bool)
    ensures Decode64(XPayment(render, scheme, network, ixs, signed))
      == Some(render(PaymentJson(1, scheme, network, JsonOf(ixs), signed)))
  {
    Base64RoundTrip(render(PaymentJson(1, scheme, network, JsonOf(ixs), signed)));
  }

  /** Writing the header: the instructions to JSON objects, the object to text, the text to base64. */
  method WriteXPayment(render: PaymentJson -> seq<byte>, scheme: seq<byte>, network: seq<byte>,
                       ixs: seq<Instruction>, signed: bool) returns (header: seq<byte>)
    ensures header == XPayment(render, scheme, network, ixs, signed)
  {
    var js := IxsToJson(ixs);
    header := Encode64(render(PaymentJson(1, scheme, network, js, signed)));
  }

  /** The header carries these instructions; parse stands for the JSON decoder. */
  ghost predicate Carries(header: seq<byte>, parse: seq<byte> -> Option<PaymentJson>, ixs: seq<Instruction>,
                          signed: bool) {
    && header != [] && Decode64(header).Some? && parse(Decode64(header).value).Some?
    && ReadsAll(parse(Decode64(header).value).value.instructions, ixs)
    && parse(Decode64(header).value).value.signed == signed
  }

  /** The handler at /resource. It releases exactly when the header carries a payment the server
      accepts, answers 400 exactly to a header that carries none, and otherwise demands payment.
      The server is handed what the header carries, once, and nothing else. */
  method Handle(server: Demo.ResourceServer, header: seq<byte>, parse: seq<byte> -> Option<PaymentJson>)
      returns (r: Response)
    modifies server
    ensures r.Released? <==>
      exists ixs, signed :: Carries(header, parse, ixs, signed) && server.config.Accepts(ixs, signed)
    ensures r.Released? ==> r.body == Ascii("resource released: ") + server.config.resource
    ensures r.BadRequest? <==> header != [] && forall ixs, signed :: !Carries(header, parse, ixs, signed)
    ensures r.PaymentRequired? ==> r.demand == server.config.Require()
    ensures forall ixs, signed :: Carries(header, parse, ixs, signed) ==>
      server.received == old(server.received) + [Demo.Payment(ixs, signed)]
    ensures header == [] || r.BadRequest? ==> server.received == old(server.received)
  {
    if header == [] { return PaymentRequired(server.config.Require()); }
    var raw := Decode64(header);
    if raw.None? { return BadRequest; }
    var pay := parse(raw.value);
    if pay.None? { return BadRequest; }
    var ixs := IxsFromJson(pay.value.instructions);
    if ixs.None? { return BadRequest; }
    forall jxs, signed | Carries(header, parse, jxs, signed)
      ensures jxs == ixs.value && signed == pay.value.signed
    {
      ReadsUnique(pay.value.instructions, ixs.value, jxs);
    }
    assert Carries(header, parse, ixs.value, pay.value.signed);
    var content := server.Settle(Demo.Payment(ixs.value, pay.value.signed));
    if content.Err? { return PaymentRequired(server.config.Require()); }
    return Released(Ascii("resource released: ") + content.value);
  }

  /** The header of a payment carries that payment and no other. */
  lemma CarriesExactly(render: PaymentJson -> seq<byte>, parse: seq<byte> -> Option<PaymentJson>,
                       scheme: seq<byte>, network: seq<byte>, ixs: seq<Instruction>, signed: bool)
    requires Codec(render, parse)
    ensures forall jxs, s ::
      Carries(XPayment(render, scheme, network, ixs, signed), parse, jxs, s) <==> jxs == ixs && s == signed
  {
    var text := render(PaymentJson(1, scheme, network, JsonOf(ixs), signed));
    Base64RoundTrip(text);
    forall jxs { WireRoundTrip(ixs, jxs); }
  }

  /** The client's half and the server's: a payment sent over HTTP is decided as it is in
      process, and the server receives the very instructions that were sent. */
  method SubmitOverHttp(server: Demo.ResourceServer, scheme: seq<byte>, network: seq<byte>,
                        ixs: seq<Instruction>, signed: bool,
                        render: PaymentJson -> seq<byte>, parse: seq<byte> -> Option<PaymentJson>)
      returns (r: Response)
    requires Codec(render, parse)
    modifies server
    ensures r == if server.config.Accepts(ixs, signed)
                 then Released(Ascii("resource released: ") + server.config.resource)
                 else PaymentRequired(server.config.Require())
    ensures server.received == old(server.received) + [Demo.Payment(ixs, signed)]
  {
    var header := WriteXPayment(render, scheme, network, ixs, signed);
    CarriesExactly(render, parse, scheme, network, ixs, signed);
    r := Handle(server, header, parse);
    assert Carries(header, parse, ixs, signed);
  }
}
