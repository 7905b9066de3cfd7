/** Bytes, fixed-size keys, and results. Go strings are byte sequences. */
module Bytes {
  import opened ModArith

  type byte = x: int | 0 <= x < 256
  type u64 = x: int | 0 <= x < 0x1_0000_0000_0000_0000
  type i64 = x: int | -0x8000_0000_0000_0000 <= x < 0x8000_0000_0000_0000

  /** A 32-byte array: a public key, an address, a hash or a nonce. */
  type Key = b: seq<byte> | |b| == 32 witness seq(32, _ => 0)

  const MAX_U64: int := 0xFFFF_FFFF_FFFF_FFFF

  datatype Option<+T> = None | Some(value: T)

  datatype Result<+T, +E> = Ok(value: T) | Err(error: E)

  /** The bytes of an ASCII literal. */
  function Ascii(s: string): (b: seq<byte>)
    ensures |b| == |s|
  {
    seq(|s|, i requires 0 <= i < |s| => s[i] as int % 256)
  }

  /** n consecutive characters. */
  function Span(first: char, n: nat): (s: seq<byte>)
    requires first as int + n <= 256
    ensures |s| == n
  {
    seq(n, i requires 0 <= i < n => first as int + i)
  }

  function Fill(b: byte): Key {
    seq(32, _ => b)
  }

  function Reverse(b: seq<byte>): (r: seq<byte>)
    ensures |r| == |b|
  {
    seq(|b|, i requires 0 <= i < |b| => b[|b| - 1 - i])
  }

  /** The width least significant base-256 digits of n, least significant first. */
  function LeBytes(n: nat, width: nat): (b: seq<byte>)
    ensures |b| == width
  {
    if width == 0 then [] else [n % 256] + LeBytes(n / 256, width - 1)
  }

  /** The value of a little-endian byte string. */
  function LeVal(b: seq<byte>): nat {
    if b == [] then 0 else b[0] + 256 * LeVal(b[1..])
  }

  lemma LeValBytes(n: nat, width: nat)
    ensures LeVal(LeBytes(n, width)) <= n
    ensures n < Pow(256, width) ==> LeVal(LeBytes(n, width)) == n
  {
    if width > 0 {
      LeValBytes(n / 256, width - 1);
      assert LeBytes(n, width)[1..] == LeBytes(n / 256, width - 1);
    }
  }

  lemma {:induction false} LeBytesVal(b: seq<byte>)
    ensures LeVal(b) < Pow(256, |b|)
    ensures LeBytes(LeVal(b), |b|) == b
  {
    if b != [] {
      LeBytesVal(b[1..]);
      assert LeVal(b) / 256 == LeVal(b[1..]);
      assert LeBytes(LeVal(b), |b|) == [b[0]] + LeBytes(LeVal(b[1..]), |b| - 1);
    }
  }

  lemma Pow256()
    ensures Pow(256, 2) == 0x1_0000
    ensures Pow(256, 8) == 0x1_0000_0000_0000_0000
  {
    assert Pow(256, 4) == 0x1_0000_0000;
    assert Pow(256, 6) == 0x1_0000_0000_0000;
  }

  /** encoding/binary.LittleEndian round trips on 64-bit values. */
  lemma U64RoundTrip(n: u64)
    ensures LeVal(LeBytes(n, 8)) == n
  {
    Pow256();
    LeValBytes(n, 8);
  }

  lemma U64Bytes(b: seq<byte>)
    requires |b| == 8
    ensures LeVal(b) <= MAX_U64 && LeBytes(LeVal(b), 8) == b
  {
    Pow256();
    LeBytesVal(b);
  }
}
