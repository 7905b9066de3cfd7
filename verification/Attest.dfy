/** Attestations and the Ed25519 precompile instruction that carries them:
    escrow/attest.go and escrow/ed25519ix.go. */
module Attest {
  import opened Bytes
  import opened Pda
  import opened EscrowLink

  const ATTEST_TAG: seq<byte> := Ascii("spt-txn/x402-onchain-attest/v1")
  const TAG_LEN: nat := 30
  const MSG_LEN: nat := 71

  datatype Attestation = Attestation(binding: Key, iat: i64)

  datatype AttestError = WrongLength | WrongTag | WrongVersion

  /** uint64(i): two's complement. */
  function ToU64(i: i64): u64 {
    if i < 0 then i + 0x1_0000_0000_0000_0000 else i
  }

  /** int64(n). */
  function ToI64(n: u64): i64 {
    if n < 0x8000_0000_0000_0000 then n else n - 0x1_0000_0000_0000_0000
  }

  /** The 71 bytes of an attestation. */
  function Marshalled(a: Attestation): (m: seq<byte>)
    ensures |m| == MSG_LEN
  {
    ATTEST_TAG + [LAYOUT_VERSION] + a.binding + LeBytes(ToU64(a.iat), 8)
  }

  method Marshal(a: Attestation) returns (out: seq<byte>)
    ensures out == Marshalled(a)
    ensures out == Ascii("spt-txn/x402-onchain-attest/v1") + [1] + a.binding + LeBytes(ToU64(a.iat), 8)
  {
    out := [];
    out := out + ATTEST_TAG;
    out := out + [LAYOUT_VERSION];
    out := out + a.binding;
    var iat := LeBytes(ToU64(a.iat), 8);
    out := out + iat;
  }

  /** The fields of an attestation message, cut at the fixed offsets. */
  lemma Layout(msg: seq<byte>)
    requires |msg| == MSG_LEN
    ensures msg == msg[..30] + [msg[30]] + msg[31..63] + msg[63..71]
  {
  }

  lemma MarshalledFields(a: Attestation)
    ensures var m := Marshalled(a);
            m[..30] == ATTEST_TAG && m[30] == LAYOUT_VERSION && m[31..63] == a.binding
            && m[63..71] == LeBytes(ToU64(a.iat), 8)
  {
  }

  /** The layout in numbers: tag, version, binding, and the time as a 64-bit two's complement. */
  lemma MarshalLayout(a: Attestation)
    ensures var m := Marshalled(a);
      && m[..30] == Ascii("spt-txn/x402-onchain-attest/v1") && m[30] == 1 && m[31..63] == a.binding
      && LeVal(m[63..71]) == a.iat % 0x1_0000_0000_0000_0000
  {
    MarshalledFields(a);
    U64RoundTrip(ToU64(a.iat));
  }

  /** The encoding is injective, negative timestamps included. */
  lemma MarshalInjective(a: Attestation, b: Attestation)
    requires Marshalled(a) == Marshalled(b)
    ensures a == b
  {
    MarshalledFields(a);
    MarshalledFields(b);
    U64RoundTrip(ToU64(a.iat));
    U64RoundTrip(ToU64(b.iat));
  }

  /** ParseAttestation accepts exactly the image of Marshal, and inverts it. */
  method ParseAttestation(msg: seq<byte>) returns (r: Result<Attestation, AttestError>)
    ensures r.Ok? ==> msg == Marshalled(r.value)
    ensures r.Err? ==> forall a :: msg != Marshalled(a)
    ensures r == Err(WrongLength) <==> |msg| != MSG_LEN
    ensures r == Err(WrongTag) <==> |msg| == MSG_LEN && msg[..TAG_LEN] != ATTEST_TAG
  {
    if |msg| != MSG_LEN { return Err(WrongLength); }
    if msg[..TAG_LEN] != ATTEST_TAG {
      forall a ensures msg != Marshalled(a) { MarshalledFields(a); }
      return Err(WrongTag);
    }
    if msg[TAG_LEN] != LAYOUT_VERSION {
      forall a ensures msg != Marshalled(a) { MarshalledFields(a); }
      return Err(WrongVersion);
    }
    var binding := msg[31..63];
    U64Bytes(msg[63..71]);
    var iat := ToI64(LeVal(msg[63..71]));
    Layout(msg);
    return Ok(Attestation(binding, iat));
  }

  // ------------------------------------------------------- the instruction

  datatype BuildError = PubkeyLength | SignatureLength | MessageTooLong

  datatype ParseError = Malformed | SigCount | NotSelf | MessageLength

  /** The seven 16-bit offsets: sig_off, sig_ix, pk_off, pk_ix, msg_off, msg_size, msg_ix. */
  function Offsets(size: nat): seq<nat> {
    [48, 0xFFFF, 16, 0xFFFF, 112, size, 0xFFFF]
  }

  /** Consecutive little-endian 16-bit fields. */
  function Packed(vs: seq<nat>): (b: seq<byte>)
    ensures |b| == 2 * |vs|
  {
    if vs == [] then [] else Packed(vs[..|vs| - 1]) + LeBytes(vs[|vs| - 1], 2)
  }

  /** One signature, no padding, the offsets, then key, signature and message. */
  function Instruction(pubkey: seq<byte>, sig: seq<byte>, msg: seq<byte>): seq<byte> {
    [1, 0] + Packed(Offsets(|msg|)) + pubkey + sig + msg
  }

  method CopyInto(data: array<byte>, at: nat, s: seq<byte>)
    requires at + |s| <= data.Length
    modifies data
    ensures data[..] == old(data[..at]) + s + old(data[at + |s|..])
  {
    for i := 0 to |s|
      invariant data[..at] == old(data[..at]) && data[at + i..] == old(data[at + i..])
      invariant data[at..at + i] == s[..i]
    {
      data[at + i] := s[i];
    }
  }

  /** Consecutive 16-bit fields, after the two bytes that precede them. */
  method WriteFields(data: array<byte>, vs: seq<nat>)
    requires 2 + 2 * |vs| <= data.Length
    modifies data
    ensures data[..2 + 2 * |vs|] == old(data[..2]) + Packed(vs)
  {
    for i := 0 to |vs|
      invariant data[..2 + 2 * i] == old(data[..2]) + Packed(vs[..i])
    {
      ghost var before := data[..];
      CopyInto(data, 2 + 2 * i, LeBytes(vs[i], 2));
      PackedSnoc(vs, i);
      Extended(before, LeBytes(vs[i], 2), data[..], 2 + 2 * i);
    }
    assert vs[..|vs|] == vs;
  }

  method BuildInstruction(pubkey: seq<byte>, sig: seq<byte>, msg: seq<byte>)
      returns (r: Result<seq<byte>, BuildError>)
    ensures r == if |pubkey| != 32 then Err(PubkeyLength)
                 else if |sig| != 64 then Err(SignatureLength)
                 else if |msg| > 0xFFFF then Err(MessageTooLong)
                 else Ok(Instruction(pubkey, sig, msg))
  {
    if |pubkey| != 32 { return Err(PubkeyLength); }
    if |sig| != 64 { return Err(SignatureLength); }
    if |msg| > 0xFFFF { return Err(MessageTooLong); }
    var data := new byte[112](_ => 0);
    data[0] := 1;
    data[1] := 0;
    assert data[..2] == [1, 0];
    WriteFields(data, Offsets(|msg|));
    ghost var header := data[..];
    CopyInto(data, 16, pubkey);
    ghost var keyed := data[..];
    CopyInto(data, 48, sig);
    Assembled(header, pubkey, keyed, sig, data[..]);
    return Ok(data[..] + msg);
  }

  lemma Extended(b: seq<byte>, s: seq<byte>, d: seq<byte>, at: nat)
    requires at + |s| <= |b| && d == b[..at] + s + b[at + |s|..]
    ensures d[..at + |s|] == b[..at] + s
  {
  }

  lemma Assembled(h: seq<byte>, pubkey: seq<byte>, k: seq<byte>, sig: seq<byte>, d: seq<byte>)
    requires |h| == 112 && |pubkey| == 32 && |sig| == 64
    requires k == h[..16] + pubkey + h[48..] && d == k[..48] + sig + k[112..]
    ensures d == h[..16] + pubkey + sig
  {
    assert k[..48] == h[..16] + pubkey && k[112..] == [];
  }

  lemma PackedSnoc(vs: seq<nat>, i: nat)
    requires i < |vs|
    ensures Packed(vs[..i + 1]) == Packed(vs[..i]) + LeBytes(vs[i], 2)
  {
    assert vs[..i + 1][..i] == vs[..i];
  }

  lemma {:induction false} PackedAt(vs: seq<nat>, i: nat)
    requires i < |vs|
    ensures Packed(vs)[2 * i..2 * i + 2] == LeBytes(vs[i], 2)
  {
    var n := |vs| - 1;
    if i < n {
      PackedAt(vs[..n], i);
      assert Packed(vs)[2 * i..2 * i + 2] == Packed(vs[..n])[2 * i..2 * i + 2];
    }
  }

  /** The little-endian 16-bit field at an offset. */
  function U16At(data: seq<byte>, at: nat): nat
    requires at + 2 <= |data|
  {
    LeVal(data[at..at + 2])
  }

  /** The checks of the parser, and the key and message it cuts out. The signature offset,
      its instruction index and the padding byte are not looked at. */
  ghost predicate Readable(data: seq<byte>, pubkey: seq<byte>, msg: seq<byte>) {
    && |data| >= 16 && data[0] == 1
    && U16At(data, 8) == 0xFFFF && U16At(data, 14) == 0xFFFF
    && U16At(data, 12) == MSG_LEN
    && U16At(data, 6) + 32 <= |data| && U16At(data, 10) + MSG_LEN <= |data|
    && pubkey == data[U16At(data, 6)..U16At(data, 6) + 32]
    && msg == data[U16At(data, 10)..U16At(data, 10) + MSG_LEN]
  }

  /** The checks that precede the copy of the key pass. */
  predicate KeyReadable(data: seq<byte>) {
    && |data| >= 16 && data[0] == 1
    && U16At(data, 8) == 0xFFFF && U16At(data, 14) == 0xFFFF
    && U16At(data, 6) + 32 <= |data|
  }

  /** ParseEd25519Instruction on arbitrary bytes: every access is in bounds, and the result
      is the pair of slices its checks admit. On an error there is no message; the key is the
      slice when it was copied before the failing check, and zero otherwise. */
  method ParseInstruction(data: seq<byte>)
      returns (pubkey: Key, msg: seq<byte>, err: Option<ParseError>)
    ensures err.None? ==> Readable(data, pubkey, msg)
    ensures err.Some? ==> msg == [] && forall k, m :: !Readable(data, k, m)
    ensures pubkey == if KeyReadable(data) then data[U16At(data, 6)..U16At(data, 6) + 32] else Fill(0)
    ensures err == Some(SigCount) <==> |data| >= 16 && data[0] != 1
    ensures err == Some(NotSelf) <==>
      |data| >= 16 && data[0] == 1 && !(U16At(data, 8) == 0xFFFF && U16At(data, 14) == 0xFFFF)
    ensures err == Some(MessageLength) <==> KeyReadable(data) && U16At(data, 12) != MSG_LEN
  {
    pubkey, msg := Fill(0), [];
    if |data| < 16 { return pubkey, msg, Some(Malformed); }
    if data[0] != 1 { return pubkey, msg, Some(SigCount); }
    var pkOff := U16At(data, 6);
    var pkIx := U16At(data, 8);
    var msgOff := U16At(data, 10);
    var msgSize := U16At(data, 12);
    var msgIx := U16At(data, 14);
    if pkIx != 0xFFFF || msgIx != 0xFFFF { return pubkey, msg, Some(NotSelf); }
    if pkOff + 32 > |data| { return pubkey, msg, Some(Malformed); }
    pubkey := data[pkOff..pkOff + 32];
    if msgSize != MSG_LEN { return pubkey, msg, Some(MessageLength); }
    if msgOff + msgSize > |data| { return pubkey, msg, Some(Malformed); }
    return pubkey, data[msgOff..msgOff + msgSize], None;
  }

  lemma HeaderIsPacked(pubkey: seq<byte>, sig: seq<byte>, msg: seq<byte>)
    ensures var d := Instruction(pubkey, sig, msg); |d| >= 16 && d[2..16] == Packed(Offsets(|msg|))
  {
    var os := Offsets(|msg|);
    assert Instruction(pubkey, sig, msg) == ([1, 0] + Packed(os)) + (pubkey + sig + msg);
  }

  lemma HeaderSlice(d: seq<byte>, i: nat)
    requires |d| >= 16 && i < 7
    ensures d[2..16][2 * i..2 * i + 2] == d[2 + 2 * i..2 + 2 * i + 2]
  {
    var a, b, h := d[2..16][2 * i..2 * i + 2], d[2 + 2 * i..2 + 2 * i + 2], d[2..16];
    assert |a| == 2 && |b| == 2;
    assert a[0] == h[2 * i] == d[2 + 2 * i] == b[0];
    assert a[1] == h[2 * i + 1] == d[2 + 2 * i + 1] == b[1];
  }

  /** Field i of the header reads back as offset i. */
  lemma FieldOf(pubkey: seq<byte>, sig: seq<byte>, msg: seq<byte>, i: nat)
    requires i < 7 && |msg| <= 0xFFFF
    ensures var d := Instruction(pubkey, sig, msg);
      |d| >= 16 && U16At(d, 2 + 2 * i) == Offsets(|msg|)[i]
  {
    var d, os := Instruction(pubkey, sig, msg), Offsets(|msg|);
    PackedAt(os, i);
    HeaderIsPacked(pubkey, sig, msg);
    HeaderSlice(d, i);
    OffsetsFit(|msg|, i);
    LeValBytes(os[i], 2);
    Pow256();
  }

  lemma OffsetsFit(size: nat, i: nat)
    requires i < 7 && size <= 0xFFFF
    ensures Offsets(size)[i] <= 0xFFFF
  {
  }

  /** The whole instruction in numbers: one signature, its offset, size and instruction index and
      those of the key and the message, and the three where the offsets say. */
  lemma HeaderFields(pubkey: seq<byte>, sig: seq<byte>, msg: seq<byte>)
    requires |pubkey| == 32 && |sig| == 64 && |msg| <= 0xFFFF
    ensures var d := Instruction(pubkey, sig, msg);
      |d| == 112 + |msg| && d[0] == 1 && d[1] == 0 && U16At(d, 2) == 48 && U16At(d, 4) == 0xFFFF
      && U16At(d, 6) == 16 && U16At(d, 8) == 0xFFFF
      && U16At(d, 10) == 112 && U16At(d, 12) == |msg| && U16At(d, 14) == 0xFFFF
      && d[16..48] == pubkey && d[48..112] == sig && d[112..] == msg
  {
    FieldOf(pubkey, sig, msg, 0);
    FieldOf(pubkey, sig, msg, 1);
    FieldOf(pubkey, sig, msg, 2);
    FieldOf(pubkey, sig, msg, 3);
    FieldOf(pubkey, sig, msg, 4);
    FieldOf(pubkey, sig, msg, 5);
    FieldOf(pubkey, sig, msg, 6);
  }

  /** Building then parsing: the instruction is readable iff the message has the length of an
      attestation, and then it yields exactly the key and the message. */
  lemma BuildParse(pubkey: seq<byte>, sig: seq<byte>, msg: seq<byte>, k: seq<byte>, m: seq<byte>)
    requires |pubkey| == 32 && |sig| == 64 && |msg| <= 0xFFFF
    ensures Readable(Instruction(pubkey, sig, msg), k, m) <==> |msg| == MSG_LEN && k == pubkey && m == msg
  {
    HeaderFields(pubkey, sig, msg);
    var d := Instruction(pubkey, sig, msg);
    if |msg| == MSG_LEN { assert d[112..] == d[112..183]; }
  }

  /** The whole release path: what is read back from the instruction built for an attestation
      is that attestation, and it matches no escrow but the one it was made for, unless two
      colliding messages are exhibited. */
  lemma ReleasePath(H: Hash, p: Params, iat: i64, pubkey: Key, sig: seq<byte>,
                    k: seq<byte>, msg: seq<byte>, a: Attestation, q: Params)
      returns (m: seq<byte>, n: seq<byte>)
    requires |sig| == 64 && WellBound(H, p) && WellBound(H, q)
    requires Readable(Instruction(pubkey, sig, Marshalled(Attestation(p.binding, iat))), k, msg)
    requires msg == Marshalled(a)
    ensures k == pubkey && a == Attestation(p.binding, iat)
    ensures a.binding == q.binding ==> p.bp == q.bp || Collision(H, m, n)
  {
    BuildParse(pubkey, sig, Marshalled(Attestation(p.binding, iat)), k, msg);
    MarshalInjective(a, Attestation(p.binding, iat));
    m, n := [], [];
    if p.binding == q.binding {
      m, n := BindingCommits(H, p, q);
    }
  }
}
