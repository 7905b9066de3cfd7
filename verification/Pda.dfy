/** Program-derived addresses: escrow/pda.go. SHA-256 is an arbitrary function H. */
module Pda {
  import opened Bytes
  import opened Curve

  type Hash = seq<byte> -> Key

  const SEED_CONFIG: seq<byte> := Ascii("config-v2")
  const SEED_ESCROW: seq<byte> := Ascii("escrow")
  const SEED_VAULT: seq<byte> := Ascii("vault")
  const SEED_SPENT: seq<byte> := Ascii("spent")
  const MARKER: seq<byte> := Ascii("ProgramDerivedAddress")

  /** Two messages that show H is not injective. */
  predicate Collision(H: Hash, m: seq<byte>, n: seq<byte>) {
    m != n && H(m) == H(n)
  }

  function Flatten(seeds: seq<seq<byte>>): seq<byte> {
    if seeds == [] then [] else Flatten(seeds[..|seeds| - 1]) + seeds[|seeds| - 1]
  }

  /** The unframed concatenation that is hashed. */
  function Preimage(seeds: seq<seq<byte>>, bump: byte, program: Key): seq<byte> {
    Flatten(seeds) + [bump] + program + MARKER
  }

  /** A streaming hasher, as sha256.New gives. */
  class Hasher {
    var written: seq<byte>

    constructor ()
      ensures written == []
    {
      written := [];
    }

    method Write(p: seq<byte>)
      modifies this
      ensures written == old(written) + p
    {
      written := written + p;
    }

    method Sum(H: Hash) returns (out: Key)
      ensures out == H(written)
    {
      out := H(written);
    }
  }

  method CreateProgramAddress(H: Hash, seeds: seq<seq<byte>>, bump: byte, program: Key)
      returns (out: Key)
    ensures out == H(Preimage(seeds, bump, program))
    ensures out == H(Flatten(seeds) + [bump] + program + Ascii("ProgramDerivedAddress"))
  {
    var h := new Hasher();
    for i := 0 to |seeds|
      invariant fresh(h) && h.written == Flatten(seeds[..i])
    {
      h.Write(seeds[i]);
      assert seeds[..i + 1][..i] == seeds[..i];
    }
    assert seeds[..|seeds|] == seeds;
    h.Write([bump]);
    h.Write(program);
    h.Write(MARKER);
    out := h.Sum(H);
  }

  /** bump is the highest one whose candidate is off the curve, and addr that candidate. */
  ghost predicate IsPda(H: Hash, seeds: seq<seq<byte>>, program: Key, addr: Key, bump: byte) {
    && addr == H(Preimage(seeds, bump, program))
    && !OnCurve(addr)
    && forall c: byte :: bump < c ==> OnCurve(H(Preimage(seeds, c, program)))
  }

  ghost predicate HasNoPda(H: Hash, seeds: seq<seq<byte>>, program: Key) {
    forall c: byte :: OnCurve(H(Preimage(seeds, c, program)))
  }

  lemma PreimageTail(seeds: seq<seq<byte>>, program: Key)
    ensures var rest := program + Ascii("ProgramDerivedAddress");
      forall c: byte :: Preimage(seeds, c, program) == Flatten(seeds) + [c] + rest
  {
    forall c: byte
      ensures Preimage(seeds, c, program) == Flatten(seeds) + [c] + (program + Ascii("ProgramDerivedAddress"))
    {
      assert Flatten(seeds) + [c] + program + MARKER == Flatten(seeds) + [c] + (program + MARKER);
    }
  }

  /** FindProgramAddress returns the highest off-curve bump, and fails iff every one of the
      256 candidates is a curve point. */
  method FindProgramAddress(H: Hash, seeds: seq<seq<byte>>, program: Key)
      returns (r: Option<(Key, byte)>)
    ensures r.Some? ==> IsPda(H, seeds, program, r.value.0, r.value.1)
    ensures r.None? <==> HasNoPda(H, seeds, program)
    ensures r.Some? ==>
      var rest := program + Ascii("ProgramDerivedAddress");
      && r.value.0 == H(Flatten(seeds) + [r.value.1] + rest) && !OnCurve(r.value.0)
      && forall c: byte :: c > r.value.1 ==> OnCurve(H(Flatten(seeds) + [c] + rest))
  {
    var b := 255;
    while b >= 0
      invariant -1 <= b <= 255
      invariant forall c: byte :: b < c ==> OnCurve(H(Preimage(seeds, c, program)))
    {
      var candidate := CreateProgramAddress(H, seeds, b, program);
      var on := IsOnCurve(candidate);
      if !on {
        PreimageTail(seeds, program);
        return Some((candidate, b));
      }
      b := b - 1;
    }
    return None;
  }

  /** "The" PDA is unique, and exists unless all 256 candidates are curve points. */
  lemma PdaUnique(H: Hash, seeds: seq<seq<byte>>, program: Key, a: Key, b: byte, a': Key, b': byte)
    requires IsPda(H, seeds, program, a, b) && IsPda(H, seeds, program, a', b')
    ensures a == a' && b == b' && !HasNoPda(H, seeds, program)
  {
    assert OnCurve(H(Preimage(seeds, b', program))) == OnCurve(a');
  }

  // ------------------------------------------------------------ address families

  datatype Family =
    | Config
    | Escrow(payer: Key, recipient: Key, binding: Key)
    | Vault(escrowKey: Key)
    | Spent(spentBinding: Key)
    | TokenAccount(owner: Key, mint: Key)

  /** TokenkegQfeZyiNwAJbNbGKPFXCWuBvf9Ss623VQ5DA */
  const TOKEN_PROGRAM: Key := [
    0x06, 0xdd, 0xf6, 0xe1, 0xd7, 0x65, 0xa1, 0x93, 0xd9, 0xcb, 0xe1, 0x46, 0xce, 0xeb, 0x79, 0xac,
    0x1c, 0xb4, 0x85, 0xed, 0x5f, 0x5b, 0x37, 0x91, 0x3a, 0x8c, 0xf5, 0x85, 0x7e, 0xff, 0x00, 0xa9]

  /** ATokenGPvbdGVxr1b2hvZbsiqW5xWH25efTNsLJA8knL */
  const TOKEN_ACCOUNT_PROGRAM: Key := [
    0x8c, 0x97, 0x25, 0x8f, 0x4e, 0x24, 0x89, 0xf1, 0xbb, 0x3d, 0x10, 0x29, 0x14, 0x8e, 0x0d, 0x83,
    0x0b, 0x5a, 0x13, 0x99, 0xda, 0xff, 0x10, 0x84, 0x04, 0x8e, 0x7b, 0xd8, 0xdb, 0xe9, 0xf8, 0x59]

  function Seeds(f: Family): seq<seq<byte>> {
    match f
    case Config => [SEED_CONFIG]
    case Escrow(payer, recipient, binding) => [SEED_ESCROW, payer, recipient, binding]
    case Vault(escrowKey) => [SEED_VAULT, escrowKey]
    case Spent(binding) => [SEED_SPENT, binding]
    case TokenAccount(owner, mint) => [owner, TOKEN_PROGRAM, mint]
  }

  /** The seeds of a family as one byte string. */
  function SeedBytes(f: Family): seq<byte> {
    match f
    case Config => SEED_CONFIG
    case Escrow(payer, recipient, binding) => SEED_ESCROW + payer + recipient + binding
    case Vault(escrowKey) => SEED_VAULT + escrowKey
    case Spent(binding) => SEED_SPENT + binding
    case TokenAccount(owner, mint) => owner + TOKEN_PROGRAM + mint
  }

  lemma FlattenSnoc(s: seq<seq<byte>>, a: seq<byte>)
    ensures Flatten(s + [a]) == Flatten(s) + a
  {
    assert (s + [a])[..|s|] == s;
  }

  lemma FlattenShort(a: seq<byte>, b: seq<byte>, c: seq<byte>, d: seq<byte>)
    ensures Flatten([a]) == a
    ensures Flatten([a, b]) == a + b
    ensures Flatten([a, b, c]) == a + b + c
    ensures Flatten([a, b, c, d]) == a + b + c + d
  {
    FlattenSnoc([], a);
    assert [a] == [] + [a];
    FlattenSnoc([a], b);
    assert [a, b] == [a] + [b];
    FlattenSnoc([a, b], c);
    assert [a, b, c] == [a, b] + [c];
    FlattenSnoc([a, b, c], d);
    assert [a, b, c, d] == [a, b, c] + [d];
  }

  lemma FlattenSeeds(f: Family)
    ensures Flatten(Seeds(f)) == SeedBytes(f)
  {
    match f
    case Config => FlattenShort(SEED_CONFIG, [], [], []);
    case Escrow(payer, recipient, binding) => FlattenShort(SEED_ESCROW, payer, recipient, binding);
    case Vault(escrowKey) => FlattenShort(SEED_VAULT, escrowKey, [], []);
    case Spent(binding) => FlattenShort(SEED_SPENT, binding, [], []);
    case TokenAccount(owner, mint) => FlattenShort(owner, TOKEN_PROGRAM, mint, []);
  }

  lemma SplitEqual(a: seq<byte>, b: seq<byte>, c: seq<byte>, d: seq<byte>)
    requires a + b == c + d && |a| == |c|
    ensures a == c && b == d
  {
    assert a == (a + b)[..|a|] && b == (a + b)[|a|..];
    assert c == (c + d)[..|c|] && d == (c + d)[|c|..];
  }

  lemma VaultIsNotSpent(a: Key, b: Key)
    ensures SEED_VAULT + a != SEED_SPENT + b
  {
    assert (SEED_VAULT + a)[0] == 'v' as int && (SEED_SPENT + b)[0] == 's' as int;
  }

  /** Different families or arguments never spell the same seed bytes, although nothing
      frames the seeds: the lengths and the two five-byte prefixes tell them apart. */
  lemma SeedBytesInjective(f: Family, g: Family)
    requires SeedBytes(f) == SeedBytes(g)
    ensures f == g
  {
    assert |SeedBytes(f)| == |SeedBytes(g)|;
    match (f, g)
    case (Config, Config) =>
    case (Escrow(a, b, c), Escrow(x, y, z)) =>
      SplitEqual(SEED_ESCROW + a + b, c, SEED_ESCROW + x + y, z);
      SplitEqual(SEED_ESCROW + a, b, SEED_ESCROW + x, y);
      SplitEqual(SEED_ESCROW, a, SEED_ESCROW, x);
    case (Vault(a), Vault(x)) => SplitEqual(SEED_VAULT, a, SEED_VAULT, x);
    case (Spent(a), Spent(x)) => SplitEqual(SEED_SPENT, a, SEED_SPENT, x);
    case (Vault(a), Spent(x)) => VaultIsNotSpent(a, x);
    case (Spent(a), Vault(x)) => VaultIsNotSpent(x, a);
    case (TokenAccount(a, b), TokenAccount(x, y)) =>
      SplitEqual(a + TOKEN_PROGRAM, b, x + TOKEN_PROGRAM, y);
      SplitEqual(a, TOKEN_PROGRAM, x, TOKEN_PROGRAM);
    case _ =>
  }

  /** Where everything sits in a preimage, whatever the seeds: the last 54 bytes are the bump, the
      program and the marker, in this order. */
  lemma PreimageLayout(seeds: seq<seq<byte>>, bump: byte, program: Key)
    ensures var m := Preimage(seeds, bump, program);
      var n := |m| - 54;
      && n >= 0 && m[..n] == Flatten(seeds) && m[n] == bump && m[n + 1..n + 33] == program
      && m[n + 33..] == Ascii("ProgramDerivedAddress")
  {
    var f, m := Flatten(seeds), Preimage(seeds, bump, program);
    var n := |f|;
    assert m == f + ([bump] + program + MARKER);
    assert m[n..] == [bump] + program + MARKER;
    Tail(m, n, [bump], program, MARKER);
  }

  lemma Tail(m: seq<byte>, n: nat, a: seq<byte>, b: seq<byte>, c: seq<byte>)
    requires n <= |m| && m[n..] == a + b + c
    ensures m[n + |a|..n + |a| + |b|] == b && m[n + |a| + |b|..] == c
    ensures forall i :: 0 <= i < |a| ==> m[n + i] == a[i]
  {
    var t := m[n..];
    assert forall i :: 0 <= i < |t| ==> m[n + i] == t[i];
    assert t[|a|..|a| + |b|] == b && t[|a| + |b|..] == c;
  }

  /** The bytes hashed for each of the five addresses. */
  ghost predicate Hashes(f: Family, bump: byte, program: Key, m: seq<byte>) {
    var end := [bump] + program + Ascii("ProgramDerivedAddress");
    match f
    case Config => m == Ascii("config-v2") + end
    case Escrow(payer, recipient, binding) => m == Ascii("escrow") + payer + recipient + binding + end
    case Vault(escrowKey) => m == Ascii("vault") + escrowKey + end
    case Spent(binding) => m == Ascii("spent") + binding + end
    case TokenAccount(owner, mint) => m == owner + TOKEN_PROGRAM + mint + end
  }

  lemma FamilyPreimage(f: Family, bump: byte, program: Key)
    ensures Hashes(f, bump, program, Preimage(Seeds(f), bump, program))
  {
    FlattenSeeds(f);
    var end := [bump] + program + MARKER;
    assert Preimage(Seeds(f), bump, program) == SeedBytes(f) + end;
  }

  /** Exactly when two seed lists share a preimage: the bytes of the seeds run together, the
      bump and the program agree. Where one seed ends and the next begins is not hashed. */
  lemma PreimagesEqual(s: seq<seq<byte>>, b: byte, p: Key, t: seq<seq<byte>>, c: byte, q: Key)
    ensures Preimage(s, b, p) == Preimage(t, c, q) <==> Flatten(s) == Flatten(t) && b == c && p == q
  {
    var f, g := Flatten(s), Flatten(t);
    assert |Preimage(s, b, p)| == |f| + 1 + 32 + |MARKER|;
    assert |Preimage(t, c, q)| == |g| + 1 + 32 + |MARKER|;
    if Preimage(s, b, p) == Preimage(t, c, q) {
      SplitEqual(f + [b] + p, MARKER, g + [c] + q, MARKER);
      SplitEqual(f + [b], p, g + [c], q);
      SplitEqual(f, [b], g, [c]);
    }
  }

  /** Joint injectivity: equal preimages mean the same family, arguments, bump and program. */
  lemma PreimageInjective(f: Family, b: byte, p: Key, g: Family, c: byte, q: Key)
    requires Preimage(Seeds(f), b, p) == Preimage(Seeds(g), c, q)
    ensures f == g && b == c && p == q
  {
    PreimagesEqual(Seeds(f), b, p, Seeds(g), c, q);
    FlattenSeeds(f);
    FlattenSeeds(g);
    SeedBytesInjective(f, g);
  }

  /** So different seed lists can be ambiguous: moving a byte across a seed boundary leaves
      the preimage, and every derived address, unchanged. */
  lemma UnframedSeedsAmbiguous(a: seq<byte>, x: byte, b: seq<byte>, bump: byte, p: Key)
    ensures [a + [x], b] != [a, [x] + b]
    ensures Preimage([a + [x], b], bump, p) == Preimage([a, [x] + b], bump, p)
  {
    FlattenShort(a + [x], b, [], []);
    FlattenShort(a, [x] + b, [], []);
    assert a + [x] + b == a + ([x] + b);
    PreimagesEqual([a + [x], b], bump, p, [a, [x] + b], bump, p);
    assert [a + [x], b][0] != [a, [x] + b][0];
  }

  /** Two equal addresses belong to the same family, arguments and program, or exhibit a
      collision of the hash. */
  lemma AddressCommits(H: Hash, f: Family, p: Key, b: byte, g: Family, q: Key, c: byte, addr: Key)
      returns (m: seq<byte>, n: seq<byte>)
    requires IsPda(H, Seeds(f), p, addr, b) && IsPda(H, Seeds(g), q, addr, c)
    ensures (f == g && p == q) || Collision(H, m, n)
  {
    m, n := Preimage(Seeds(f), b, p), Preimage(Seeds(g), c, q);
    if m == n {
      PreimageInjective(f, b, p, g, c, q);
    }
  }
}
