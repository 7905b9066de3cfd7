/** The commitment chain: escrow/binding.go and escrow/link.go. */
module EscrowLink {
  import opened Bytes
  import opened Pda
  import opened Decimal
  import opened Gate
  import Base58

  const DOMAIN_TAG: seq<byte> := Ascii("spt-txn/x402-escrow-binding/v1")
  const LAYOUT_VERSION: byte := 1

  datatype BindingParams = BindingParams(
    payer: Key, mint: Key, amount: u64, recipient: Key, resourceId: Key, nonce: Key)

  /** The bytes ComputeBinding hashes: fixed width, fixed order, tagged. */
  function BindingPreimage(p: BindingParams): seq<byte> {
    DOMAIN_TAG + [0] + [LAYOUT_VERSION] + p.payer + p.mint + LeBytes(p.amount, 8)
      + p.recipient + p.resourceId + p.nonce
  }

  method ComputeBinding(H: Hash, p: BindingParams) returns (out: Key)
    ensures out == H(BindingPreimage(p))
    ensures out == H(Ascii("spt-txn/x402-escrow-binding/v1") + [0] + [1] + p.payer + p.mint
                     + LeBytes(p.amount, 8) + p.recipient + p.resourceId + p.nonce)
  {
    var amt := LeBytes(p.amount, 8);
    var h := new Hasher();
    h.Write(DOMAIN_TAG);
    h.Write([0]);
    h.Write([LAYOUT_VERSION]);
    h.Write(p.payer);
    h.Write(p.mint);
    h.Write(amt);
    h.Write(p.recipient);
    h.Write(p.resourceId);
    h.Write(p.nonce);
    assert h.written == BindingPreimage(p);
    out := h.Sum(H);
  }

  /** Where each field sits in the 200 bytes. */
  lemma BindingLayout(p: BindingParams)
    ensures var m := BindingPreimage(p);
      && |m| == 200 && m[..30] == Ascii("spt-txn/x402-escrow-binding/v1") && m[30] == 0 && m[31] == 1
      && m[32..64] == p.payer && m[64..96] == p.mint && LeVal(m[96..104]) == p.amount
      && m[104..136] == p.recipient && m[136..168] == p.resourceId && m[168..] == p.nonce
  {
    var m, amt := BindingPreimage(p), LeBytes(p.amount, 8);
    assert m[96..104] == amt;
    U64RoundTrip(p.amount);
  }

  /** No field of the binding can change without changing the hashed bytes. */
  lemma BindingPreimageInjective(p: BindingParams, q: BindingParams)
    requires BindingPreimage(p) == BindingPreimage(q)
    ensures p == q
  {
    var head := DOMAIN_TAG + [0] + [LAYOUT_VERSION];
    var a, b := LeBytes(p.amount, 8), LeBytes(q.amount, 8);
    SplitEqual(head + p.payer + p.mint + a + p.recipient + p.resourceId, p.nonce,
               head + q.payer + q.mint + b + q.recipient + q.resourceId, q.nonce);
    SplitEqual(head + p.payer + p.mint + a + p.recipient, p.resourceId,
               head + q.payer + q.mint + b + q.recipient, q.resourceId);
    SplitEqual(head + p.payer + p.mint + a, p.recipient, head + q.payer + q.mint + b, q.recipient);
    SplitEqual(head + p.payer + p.mint, a, head + q.payer + q.mint, b);
    SplitEqual(head + p.payer, p.mint, head + q.payer, q.mint);
    SplitEqual(head, p.payer, head, q.payer);
    U64RoundTrip(p.amount);
    U64RoundTrip(q.amount);
  }

  /** No address preimage is a binding preimage. */
  lemma BindingIsNoAddress(p: BindingParams, f: Family, bump: byte, program: Key)
    ensures BindingPreimage(p) != Preimage(Seeds(f), bump, program)
  {
    FlattenSeeds(f);
    assert |BindingPreimage(p)| == 200;
    assert |Preimage(Seeds(f), bump, program)| == |SeedBytes(f)| + 54;
  }

  // ---------------------------------------------------------- from the gate

  datatype Params = Params(bp: BindingParams, binding: Key, recipientAta: Key)

  datatype EscrowError =
    | BadAddress(e: Base58.DecodeError) | BadAmount | AmountZero | AmountNotU64
    | NoBump | RecipientMismatch

  /** The cached binding is the hash of the parameters it sits beside. */
  ghost predicate WellBound(H: Hash, p: Params) {
    p.binding == H(BindingPreimage(p.bp))
  }

  ghost predicate IsTokenAccount(H: Hash, owner: Key, mint: Key, ata: Key) {
    exists b: byte :: IsPda(H, Seeds(TokenAccount(owner, mint)), TOKEN_ACCOUNT_PROGRAM, ata, b)
  }

  /** The gate's requirements name this mint, this amount, and the wallet's token account. */
  ghost predicate Payable(H: Hash, pr: PaymentRequirements, wallet: Key, mint: Key, amount: int,
                          ata: Key) {
    && Base58.Decoded(pr.asset) == Ok(mint)
    && Base58.Decoded(pr.payTo) == Ok(ata)
    && SetString(pr.maxAmountRequired) == Some(amount)
    && 1 <= amount <= MAX_U64
    && IsTokenAccount(H, wallet, mint, ata)
  }

  /** The check that fails first, in the order the addresses, the amount, the account. */
  ghost predicate FirstFailure(H: Hash, pr: PaymentRequirements, wallet: Key, e: EscrowError) {
    var mint, payTo := Base58.Decoded(pr.asset), Base58.Decoded(pr.payTo);
    var amount := SetString(pr.maxAmountRequired);
    var seeds := if mint.Ok? then Seeds(TokenAccount(wallet, mint.value)) else [];
    match e
    case BadAddress(d) => mint == Err(d) || (mint.Ok? && payTo == Err(d))
    case BadAmount => mint.Ok? && payTo.Ok? && amount.None?
    case AmountZero => mint.Ok? && payTo.Ok? && amount.Some? && amount.value <= 0
    case AmountNotU64 => mint.Ok? && payTo.Ok? && amount.Some? && amount.value > MAX_U64
    case NoBump =>
      && mint.Ok? && payTo.Ok? && amount.Some? && 1 <= amount.value <= MAX_U64
      && HasNoPda(H, seeds, TOKEN_ACCOUNT_PROGRAM)
    case RecipientMismatch =>
      && mint.Ok? && payTo.Ok? && amount.Some? && 1 <= amount.value <= MAX_U64
      && !HasNoPda(H, seeds, TOKEN_ACCOUNT_PROGRAM)
      && !IsTokenAccount(H, wallet, mint.value, payTo.value)
  }

  /** FromGate: the error of the first check that fails, else the parameters. */
  method FromGate(H: Hash, pr: PaymentRequirements, payer: Key, wallet: Key, nonce: Key)
      returns (r: Result<Params, EscrowError>)
    ensures r.Ok? <==> exists mint, amount, ata :: Payable(H, pr, wallet, mint, amount, ata)
    ensures r.Ok? ==>
      && Payable(H, pr, wallet, r.value.bp.mint, r.value.bp.amount, r.value.recipientAta)
      && r.value.bp.payer == payer && r.value.bp.recipient == wallet
      && r.value.bp.resourceId == H(pr.resource) && r.value.bp.nonce == nonce
      && WellBound(H, r.value)
    ensures r.Err? ==> FirstFailure(H, pr, wallet, r.error)
  {
    var mint := Base58.DecodePubkey(pr.asset);
    if mint.Err? { return Err(BadAddress(mint.error)); }
    var payTo := Base58.DecodePubkey(pr.payTo);
    if payTo.Err? { return Err(BadAddress(payTo.error)); }
    var amount := SetString(pr.maxAmountRequired);
    if amount.None? { return Err(BadAmount); }
    if amount.value <= 0 { return Err(AmountZero); }
    if amount.value > MAX_U64 { return Err(AmountNotU64); }
    var found := FindProgramAddress(H, Seeds(TokenAccount(wallet, mint.value)), TOKEN_ACCOUNT_PROGRAM);
    if found.None? {
      NoTokenAccount(H, wallet, mint.value, payTo.value);
      return Err(NoBump);
    }
    var ata := found.value.0;
    TokenAccountIs(H, wallet, mint.value, ata, found.value.1, payTo.value);
    if ata != payTo.value { return Err(RecipientMismatch); }
    var resourceId := H(pr.resource);
    var bp := BindingParams(payer, mint.value, amount.value, wallet, resourceId, nonce);
    var binding := ComputeBinding(H, bp);
    assert Payable(H, pr, wallet, mint.value, amount.value, ata);
    return Ok(Params(bp, binding, ata));
  }

  lemma NoTokenAccount(H: Hash, owner: Key, mint: Key, addr: Key)
    requires HasNoPda(H, Seeds(TokenAccount(owner, mint)), TOKEN_ACCOUNT_PROGRAM)
    ensures !IsTokenAccount(H, owner, mint, addr)
  {
    var s := Seeds(TokenAccount(owner, mint));
    if b: byte :| IsPda(H, s, TOKEN_ACCOUNT_PROGRAM, addr, b) {
      PdaUnique(H, s, TOKEN_ACCOUNT_PROGRAM, addr, b, addr, b);
    }
  }

  lemma TokenAccountIs(H: Hash, owner: Key, mint: Key, ata: Key, bump: byte, addr: Key)
    requires IsPda(H, Seeds(TokenAccount(owner, mint)), TOKEN_ACCOUNT_PROGRAM, ata, bump)
    ensures IsTokenAccount(H, owner, mint, addr) <==> addr == ata
  {
    var s := Seeds(TokenAccount(owner, mint));
    if b: byte :| IsPda(H, s, TOKEN_ACCOUNT_PROGRAM, addr, b) {
      PdaUnique(H, s, TOKEN_ACCOUNT_PROGRAM, ata, bump, addr, b);
    }
  }

  // --------------------------------------------------------------- addresses

  datatype Addresses = Addresses(
    config: Key, configBump: byte, escrow: Key, escrowBump: byte,
    vault: Key, vaultBump: byte, spent: Key, spentBump: byte)

  /** The addresses one escrow occupies under a program. */
  ghost predicate Occupies(H: Hash, p: Params, program: Key, a: Addresses) {
    && IsPda(H, Seeds(Config), program, a.config, a.configBump)
    && IsPda(H, Seeds(Escrow(p.bp.payer, p.bp.recipient, p.binding)), program, a.escrow, a.escrowBump)
    && IsPda(H, Seeds(Vault(a.escrow)), program, a.vault, a.vaultBump)
    && IsPda(H, Seeds(Spent(p.binding)), program, a.spent, a.spentBump)
  }

  /** The messages whose hashes the four addresses are, byte for byte. */
  lemma OccupiedAddresses(H: Hash, p: Params, program: Key, a: Addresses)
    requires Occupies(H, p, program, a)
    ensures var end := program + Ascii("ProgramDerivedAddress");
      && a.config == H(Ascii("config-v2") + [a.configBump] + end)
      && a.escrow
        == H(Ascii("escrow") + p.bp.payer + p.bp.recipient + p.binding + [a.escrowBump] + end)
      && a.vault == H(Ascii("vault") + a.escrow + [a.vaultBump] + end)
      && a.spent == H(Ascii("spent") + p.binding + [a.spentBump] + end)
  {
    FamilyPreimage(Config, a.configBump, program);
    FamilyPreimage(Escrow(p.bp.payer, p.bp.recipient, p.binding), a.escrowBump, program);
    FamilyPreimage(Vault(a.escrow), a.vaultBump, program);
    FamilyPreimage(Spent(p.binding), a.spentBump, program);
    Regroup(Ascii("config-v2"), a.configBump, program);
    Regroup(Ascii("escrow") + p.bp.payer + p.bp.recipient + p.binding, a.escrowBump, program);
    Regroup(Ascii("vault") + a.escrow, a.vaultBump, program);
    Regroup(Ascii("spent") + p.binding, a.spentBump, program);
  }

  lemma Regroup(s: seq<byte>, bump: byte, program: Key)
    ensures s + ([bump] + program + Ascii("ProgramDerivedAddress"))
      == s + [bump] + (program + Ascii("ProgramDerivedAddress"))
  {
  }

  method Derive(H: Hash, p: Params, program: Key) returns (r: Option<Addresses>)
    ensures r.Some? ==> Occupies(H, p, program, r.value)
    ensures r.None? <==> !exists a :: Occupies(H, p, program, a)
  {
    var c := FindProgramAddress(H, Seeds(Config), program);
    if c.None? { return None; }
    var e := FindProgramAddress(H, Seeds(Escrow(p.bp.payer, p.bp.recipient, p.binding)), program);
    if e.None? { return None; }
    var v := FindProgramAddress(H, Seeds(Vault(e.value.0)), program);
    if v.None? {
      forall a ensures !Occupies(H, p, program, a) {
        if Occupies(H, p, program, a) {
          PdaUnique(H, Seeds(Escrow(p.bp.payer, p.bp.recipient, p.binding)), program,
                    e.value.0, e.value.1, a.escrow, a.escrowBump);
        }
      }
      return None;
    }
    var s := FindProgramAddress(H, Seeds(Spent(p.binding)), program);
    if s.None? { return None; }
    var a := Addresses(c.value.0, c.value.1, e.value.0, e.value.1, v.value.0, v.value.1,
                       s.value.0, s.value.1);
    assert Occupies(H, p, program, a);
    return Some(a);
  }

  datatype Role = ConfigRole | EscrowRole | VaultRole | SpentRole

  function AddressOf(a: Addresses, r: Role): Key {
    match r
    case ConfigRole => a.config
    case EscrowRole => a.escrow
    case VaultRole => a.vault
    case SpentRole => a.spent
  }

  function BumpOf(a: Addresses, r: Role): byte {
    match r
    case ConfigRole => a.configBump
    case EscrowRole => a.escrowBump
    case VaultRole => a.vaultBump
    case SpentRole => a.spentBump
  }

  function FamilyOf(p: Params, a: Addresses, r: Role): Family {
    match r
    case ConfigRole => Config
    case EscrowRole => Escrow(p.bp.payer, p.bp.recipient, p.binding)
    case VaultRole => Vault(a.escrow)
    case SpentRole => Spent(p.binding)
  }

  /** Equal bindings cover equal fields, or exhibit a collision. */
  lemma BindingCommits(H: Hash, p: Params, q: Params) returns (m: seq<byte>, n: seq<byte>)
    requires WellBound(H, p) && WellBound(H, q) && p.binding == q.binding
    ensures p.bp == q.bp || Collision(H, m, n)
  {
    m, n := BindingPreimage(p.bp), BindingPreimage(q.bp);
    if m == n { BindingPreimageInjective(p.bp, q.bp); }
  }

  /** Derive commits to everything: when two escrows share an address in any role, the roles
      and the programs agree, and unless the address is the singleton config account all six
      bound fields agree too, or a pair of colliding messages is exhibited. */
  lemma SharedAddress(H: Hash, p: Params, P: Key, a: Addresses, r: Role,
                      q: Params, Q: Key, b: Addresses, s: Role)
      returns (m: seq<byte>, n: seq<byte>)
    requires WellBound(H, p) && WellBound(H, q)
    requires Occupies(H, p, P, a) && Occupies(H, q, Q, b)
    requires AddressOf(a, r) == AddressOf(b, s)
    ensures Collision(H, m, n) || (r == s && P == Q && (r != ConfigRole ==> p.bp == q.bp))
  {
    m, n := AddressCommits(H, FamilyOf(p, a, r), P, BumpOf(a, r), FamilyOf(q, b, s), Q, BumpOf(b, s),
                           AddressOf(a, r));
    if !Collision(H, m, n) && r == VaultRole {
      m, n := AddressCommits(H, FamilyOf(p, a, EscrowRole), P, a.escrowBump,
                             FamilyOf(q, b, EscrowRole), Q, b.escrowBump, a.escrow);
    }
    if !Collision(H, m, n) && r != ConfigRole {
      m, n := BindingCommits(H, p, q);
    }
  }

  /** The converse: the same parameters under the same program occupy the same addresses. */
  lemma SameAddresses(H: Hash, p: Params, program: Key, a: Addresses, b: Addresses)
    requires Occupies(H, p, program, a) && Occupies(H, p, program, b)
    ensures a == b
  {
    PdaUnique(H, Seeds(Config), program, a.config, a.configBump, b.config, b.configBump);
    PdaUnique(H, Seeds(Escrow(p.bp.payer, p.bp.recipient, p.binding)), program,
              a.escrow, a.escrowBump, b.escrow, b.escrowBump);
    PdaUnique(H, Seeds(Vault(a.escrow)), program, a.vault, a.vaultBump, b.vault, b.vaultBump);
    PdaUnique(H, Seeds(Spent(p.binding)), program, a.spent, a.spentBump, b.spent, b.spentBump);
  }

  /** One gate decision mapped onto escrow parameters. */
  ghost predicate Mapped(H: Hash, pr: PaymentRequirements, nonce: Key, p: Params) {
    && WellBound(H, p)
    && Payable(H, pr, p.bp.recipient, p.bp.mint, p.bp.amount, p.recipientAta)
    && p.bp.resourceId == H(pr.resource) && p.bp.nonce == nonce
  }

  /** End to end: two gate decisions whose escrows share an escrow, vault or spent address
      are for the same nonce, amount, resource bytes and, up to leading ones of the base58
      text, the same asset and payee; or a pair of colliding messages is exhibited. */
  lemma GateToChain(H: Hash, pr: PaymentRequirements, nonce: Key, p: Params, P: Key, a: Addresses,
                    pr': PaymentRequirements, nonce': Key, q: Params, Q: Key, b: Addresses, r: Role)
      returns (m: seq<byte>, n: seq<byte>)
    requires Mapped(H, pr, nonce, p) && Mapped(H, pr', nonce', q)
    requires Occupies(H, p, P, a) && Occupies(H, q, Q, b)
    requires r != ConfigRole && AddressOf(a, r) == AddressOf(b, r)
    ensures !Collision(H, m, n) ==>
      && nonce == nonce' && pr.resource == pr'.resource
      && SetString(pr.maxAmountRequired) == SetString(pr'.maxAmountRequired)
      && Base58.Decoded(pr.asset) == Base58.Decoded(pr'.asset)
      && Base58.Decoded(pr.payTo) == Base58.Decoded(pr'.payTo)
      && p == q && P == Q
  {
    m, n := SharedAddress(H, p, P, a, r, q, Q, b, r);
    if !Collision(H, m, n) {
      m, n := pr.resource, pr'.resource;
      var seeds := Seeds(TokenAccount(p.bp.recipient, p.bp.mint));
      var c: byte :| IsPda(H, seeds, TOKEN_ACCOUNT_PROGRAM, p.recipientAta, c);
      TokenAccountIs(H, p.bp.recipient, p.bp.mint, p.recipientAta, c, q.recipientAta);
    }
  }
}
