/** The pre-signature guard: settle/transferchecked.go, settle/guard.go and settle/spl.go. */
module Settle {
  import opened Bytes

  const DISCRIMINATOR: byte := 12

  datatype Instruction = Instruction(programId: Key, data: seq<byte>, accounts: seq<Key>)

  datatype Transfer = Transfer(
    source: Key, mint: Key, destination: Key, authority: Key, amount: u64, decimals: byte)

  datatype Decoder = Decoder(tokenPrograms: seq<Key>)

  datatype SettleError =
    | NotTransferChecked | ForeignProgram | ShortData | FewAccounts | NoTransfer | MultipleTransfers
    | DestinationMismatch | MintMismatch | AuthorityMismatch | AmountMismatch | AmountRange

  /** What the gate authorised; the amount is a possibly nil big integer. */
  datatype BoundPayment = BoundPayment(payTo: Key, asset: Key, payer: Key, amount: Option<int>)

  method IsTokenProgram(d: Decoder, p: Key) returns (found: bool)
    ensures found <==> p in d.tokenPrograms
  {
    for i := 0 to |d.tokenPrograms|
      invariant p !in d.tokenPrograms[..i]
    {
      if d.tokenPrograms[i] == p { return true; }
    }
    return false;
  }

  predicate IsTransferChecked(d: Decoder, ix: Instruction) {
    ix.programId in d.tokenPrograms && |ix.data| >= 1 && ix.data[0] == DISCRIMINATOR
  }

  predicate WellFormed(ix: Instruction) {
    |ix.data| >= 10 && |ix.accounts| >= 4
  }

  /** The fields of a well-formed TransferChecked. */
  ghost function Fields(ix: Instruction): Transfer
    requires WellFormed(ix)
  {
    U64Bytes(ix.data[1..9]);
    Transfer(ix.accounts[0], ix.accounts[1], ix.accounts[2], ix.accounts[3],
             LeVal(ix.data[1..9]), ix.data[9])
  }

  /** Decode succeeds on exactly the well-formed TransferChecked instructions. */
  method Decode(d: Decoder, ix: Instruction) returns (r: Result<Transfer, SettleError>)
    ensures r.Ok? <==> IsTransferChecked(d, ix) && WellFormed(ix)
    ensures r.Ok? ==> r.value == Fields(ix)
    ensures r == Err(ForeignProgram) <==> ix.programId !in d.tokenPrograms
    ensures r == Err(ShortData) <==> ix.programId in d.tokenPrograms && |ix.data| < 10
    ensures r == Err(NotTransferChecked) <==>
      ix.programId in d.tokenPrograms && |ix.data| >= 10 && ix.data[0] != DISCRIMINATOR
    ensures r == Err(FewAccounts) <==>
      IsTransferChecked(d, ix) && |ix.data| >= 10 && |ix.accounts| < 4
  {
    var ours := IsTokenProgram(d, ix.programId);
    if !ours { return Err(ForeignProgram); }
    if |ix.data| < 10 { return Err(ShortData); }
    if ix.data[0] != DISCRIMINATOR { return Err(NotTransferChecked); }
    if |ix.accounts| < 4 { return Err(FewAccounts); }
    U64Bytes(ix.data[1..9]);
    var amount := LeVal(ix.data[1..9]);
    return Ok(Transfer(ix.accounts[0], ix.accounts[1], ix.accounts[2], ix.accounts[3],
                       amount, ix.data[9]));
  }

  /** The TransferChecked instructions of a transaction, in order. */
  function Transfers(d: Decoder, ixs: seq<Instruction>): (ts: seq<Instruction>)
    ensures forall i :: 0 <= i < |ts| ==> IsTransferChecked(d, ts[i])
  {
    if ixs == [] then [] else
    var last := ixs[|ixs| - 1];
    Transfers(d, ixs[..|ixs| - 1]) + (if IsTransferChecked(d, last) then [last] else [])
  }

  ghost predicate AllWellFormed(ts: seq<Instruction>) {
    forall i :: 0 <= i < |ts| ==> WellFormed(ts[i])
  }

  /** The transaction has exactly one TransferChecked, a well-formed one. */
  predicate OneTransfer(d: Decoder, ixs: seq<Instruction>) {
    |Transfers(d, ixs)| == 1 && WellFormed(Transfers(d, ixs)[0])
  }

  lemma TransfersSnoc(d: Decoder, ixs: seq<Instruction>, i: nat)
    requires i < |ixs|
    ensures Transfers(d, ixs[..i + 1])
      == Transfers(d, ixs[..i]) + (if IsTransferChecked(d, ixs[i]) then [ixs[i]] else [])
  {
    assert ixs[..i + 1][..i] == ixs[..i];
  }

  lemma {:induction false} TransfersConcat(d: Decoder, a: seq<Instruction>, b: seq<Instruction>)
    ensures Transfers(d, a + b) == Transfers(d, a) + Transfers(d, b)
  {
    if b == [] {
      assert a + b == a;
    } else {
      var n := |b| - 1;
      TransfersConcat(d, a, b[..n]);
      assert (a + b)[..|a + b| - 1] == a + b[..n];
    }
  }

  /** FindTransfer returns the one TransferChecked of the transaction, or says which way it
      is not there exactly once. */
  method FindTransfer(d: Decoder, ixs: seq<Instruction>) returns (r: Result<Transfer, SettleError>)
    ensures r.Ok? <==> OneTransfer(d, ixs)
    ensures r.Ok? ==> r.value == Fields(Transfers(d, ixs)[0])
    ensures r == Err(NoTransfer) <==> Transfers(d, ixs) == []
    ensures BlamesFirstBad(Transfers(d, ixs), r)
    ensures r.Err? ==> Fails(Transfers(d, ixs), r.error)
    ensures r == Err(MultipleTransfers) <==>
      |Transfers(d, ixs)| >= 2 && AllWellFormed(Transfers(d, ixs))
  {
    var found: Option<Transfer>, count := None, 0;
    ghost var ts: seq<Instruction> := [];
    for i := 0 to |ixs|
      invariant ts == Transfers(d, ixs[..i]) && count == |ts|
      invariant AllWellFormed(ts)
      invariant count > 0 ==> found == Some(Fields(ts[count - 1]))
    {
      TransfersSnoc(d, ixs, i);
      var ours := IsTokenProgram(d, ixs[i].programId);
      if ours && |ixs[i].data| >= 1 && ixs[i].data[0] == DISCRIMINATOR {
        var dec := Decode(d, ixs[i]);
        if dec.Err? {
          Malformed(d, ixs, i);
          return Err(dec.error);
        }
        found := Some(dec.value);
        ts := ts + [ixs[i]];
        count := count + 1;
      }
    }
    assert ixs[..|ixs|] == ixs;
    if count == 0 { return Err(NoTransfer); }
    if count == 1 { return Ok(found.value); }
    return Err(MultipleTransfers);
  }

  /** ts[k] is the first of the transfers that does not decode. */
  ghost predicate FirstBad(ts: seq<Instruction>, k: int) {
    0 <= k < |ts| && !WellFormed(ts[k]) && forall j :: 0 <= j < k ==> WellFormed(ts[j])
  }

  /** Why a TransferChecked does not decode. */
  function DecodeError(ix: Instruction): SettleError {
    if |ix.data| < 10 then ShortData else FewAccounts
  }

  /** When some transfer does not decode, the result is the error of the first such. */
  ghost predicate BlamesFirstBad(ts: seq<Instruction>, r: Result<Transfer, SettleError>) {
    forall k :: FirstBad(ts, k) ==> r == Err(DecodeError(ts[k]))
  }

  /** Which way the transfers are not one that decodes. */
  ghost predicate Fails(ts: seq<Instruction>, e: SettleError) {
    if AllWellFormed(ts) then |ts| != 1 && e == (if ts == [] then NoTransfer else MultipleTransfers)
    else exists k :: FirstBad(ts, k) && e == DecodeError(ts[k])
  }

  lemma Malformed(d: Decoder, ixs: seq<Instruction>, i: nat)
    requires i < |ixs| && IsTransferChecked(d, ixs[i]) && !WellFormed(ixs[i])
    requires AllWellFormed(Transfers(d, ixs[..i]))
    ensures var ts := Transfers(d, ixs);
      && ts != [] && !AllWellFormed(ts) && !OneTransfer(d, ixs)
      && BlamesFirstBad(ts, Err(DecodeError(ixs[i]))) && Fails(ts, DecodeError(ixs[i]))
  {
    TransfersConcat(d, ixs[..i + 1], ixs[i + 1..]);
    assert ixs == ixs[..i + 1] + ixs[i + 1..];
    TransfersSnoc(d, ixs, i);
    var ts := Transfers(d, ixs);
    var k := |Transfers(d, ixs[..i])|;
    assert ts[k] == ixs[i] && ts[..k] == Transfers(d, ixs[..i]);
    assert forall j :: 0 <= j < k ==> ts[j] == ts[..k][j];
    assert FirstBad(ts, k);
  }

  /** All four fields agree, and the bound amount is a u64. */
  predicate Matches(t: Transfer, b: BoundPayment) {
    t.destination == b.payTo && t.mint == b.asset && t.authority == b.payer && b.amount == Some(t.amount)
  }

  /** AssertMatches: nil is None. */
  function AssertMatches(t: Transfer, b: BoundPayment): (e: Option<SettleError>)
    ensures e.None? <==> Matches(t, b)
    ensures e == Some(DestinationMismatch) <==> t.destination != b.payTo
    ensures e == Some(MintMismatch) <==> t.destination == b.payTo && t.mint != b.asset
    ensures e == Some(AuthorityMismatch) <==>
      t.destination == b.payTo && t.mint == b.asset && t.authority != b.payer
    ensures e in {Some(AmountRange), Some(AmountMismatch)} <==>
      && t.destination == b.payTo && t.mint == b.asset && t.authority == b.payer
      && b.amount != Some(t.amount)
    ensures e == Some(AmountMismatch) ==> b.amount.Some? && 0 <= b.amount.value <= MAX_U64
    ensures e == Some(AmountRange) ==> b.amount.None? || b.amount.value < 0 || b.amount.value > MAX_U64
  {
    if t.destination != b.payTo then Some(DestinationMismatch)
    else if t.mint != b.asset then Some(MintMismatch)
    else if t.authority != b.payer then Some(AuthorityMismatch)
    else if b.amount.None? || b.amount.value < 0 || b.amount.value > MAX_U64 then Some(AmountRange)
    else if t.amount != b.amount.value then Some(AmountMismatch)
    else None
  }

  /** The transaction pays what is bound: one TransferChecked, well-formed and matching. */
  ghost predicate Pays(d: Decoder, ixs: seq<Instruction>, b: BoundPayment) {
    OneTransfer(d, ixs) && Matches(Fields(Transfers(d, ixs)[0]), b)
  }

  method AssertTransactionPays(d: Decoder, ixs: seq<Instruction>, b: BoundPayment)
      returns (e: Option<SettleError>)
    ensures e.None? <==> Pays(d, ixs, b)
    ensures OneTransfer(d, ixs) ==> e == AssertMatches(Fields(Transfers(d, ixs)[0]), b)
    ensures !OneTransfer(d, ixs) ==> e.Some? && Fails(Transfers(d, ixs), e.value)
  {
    var t := FindTransfer(d, ixs);
    if t.Err? { return Some(t.error); }
    e := AssertMatches(t.value, b);
  }

  // ------------------------------------------------- acceptance, byte by byte

  /** Instruction k, and no other, is a token program's with first data byte 12. */
  ghost predicate OnlyTransfer(d: Decoder, ixs: seq<Instruction>, k: int) {
    forall i :: 0 <= i < |ixs| ==>
      ((ixs[i].programId in d.tokenPrograms && |ixs[i].data| >= 1 && ixs[i].data[0] == 12) <==> i == k)
  }

  /** Accounts 1, 2 and 3 and the eight bytes after the first are what is bound. */
  predicate PaysBound(ix: Instruction, b: BoundPayment) {
    && |ix.data| >= 10 && |ix.accounts| >= 4
    && ix.accounts[1] == b.asset && ix.accounts[2] == b.payTo && ix.accounts[3] == b.payer
    && b.amount == Some(LeVal(ix.data[1..9]))
  }

  lemma {:induction false} NoTransfers(d: Decoder, ixs: seq<Instruction>)
    ensures Transfers(d, ixs) == [] <==> forall i :: 0 <= i < |ixs| ==> !IsTransferChecked(d, ixs[i])
  {
    if ixs != [] {
      var n := |ixs| - 1;
      NoTransfers(d, ixs[..n]);
      assert forall i :: 0 <= i < n ==> ixs[..n][i] == ixs[i];
    }
  }

  lemma OnlyAt(d: Decoder, ixs: seq<Instruction>, k: nat)
    requires k < |ixs| && OnlyTransfer(d, ixs, k)
    ensures Transfers(d, ixs) == [ixs[k]]
  {
    var a, c := ixs[..k], ixs[k + 1..];
    assert ixs == a + [ixs[k]] + c;
    assert IsTransferChecked(d, ixs[k]);
    assert forall i :: 0 <= i < |c| ==> c[i] == ixs[k + 1 + i];
    NoTransfers(d, a);
    NoTransfers(d, c);
    InsertedTransfers(d, a, ixs[k], c);
  }

  lemma {:induction false} OnlyOne(d: Decoder, ixs: seq<Instruction>) returns (k: nat)
    requires |Transfers(d, ixs)| == 1
    ensures k < |ixs| && OnlyTransfer(d, ixs, k)
  {
    var n := |ixs| - 1;
    if IsTransferChecked(d, ixs[n]) {
      k := n;
      NoTransfers(d, ixs[..n]);
      assert forall i :: 0 <= i < n ==> ixs[..n][i] == ixs[i] && !IsTransferChecked(d, ixs[i]);
    } else {
      k := OnlyOne(d, ixs[..n]);
      assert forall i :: 0 <= i < n ==> ixs[..n][i] == ixs[i];
    }
  }

  /** What the guard accepts, in terms of the transaction's bytes: exactly one instruction is a
      token program's with first data byte 12, and its accounts and amount are the bound ones. */
  lemma PaysExactly(d: Decoder, ixs: seq<Instruction>, b: BoundPayment)
    ensures Pays(d, ixs, b) <==>
      exists k :: 0 <= k < |ixs| && OnlyTransfer(d, ixs, k) && PaysBound(ixs[k], b)
  {
    if Pays(d, ixs, b) {
      var k := OnlyOne(d, ixs);
      OnlyAt(d, ixs, k);
      assert PaysBound(ixs[k], b);
    }
    if k :| 0 <= k < |ixs| && OnlyTransfer(d, ixs, k) && PaysBound(ixs[k], b) {
      OnlyAt(d, ixs, k);
    }
  }

  // -------------------------------------------------- what acceptance depends on

  lemma {:induction false} TransfersCount(d: Decoder, ixs: seq<Instruction>, x: Instruction)
    ensures multiset(Transfers(d, ixs))[x] == if IsTransferChecked(d, x) then multiset(ixs)[x] else 0
  {
    if ixs != [] {
      var n := |ixs| - 1;
      TransfersCount(d, ixs[..n], x);
      assert ixs == ixs[..n] + [ixs[n]];
    }
  }

  /** Acceptance does not depend on the order of the instructions. */
  lemma OrderIrrelevant(d: Decoder, ixs: seq<Instruction>, jxs: seq<Instruction>, b: BoundPayment)
    requires multiset(ixs) == multiset(jxs)
    ensures Pays(d, ixs, b) <==> Pays(d, jxs, b)
  {
    var s, t := Transfers(d, ixs), Transfers(d, jxs);
    forall x ensures multiset(s)[x] == multiset(t)[x] {
      TransfersCount(d, ixs, x);
      TransfersCount(d, jxs, x);
    }
    assert |s| == |multiset(s)| && |t| == |multiset(t)| && multiset(s) == multiset(t);
    if |s| == 1 {
      assert s[0] in multiset(t);
      assert t == [t[0]];
    }
  }

  lemma InsertedTransfers(d: Decoder, a: seq<Instruction>, x: Instruction, b: seq<Instruction>)
    ensures Transfers(d, a + [x] + b)
      == Transfers(d, a) + (if IsTransferChecked(d, x) then [x] else []) + Transfers(d, b)
  {
    TransfersConcat(d, a + [x], b);
    TransfersConcat(d, a, [x]);
    assert [x][..0] == [];
  }

  /** Inserting or removing an instruction that is no TransferChecked changes nothing. */
  lemma OthersIrrelevant(d: Decoder, a: seq<Instruction>, x: Instruction, c: seq<Instruction>, b: BoundPayment)
    requires !IsTransferChecked(d, x)
    ensures Pays(d, a + [x] + c, b) <==> Pays(d, a + c, b)
  {
    InsertedTransfers(d, a, x, c);
    TransfersConcat(d, a, c);
  }

  /** A second TransferChecked, wherever and whatever it is, destroys acceptance. */
  lemma SecondTransferRefused(d: Decoder, a: seq<Instruction>, x: Instruction, c: seq<Instruction>,
                              b: BoundPayment, b': BoundPayment)
    requires Pays(d, a + c, b) && IsTransferChecked(d, x)
    ensures !Pays(d, a + [x] + c, b')
  {
    InsertedTransfers(d, a, x, c);
    TransfersConcat(d, a, c);
  }

  // ------------------------------------------------------------- the builder

  function TransferData(amount: u64, decimals: byte): (data: seq<byte>)
    ensures |data| == 10
  {
    [DISCRIMINATOR] + LeBytes(amount, 8) + [decimals]
  }

  /** The ten bytes: the tag, the amount as a little-endian number, the decimals. */
  lemma DataLayout(amount: u64, decimals: byte)
    ensures var m := TransferData(amount, decimals);
      |m| == 10 && m[0] == 12 && LeVal(m[1..9]) == amount && m[9] == decimals
  {
    var m := TransferData(amount, decimals);
    assert m[1..9] == LeBytes(amount, 8);
    U64RoundTrip(amount);
  }

  method BuildTransferChecked(program: Key, source: Key, mint: Key, destination: Key,
                              authority: Key, amount: u64, decimals: byte) returns (ix: Instruction)
    ensures ix == Instruction(program, TransferData(amount, decimals),
                              [source, mint, destination, authority])
  {
    var data := new byte[10](_ => 0);
    data[0] := DISCRIMINATOR;
    var le := LeBytes(amount, 8);
    for i := 0 to 8
      invariant data[0] == DISCRIMINATOR
      invariant forall j :: 0 <= j < i ==> data[1 + j] == le[j]
    {
      data[1 + i] := le[i];
    }
    data[9] := decimals;
    assert data[..] == [data[0]] + data[1..9] + [data[9]];
    assert data[1..9] == le;
    ix := Instruction(program, data[..], [source, mint, destination, authority]);
  }

  /** The guard reads from a built transfer exactly the fields it was built from, so it accepts
      the transfer for a bound payment iff the two agree. */
  lemma BuiltTransfer(d: Decoder, ix: Instruction, t: Transfer, b: BoundPayment)
    requires ix.programId in d.tokenPrograms && ix.data == TransferData(t.amount, t.decimals)
    requires ix.accounts == [t.source, t.mint, t.destination, t.authority]
    ensures Transfers(d, [ix]) == [ix] && WellFormed(ix) && Fields(ix) == t
    ensures Pays(d, [ix], b) <==> Matches(t, b)
  {
    assert [ix][..0] == [];
    assert ix.data[1..9] == LeBytes(t.amount, 8);
    U64RoundTrip(t.amount);
  }
}
