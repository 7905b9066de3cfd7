/** The payer's loop: demo/demo.go. One call of Pay is proved against StateAfter and
    OutcomeOf; the lemmas at the end are about every sequence of calls. */
module Demo {
  import opened Bytes
  import opened Decimal
  import opened Gate
  import opened Ledger
  import opened Settle
  import Base58

  const DEMO_TOKEN_PROGRAM: Key := Fill(0x99)
  const DECIMALS: byte := 6
  const DECODER: Decoder := Decoder([DEMO_TOKEN_PROGRAM])

  datatype Accounts = Accounts(asset: Key, merchant: Key, attacker: Key, payer: Key, source: Key)

  datatype Scope = Scope(ceiling: u64, asset: Key, payees: map<Key, bool>)

  datatype PolicyError = NotInteger | OverCeiling | AssetNotAllowed | PayeeNotAllowed

  function Abs(n: int): nat { if n < 0 then -n else n }

  // ---------------------------------------------------------------- the policy

  /** What ScopePolicy.Verify accepts: the magnitude of the amount is compared, and every
      key of the payee map counts whatever it is mapped to. */
  ghost predicate PolicyAllows(scope: Scope, pr: PaymentRequirements) {
    && SetString(pr.maxAmountRequired).Some?
    && Abs(SetString(pr.maxAmountRequired).value) <= scope.ceiling
    && pr.asset == Base58.Encode(scope.asset)
    && exists payee :: payee in scope.payees && pr.payTo == Base58.Encode(payee)
  }

  method Verify(scope: Scope, pr: PaymentRequirements) returns (e: Option<PolicyError>)
    ensures e.None? <==> PolicyAllows(scope, pr)
    ensures e == Some(NotInteger) <==> SetString(pr.maxAmountRequired).None?
    ensures e == Some(OverCeiling) <==>
      SetString(pr.maxAmountRequired).Some? && Abs(SetString(pr.maxAmountRequired).value) > scope.ceiling
    ensures e == Some(AssetNotAllowed) <==>
      && SetString(pr.maxAmountRequired).Some?
      && Abs(SetString(pr.maxAmountRequired).value) <= scope.ceiling
      && pr.asset != Base58.Encode(scope.asset)
  {
    var amt := SetString(pr.maxAmountRequired);
    if amt.None? { return Some(NotInteger); }
    if Abs(amt.value) > MAX_U64 || Abs(amt.value) > scope.ceiling { return Some(OverCeiling); }
    if pr.asset != Base58.Encode(scope.asset) { return Some(AssetNotAllowed); }
    var todo := scope.payees.Keys;
    while todo != {}
      invariant todo <= scope.payees.Keys
      invariant forall k :: k in scope.payees && k !in todo ==> pr.payTo != Base58.Encode(k)
      decreases |todo|
    {
      var payee :| payee in todo;
      if pr.payTo == Base58.Encode(payee) { return None; }
      todo := todo - {payee};
    }
    return Some(PayeeNotAllowed);
  }

  /** An accepted amount lies between zero and the ceiling iff its text is not a negative
      number: the sign is the one thing the policy does not look at. */
  lemma PolicyBoundsAmount(scope: Scope, pr: PaymentRequirements)
    requires PolicyAllows(scope, pr)
    ensures var amt := SetString(pr.maxAmountRequired).value;
      0 <= amt <= scope.ceiling <==> !(pr.maxAmountRequired[0] == '-' as int && amt != 0)
  {
    var s := pr.maxAmountRequired;
    var signed := s[0] == '+' as int || s[0] == '-' as int;
    DecValBound(if signed then s[1..] else s);
  }

  /** The text "-5" passes a policy whose ceiling is 5. */
  lemma NegativeAmountPasses(k: Key, pr: PaymentRequirements)
    requires pr.maxAmountRequired == ['-' as int, '5' as int]
    requires pr.asset == Base58.Encode(k) && pr.payTo == Base58.Encode(k)
    ensures PolicyAllows(Scope(5, k, map[k := true]), pr)
    ensures SetString(pr.maxAmountRequired) == Some(-5)
  {
    var five := pr.maxAmountRequired[1..];
    assert five == ['5' as int];
    DecValSnoc([], '5' as int);
    assert [] + ['5' as int] == five;
  }

  /** What the policy accepts the gate can bind, unless the text is a negative number. */
  lemma BindableAmount(scope: Scope, pr: PaymentRequirements)
    requires PolicyAllows(scope, pr)
    ensures Bindable(pr.maxAmountRequired) <==> !(pr.maxAmountRequired[0] == '-' as int
                                                  && SetString(pr.maxAmountRequired).value != 0)
    ensures Bindable(pr.maxAmountRequired) ==> 0 <= SetString(pr.maxAmountRequired).value <= scope.ceiling
  {
    PolicyBoundsAmount(scope, pr);
  }

  /** The policy accepts a payee exactly when it is a key of the payee map; what the key is
      mapped to is never read, so a payee mapped to false passes like any other. */
  lemma PayeeMarksIgnored(scope: Scope, marks: map<Key, bool>, payee: Key, pr: PaymentRequirements)
    requires marks.Keys == scope.payees.Keys && pr.payTo == Base58.Encode(payee)
    ensures PolicyAllows(scope, pr) <==> PolicyAllows(scope.(payees := marks), pr)
    ensures PolicyAllows(scope, pr) ==> payee in scope.payees
  {
    forall k ensures pr.payTo == Base58.Encode(k) <==> k == payee {
      Base58.EncodeInjective(payee, k);
    }
  }

  /** Every payee the policy accepts is marked true. */
  ghost predicate HonoursMarks(scope: Scope) {
    forall pr, k :: PolicyAllows(scope, pr) && pr.payTo == Base58.Encode(k) ==>
      k in scope.payees && scope.payees[k]
  }

  /** Accepted payees are marked true exactly when the map marks no key false. */
  lemma MarksHonouredExactly(scope: Scope)
    ensures HonoursMarks(scope) <==> forall k :: k in scope.payees ==> scope.payees[k]
  {
    if k :| k in scope.payees && !scope.payees[k] {
      // a demand for nothing, to the payee marked false
      var pr := PaymentRequirements([], [], Base58.Encode(scope.asset), Base58.Encode(k), FormatUint(0), []);
      SetStringFormat(0);
      assert PolicyAllows(scope, pr);
      assert !HonoursMarks(scope);
    } else {
      forall pr, k | PolicyAllows(scope, pr) && pr.payTo == Base58.Encode(k)
        ensures k in scope.payees && scope.payees[k]
      {
        PayeeMarksIgnored(scope, scope.payees, k, pr);
      }
    }
  }

  // ---------------------------------------------------------------- the server

  datatype Payment = Payment(instructions: seq<Instruction>, signed: bool)

  datatype ServerError = BadTransfer(e: SettleError) | WrongRecipient | WrongAsset | WrongAmount | NotSigned

  /** What a resource server is built from, and what it demands and accepts. */
  datatype Server = Server(acc: Accounts, price: u64, resource: seq<byte>)
  {
    /** The 402 requirements the server demands. */
    function Require(): PaymentRequirements {
      PaymentRequirements(Ascii("exact"), Ascii("solana:devnet"), Base58.Encode(acc.asset),
                          Base58.Encode(acc.merchant), FormatUint(price), resource)
    }

    /** The transaction is signed and its one TransferChecked pays the server's own demand. */
    ghost predicate Accepts(ixs: seq<Instruction>, signed: bool) {
      && OneTransfer(DECODER, ixs)
      && var t := Fields(Transfers(DECODER, ixs)[0]);
      && t.destination == acc.merchant && t.mint == acc.asset && t.amount == price && signed
    }

    /** The check that fails first: transfer, recipient, asset, amount, signature. */
    ghost predicate FirstRefusal(ixs: seq<Instruction>, signed: bool, e: ServerError) {
      if !OneTransfer(DECODER, ixs) then e.BadTransfer? && Fails(Transfers(DECODER, ixs), e.e)
      else
        var t := Fields(Transfers(DECODER, ixs)[0]);
        if t.destination != acc.merchant then e == WrongRecipient
        else if t.mint != acc.asset then e == WrongAsset
        else if t.amount != price then e == WrongAmount
        else !signed && e == NotSigned
    }
  }

  /** What a demand says: read back, its fields are the server's. */
  lemma DemandReads(s: Server)
    ensures var pr := s.Require();
      && pr.scheme == Ascii("exact") && pr.network == Ascii("solana:devnet") && pr.resource == s.resource
      && Base58.Decoded(pr.asset) == Ok(s.acc.asset) && Base58.Decoded(pr.payTo) == Ok(s.acc.merchant)
      && SetString(pr.maxAmountRequired) == Some(s.price) && ParseUint(pr.maxAmountRequired) == Some(s.price)
  {
    Base58.DecodeEncode(s.acc.asset);
    Base58.DecodeEncode(s.acc.merchant);
    SetStringFormat(s.price);
    ParseFormat(s.price);
  }

  /** What a server accepts, in terms of the transaction's bytes: a signed transaction whose only
      transfer pays the server's price of its asset to its merchant, by whoever signs for it. */
  lemma AcceptsExactly(s: Server, ixs: seq<Instruction>, signed: bool)
    ensures s.Accepts(ixs, signed) <==> signed && exists k, payer ::
      && 0 <= k < |ixs| && OnlyTransfer(Decoder([Fill(0x99)]), ixs, k)
      && PaysBound(ixs[k], BoundPayment(s.acc.merchant, s.acc.asset, payer, Some(s.price)))
  {
    if s.Accepts(ixs, signed) {
      var b := BoundPayment(s.acc.merchant, s.acc.asset, Fields(Transfers(DECODER, ixs)[0]).authority, Some(s.price));
      PaysExactly(DECODER, ixs, b);
    }
    if k, payer :| && 0 <= k < |ixs| && OnlyTransfer(DECODER, ixs, k)
                   && PaysBound(ixs[k], BoundPayment(s.acc.merchant, s.acc.asset, payer, Some(s.price))) {
      PaysExactly(DECODER, ixs, BoundPayment(s.acc.merchant, s.acc.asset, payer, Some(s.price)));
    }
  }

  /** The server as an object. The ghost log is what it was handed, so that a caller's contract
      can say which instructions left the caller; the code keeps no such log. */
  class ResourceServer {
    const config: Server
    ghost var received: seq<Payment>

    constructor (config: Server)
      ensures this.config == config && received == []
    {
      this.config := config;
      received := [];
    }

    /** Settle releases the resource iff the payment is accepted, and says why not. */
    method Settle(p: Payment) returns (r: Result<seq<byte>, ServerError>)
      modifies this
      ensures received == old(received) + [p]
      ensures r.Ok? <==> config.Accepts(p.instructions, p.signed)
      ensures r.Ok? ==> r.value == config.resource
      ensures r.Err? ==> config.FirstRefusal(p.instructions, p.signed, r.error)
    {
      received := received + [p];
      var t := FindTransfer(DECODER, p.instructions);
      if t.Err? { return Err(BadTransfer(t.error)); }
      if t.value.destination != config.acc.merchant { return Err(WrongRecipient); }
      if t.value.mint != config.acc.asset { return Err(WrongAsset); }
      if t.value.amount != config.price { return Err(WrongAmount); }
      if !p.signed { return Err(NotSigned); }
      return Ok(config.resource);
    }
  }

  // ---------------------------------------------------------------- one payment

  /** Everything a call of Pay meets: its arguments, the gate's own reasons to refuse, the
      binding the gate computes, and whether the evidence append succeeds. */
  datatype Call = Call(server: Server, token: Token, now: int, tamper: bool,
                       veto: Veto, binding: Key, appendOk: bool)

  /** The result of a call, and the signed instructions it submitted, if any. */
  datatype Outcome = Outcome(decision: Class, paid: bool, released: seq<byte>, abortedBeforeSign: bool,
                             submitted: seq<Instruction>)

  /** The payer's configuration. */
  datatype Payer = Payer(acc: Accounts, scope: Scope)

  /** The instructions the client builds and, if all goes well, submits. */
  function Built(acc: Accounts, amount: u64, tamper: bool): seq<Instruction> {
    [Instruction(DEMO_TOKEN_PROGRAM, TransferData(amount, DECIMALS),
                 [acc.source, acc.asset, if tamper then acc.attacker else acc.merchant, acc.payer])]
  }

  function Bound(acc: Accounts, amount: u64): BoundPayment {
    BoundPayment(acc.merchant, acc.asset, acc.payer, Some(amount))
  }

  ghost function DecisionOf(p: Payer, st: State, c: Call): Decision {
    var req := c.server.Require();
    Decide(c.veto, req.maxAmountRequired, PolicyAllows(p.scope, req), c.token, c.now, st.spent, c.binding)
  }

  ghost predicate Allowed(p: Payer, st: State, c: Call) {
    DecisionOf(p, st, c).cls == Allow
  }

  /** The state after a call: it depends on the decision and the append alone. */
  ghost function StateAfter(p: Payer, st: State, c: Call): State {
    var d := DecisionOf(p, st, c);
    State(SpentAfter(d, c.token, st.spent),
          Appended(st.receipts, c.appendOk, Receipt(d.cls, d.binding, c.now)))
  }

  /** The outcome of a call: an allowed and recorded decision is submitted when the guard passes
      the built transaction, and paid when the server accepts it. */
  ghost function OutcomeOf(p: Payer, st: State, c: Call): Outcome {
    var d := DecisionOf(p, st, c);
    var ixs := Built(p.acc, c.server.price, c.tamper);
    if d.cls != Allow then Outcome(d.cls, false, [], false, [])
    else if !c.appendOk then Outcome(DenyUnavailable, false, [], false, [])
    else if !Pays(DECODER, ixs, Bound(p.acc, c.server.price)) then Outcome(Allow, false, [], true, [])
    else if !c.server.Accepts(ixs, true) then Outcome(Allow, false, [], false, ixs)
    else Outcome(Allow, true, c.server.resource, false, ixs)
  }

  /** The payer side of the loop: a single-use log, an evidence log, and Pay. */
  class Client {
    const payer: Payer
    var spend: set<Key>
    var receipts: seq<Receipt>

    ghost function Current(): State
      reads this
    {
      State(spend, receipts)
    }

    constructor (acc: Accounts, scope: Scope)
      ensures payer == Payer(acc, scope) && Current() == State({}, [])
    {
      payer := Payer(acc, scope);
      spend := {};
      receipts := [];
    }

    /** gate.Evaluate, which writes the nonce to the spend log on Allow. */
    method Evaluate(c: Call, req: PaymentRequirements) returns (d: Decision)
      requires req == c.server.Require()
      modifies this`spend
      ensures d == DecisionOf(payer, old(Current()), c)
      ensures spend == SpentAfter(d, c.token, old(spend))
    {
      var refused := Verify(payer.scope, req);
      d := Decide(c.veto, req.maxAmountRequired, refused.None?, c.token, c.now, spend, c.binding);
      if d.cls == Allow {
        spend := spend + {c.token.nonce};
      }
    }

    /** translog.Append. */
    method Append(ok: bool, r: Receipt) returns (err: bool)
      modifies this`receipts
      ensures receipts == Appended(old(receipts), ok, r) && err == !ok
    {
      if ok {
        receipts := receipts + [r];
      }
      err := !ok;
    }

    /** One call: the logs and the outcome are the specified ones, and the server receives the
        submitted instructions, signed, and nothing else. */
    method Pay(server: ResourceServer, c: Call) returns (o: Outcome)
      requires c.server == server.config
      modifies this, server
      ensures Current() == StateAfter(payer, old(Current()), c)
      ensures o == OutcomeOf(payer, old(Current()), c)
      ensures server.received
        == old(server.received) + (if o.submitted == [] then [] else [Payment(o.submitted, true)])
    {
      var acc := payer.acc;
      var req := server.config.Require();
      var d := Evaluate(c, req);
      var err := Append(c.appendOk, Receipt(d.cls, d.binding, c.now));
      if err && d.cls == Allow {
        return Outcome(DenyUnavailable, false, [], false, []);
      }
      if d.cls != Allow {
        return Outcome(d.cls, false, [], false, []);
      }
      var price := ParseUint(req.maxAmountRequired);
      ParseFormat(c.server.price);
      if price.None? {
        return Outcome(DenyViolation, false, [], false, []);
      }
      var dest := acc.merchant;
      if c.tamper {
        dest := acc.attacker;
      }
      var ix := BuildTransferChecked(DEMO_TOKEN_PROGRAM, acc.source, acc.asset, dest, acc.payer,
                                     price.value, DECIMALS);
      var ixs := [ix];
      var bad := AssertTransactionPays(DECODER, ixs, Bound(acc, price.value));
      if bad.Some? {
        return Outcome(d.cls, false, [], true, []);
      }
      var released := server.Settle(Payment(ixs, true));
      if released.Err? {
        return Outcome(d.cls, false, [], false, ixs);
      }
      return Outcome(d.cls, true, released.value, false, ixs);
    }
  }

  /** The built transaction carries one transfer, with these fields. */
  lemma BuiltFields(acc: Accounts, amount: u64, tamper: bool)
    ensures var ixs := Built(acc, amount, tamper);
      && OneTransfer(DECODER, ixs) && Transfers(DECODER, ixs) == ixs
      && Fields(ixs[0]) == Transfer(acc.source, acc.asset,
                                    if tamper then acc.attacker else acc.merchant,
                                    acc.payer, amount, DECIMALS)
  {
    var ix := Built(acc, amount, tamper)[0];
    var t := Transfer(acc.source, acc.asset, if tamper then acc.attacker else acc.merchant,
                      acc.payer, amount, DECIMALS);
    BuiltTransfer(DECODER, ix, t, Bound(acc, amount));
  }

  /** The policy, applied to a server's demand, speaks about the server's keys and price:
      neither the base58 nor the decimal text in between loses anything. */
  lemma PolicyOnDemand(scope: Scope, s: Server)
    ensures PolicyAllows(scope, s.Require()) <==>
      s.price <= scope.ceiling && s.acc.asset == scope.asset && s.acc.merchant in scope.payees
    ensures Bindable(s.Require().maxAmountRequired)
  {
    SetStringFormat(s.price);
    Base58.EncodeInjective(s.acc.asset, scope.asset);
    forall k ensures s.Require().payTo == Base58.Encode(k) <==> s.acc.merchant == k {
      Base58.EncodeInjective(s.acc.merchant, k);
    }
  }

  /** A call pays iff the gate has no reason to refuse, the token is unexpired and unspent,
      the demand is within scope, the decision is recorded, payer and server agree on merchant
      and asset, and the transfer was not redirected. */
  lemma PaidExactly(p: Payer, st: State, c: Call)
    ensures OutcomeOf(p, st, c).paid <==>
      && c.veto.NoVeto? && c.now <= c.token.expiry && c.token.nonce !in st.spent
      && c.server.price <= p.scope.ceiling
      && c.server.acc.asset == p.scope.asset && c.server.acc.merchant in p.scope.payees
      && c.appendOk
      && c.server.acc.merchant == p.acc.merchant && c.server.acc.asset == p.acc.asset
      && (c.tamper ==> p.acc.attacker == p.acc.merchant)
  {
    PolicyOnDemand(p.scope, c.server);
    BuiltFields(p.acc, c.server.price, c.tamper);
  }

  /** A redirected transfer is stopped before it is signed, and only the guard stops there. */
  lemma AbortExactly(p: Payer, st: State, c: Call)
    ensures OutcomeOf(p, st, c).abortedBeforeSign <==>
      Allowed(p, st, c) && c.appendOk && c.tamper && p.acc.attacker != p.acc.merchant
  {
    BuiltFields(p.acc, c.server.price, c.tamper);
  }

  /** What leaves the client: nothing unless the call was allowed, recorded and not redirected,
      and then only a transaction that passes the guard for the bound payment. */
  lemma SubmittedExactly(p: Payer, st: State, c: Call)
    ensures var o := OutcomeOf(p, st, c);
      && (o.submitted != [] <==>
           Allowed(p, st, c) && c.appendOk && (c.tamper ==> p.acc.attacker == p.acc.merchant))
      && (o.submitted != [] ==> Pays(DECODER, o.submitted, Bound(p.acc, c.server.price)))
      && (o.paid ==> o.submitted != [])
  {
    BuiltFields(p.acc, c.server.price, c.tamper);
  }

  /** The rest of an outcome: the decision reported is the gate's, except that an Allow without
      evidence is unavailable; the resource comes with a payment and with nothing else. */
  lemma OutcomeExactly(p: Payer, st: State, c: Call)
    ensures var o, d := OutcomeOf(p, st, c), DecisionOf(p, st, c);
      && o.decision == (if d.cls == Allow && !c.appendOk then DenyUnavailable else d.cls)
      && o.released == (if o.paid then c.server.resource else [])
      && (o.abortedBeforeSign ==> o.submitted == [] && !o.paid)
  {
  }

  /** A transaction of one instruction, in bytes: program, accounts, and the ten data bytes. */
  ghost predicate IsTransferOf(acc: Accounts, amount: int, ixs: seq<Instruction>) {
    && |ixs| == 1 && ixs[0].programId == Fill(0x99)
    && ixs[0].accounts == [acc.source, acc.asset, acc.merchant, acc.payer]
    && |ixs[0].data| == 10 && ixs[0].data[0] == 12 && LeVal(ixs[0].data[1..9]) == amount && ixs[0].data[9] == 6
  }

  lemma BuiltBytes(acc: Accounts, amount: u64, tamper: bool)
    requires tamper ==> acc.attacker == acc.merchant
    ensures IsTransferOf(acc, amount, Built(acc, amount, tamper))
  {
    DataLayout(amount, DECIMALS);
  }

  /** Whatever is submitted is this one instruction, at the price demanded. */
  lemma SubmittedBytes(p: Payer, st: State, c: Call)
    requires OutcomeOf(p, st, c).submitted != []
    ensures IsTransferOf(p.acc, c.server.price, OutcomeOf(p, st, c).submitted)
  {
    SubmittedExactly(p, st, c);
    BuiltBytes(p.acc, c.server.price, c.tamper);
  }

  /** A transaction of one transfer on which payer, scope and server agree: to the merchant, of
      the asset, of the price demanded and within the ceiling, under the payer's authority. */
  ghost predicate AgreedTransfer(p: Payer, s: Server, ixs: seq<Instruction>) {
    && OneTransfer(DECODER, ixs)
    && var t := Fields(Transfers(DECODER, ixs)[0]);
    && t.destination == p.acc.merchant == s.acc.merchant && t.destination in p.scope.payees
    && t.mint == p.acc.asset == s.acc.asset == p.scope.asset
    && t.amount == s.price <= p.scope.ceiling
    && t.authority == p.acc.payer
  }

  /** What a released payment moved: the submitted transaction is one agreed transfer. */
  lemma ReleasedPayment(p: Payer, st: State, c: Call)
    requires OutcomeOf(p, st, c).paid
    ensures AgreedTransfer(p, c.server, OutcomeOf(p, st, c).submitted)
    ensures OutcomeOf(p, st, c).released == c.server.resource
    ensures c.tamper ==> p.acc.attacker == p.acc.merchant
  {
    PaidExactly(p, st, c);
    SubmittedExactly(p, st, c);
    BuiltFields(p.acc, c.server.price, c.tamper);
  }

  /** Everything the payer pays goes to a payee marked true, exactly when it could not pay its
      merchant at all or the map marks that merchant true. */
  lemma PaysMarkedExactly(p: Payer)
    ensures (forall st, c :: OutcomeOf(p, st, c).paid ==>
              c.server.acc.merchant in p.scope.payees && p.scope.payees[c.server.acc.merchant])
      <==> (p.acc.merchant in p.scope.payees && p.acc.asset == p.scope.asset ==> p.scope.payees[p.acc.merchant])
  {
    forall st, c ensures OutcomeOf(p, st, c).paid ==>
      c.server.acc.merchant == p.acc.merchant && p.acc.merchant in p.scope.payees && p.acc.asset == p.scope.asset
    {
      PaidExactly(p, st, c);
    }
    if p.acc.merchant in p.scope.payees && p.acc.asset == p.scope.asset && !p.scope.payees[p.acc.merchant] {
      var c := FreeCall(p);
      PaidExactly(p, EMPTY, c);
      assert OutcomeOf(p, EMPTY, c).paid;
    }
  }

  /** A plain call at price zero to a server with the payer's own accounts. */
  function FreeCall(p: Payer): Call {
    Call(Server(p.acc, 0, []), Token(p.acc.payer, 0), 0, false, NoVeto, p.acc.payer, true)
  }

  /** A payer whose only payee is its merchant, marked false, pays the merchant all the same. */
  lemma FalsePayeeIsPaid(p: Payer)
    requires p.scope.payees == map[p.acc.merchant := false] && p.acc.asset == p.scope.asset
    ensures OutcomeOf(p, EMPTY, FreeCall(p)).paid
  {
    PaidExactly(p, EMPTY, FreeCall(p));
  }

  // -------------------------------------------------------------------- runs

  /** What a call does, as an event of the ledger. */
  ghost function EventOf(p: Payer, st: State, c: Call): Event {
    var d := DecisionOf(p, st, c);
    Event(c.token.nonce, Receipt(d.cls, d.binding, c.now), c.appendOk, OutcomeOf(p, st, c).paid,
          c.server.price)
  }

  /** Every call moves the logs as its event says, and keeps the rules of the ledger. */
  lemma CallIsLawful(p: Payer, st: State, c: Call)
    ensures StateAfter(p, st, c) == Step(st, EventOf(p, st, c))
    ensures Lawful(st, EventOf(p, st, c), p.scope.ceiling)
    ensures EventOf(p, st, c).Allowed() ==> EventOf(p, st, c).receipt == Receipt(Allow, c.binding, c.now)
  {
    PaidExactly(p, st, c);
  }

  /** The events of a sequence of calls on a fresh client. */
  ghost function Run(p: Payer, calls: seq<Call>): (es: seq<Event>)
    ensures |es| == |calls|
  {
    Events((st, c) => EventOf(p, st, c), calls)
  }

  lemma RunAt(p: Payer, calls: seq<Call>, i: nat)
    requires i < |calls|
    ensures Run(p, calls)[i] == EventOf(p, After(EMPTY, Run(p, calls), i), calls[i])
  {
    EventAt((st, c) => EventOf(p, st, c), calls, i);
  }

  /** Every sequence of calls of Pay on a fresh client, with any tokens, prices, redirections,
      vetoes and append failures, is a lawful run. */
  lemma RunIsLawful(p: Payer, calls: seq<Call>)
    ensures LawfulRun(EMPTY, Run(p, calls), p.scope.ceiling)
  {
    var es := Run(p, calls);
    forall i: nat | i < |es| ensures Lawful(After(EMPTY, es, i), es[i], p.scope.ceiling) {
      RunAt(p, calls, i);
      CallIsLawful(p, After(EMPTY, es, i), calls[i]);
    }
  }

  /** The outcome of call i of a run. */
  ghost function OutcomeAt(p: Payer, calls: seq<Call>, i: nat): Outcome
    requires i < |calls|
  {
    OutcomeOf(p, After(EMPTY, Run(p, calls), i), calls[i])
  }

  /** Safety over runs: a release stands on an Allow entry made by its own call and shared with
      no other release, and no other call with its nonce pays. */
  lemma RunSafety(p: Payer, calls: seq<Call>, i: nat)
    requires i < |calls| && Run(p, calls)[i].paid
    ensures var es := Run(p, calls);
      && es[i].recorded && es[i].receipt == Receipt(Allow, calls[i].binding, calls[i].now)
      && EntryOf(EMPTY, es, i) < |After(EMPTY, es, |es|).receipts|
      && After(EMPTY, es, |es|).receipts[EntryOf(EMPTY, es, i)] == es[i].receipt
    ensures forall j: nat :: j < |calls| && j != i && Run(p, calls)[j].paid ==>
      && calls[j].token.nonce != calls[i].token.nonce
      && EntryOf(EMPTY, Run(p, calls), j) != EntryOf(EMPTY, Run(p, calls), i)
  {
    var es := Run(p, calls);
    RunIsLawful(p, calls);
    RunAt(p, calls, i);
    CallIsLawful(p, After(EMPTY, es, i), calls[i]);
    OwnEvidence(EMPTY, es, p.scope.ceiling, i, |es|);
    forall j: nat | j < |calls| && j != i && es[j].paid
      ensures calls[j].token.nonce != calls[i].token.nonce
      ensures EntryOf(EMPTY, es, j) != EntryOf(EMPTY, es, i)
    {
      DifferentReleases(p, calls, i, j);
    }
  }

  lemma DifferentReleases(p: Payer, calls: seq<Call>, i: nat, j: nat)
    requires i < |calls| && j < |calls| && i != j
    requires Run(p, calls)[i].paid && Run(p, calls)[j].paid
    ensures calls[j].token.nonce != calls[i].token.nonce
    ensures EntryOf(EMPTY, Run(p, calls), j) != EntryOf(EMPTY, Run(p, calls), i)
  {
    var es, a, b := Run(p, calls), if i < j then i else j, if i < j then j else i;
    RunIsLawful(p, calls);
    RunAt(p, calls, a);
    RunAt(p, calls, b);
    OwnEvidence(EMPTY, es, p.scope.ceiling, a, |es|);
    OwnEvidence(EMPTY, es, p.scope.ceiling, b, |es|);
    if es[a].nonce == es[b].nonce {
      AllowedOnce(EMPTY, es, p.scope.ceiling, a, b);
    }
  }

  /** In every run, whatever is allowed is demanded at a price between zero and the ceiling. */
  lemma RunAllowedAmount(p: Payer, calls: seq<Call>, i: nat)
    requires i < |calls| && Run(p, calls)[i].Allowed()
    ensures SetString(calls[i].server.Require().maxAmountRequired) == Some(calls[i].server.price)
    ensures calls[i].server.price <= p.scope.ceiling
  {
    RunAt(p, calls, i);
    PolicyOnDemand(p.scope, calls[i].server);
    SetStringFormat(calls[i].server.price);
  }

  /** The run follows the code: after each call the logs are what Pay leaves, and the event
      pays exactly when the outcome of Pay does. */
  lemma RunFollowsPay(p: Payer, calls: seq<Call>, i: nat)
    requires i < |calls|
    ensures var es := Run(p, calls);
      var st := After(EMPTY, es, i);
      && After(EMPTY, es, i + 1) == StateAfter(p, st, calls[i])
      && es[i].paid == OutcomeOf(p, st, calls[i]).paid
  {
    RunAt(p, calls, i);
    CallIsLawful(p, After(EMPTY, Run(p, calls), i), calls[i]);
  }

  /** The evidence of a run: one entry for every call whose append succeeded, allowed or not,
      and it is there to stay: the decision of that call, its binding and its time. */
  lemma RunLogsEveryDecision(p: Payer, calls: seq<Call>, i: nat)
    requires i < |calls|
    ensures var es := Run(p, calls);
      var log, d := After(EMPTY, es, |es|).receipts, DecisionOf(p, After(EMPTY, es, i), calls[i]);
      && |log| == |set k | 0 <= k < |calls| && calls[k].appendOk|
      && (calls[i].appendOk ==>
           EntryOf(EMPTY, es, i) < |log| && log[EntryOf(EMPTY, es, i)] == Receipt(d.cls, d.binding, calls[i].now))
    ensures Run(p, calls)[i].nonce == calls[i].token.nonce && Run(p, calls)[i].price == calls[i].server.price
  {
    var es := Run(p, calls);
    RunAt(p, calls, i);
    RunRecorded(p, calls);
    if calls[i].appendOk { EntryStays(EMPTY, es, i, |es|); }
  }

  lemma RunRecorded(p: Payer, calls: seq<Call>)
    ensures var es := Run(p, calls);
      |After(EMPTY, es, |es|).receipts| == |set k | 0 <= k < |calls| && calls[k].appendOk|
  {
    var es := Run(p, calls);
    forall k: nat | k < |calls| ensures es[k].recorded == calls[k].appendOk { RunAt(p, calls, k); }
    EntriesCount(es, |es|);
    assert (set k | 0 <= k < |es| && es[k].recorded) == set k | 0 <= k < |calls| && calls[k].appendOk;
  }

  /** A lost authorisation stays lost: once a call was allowed, no later call with its nonce is
      allowed or pays, and when its decision could not be recorded it did not pay either. */
  lemma RunLostAuthorisation(p: Payer, calls: seq<Call>, i: nat, j: nat)
    requires i < j < |calls| && calls[i].token.nonce == calls[j].token.nonce
    requires Run(p, calls)[i].Allowed()
    ensures !Run(p, calls)[j].Allowed() && !Run(p, calls)[j].paid
    ensures !calls[i].appendOk ==> !Run(p, calls)[i].paid
  {
    RunIsLawful(p, calls);
    RunAt(p, calls, i);
    RunAt(p, calls, j);
    AllowedOnce(EMPTY, Run(p, calls), p.scope.ceiling, i, j);
  }

  /** In every run, what a released payment submitted is one transfer on which payer, scope and
      server agree, and whatever is submitted at all passed the guard. */
  lemma RunReleasedPayment(p: Payer, calls: seq<Call>, i: nat)
    requires i < |calls|
    ensures var o := OutcomeAt(p, calls, i);
      && (Run(p, calls)[i].paid ==> AgreedTransfer(p, calls[i].server, o.submitted))
      && (o.submitted != [] ==> Pays(DECODER, o.submitted, Bound(p.acc, calls[i].server.price)))
  {
    RunFollowsPay(p, calls, i);
    SubmittedExactly(p, After(EMPTY, Run(p, calls), i), calls[i]);
    if Run(p, calls)[i].paid {
      ReleasedPayment(p, After(EMPTY, Run(p, calls), i), calls[i]);
    }
  }

  /** In every run, a call whose entry could not be appended leaves the log alone, submits
      nothing and pays nothing; an Allow becomes unavailable, and a denial keeps its class. */
  lemma RunUnrecorded(p: Payer, calls: seq<Call>, i: nat)
    requires i < |calls| && !calls[i].appendOk
    ensures var es, o := Run(p, calls), OutcomeAt(p, calls, i);
      && !es[i].paid && o.submitted == []
      && After(EMPTY, es, i + 1).receipts == After(EMPTY, es, i).receipts
      && o.decision == if es[i].Allowed() then DenyUnavailable else es[i].receipt.cls
  {
    RunAt(p, calls, i);
    RunFollowsPay(p, calls, i);
    SubmittedExactly(p, After(EMPTY, Run(p, calls), i), calls[i]);
  }

  /** The outcomes of a run, call by call. */
  ghost function Outcomes(p: Payer, calls: seq<Call>): (os: seq<Outcome>)
    ensures |os| == |calls|
  {
    seq(|calls|, i requires 0 <= i < |calls| => OutcomeAt(p, calls, i))
  }

  /** A sequence of payments by one client, each to a server of its own: the logs end as the
      run does, and the outcomes are those of the run. */
  method PayAll(client: Client, calls: seq<Call>) returns (outcomes: seq<Outcome>)
    requires client.Current() == EMPTY
    modifies client
    ensures client.Current() == After(EMPTY, Run(client.payer, calls), |calls|)
    ensures outcomes == Outcomes(client.payer, calls)
  {
    ghost var es, os := Run(client.payer, calls), Outcomes(client.payer, calls);
    outcomes := [];
    for i := 0 to |calls|
      invariant client.Current() == After(EMPTY, es, i)
      invariant outcomes == os[..i]
    {
      outcomes := PayNext(client, calls, i, outcomes);
    }
  }

  /** Call i of a run, with the outcomes before it. */
  method PayNext(client: Client, calls: seq<Call>, i: nat, before: seq<Outcome>)
      returns (outcomes: seq<Outcome>)
    requires i < |calls| && client.Current() == After(EMPTY, Run(client.payer, calls), i)
    requires before == Outcomes(client.payer, calls)[..i]
    modifies client
    ensures client.Current() == After(EMPTY, Run(client.payer, calls), i + 1)
    ensures outcomes == Outcomes(client.payer, calls)[..i + 1]
  {
    ghost var os := Outcomes(client.payer, calls);
    var server := new ResourceServer(calls[i].server);
    var o := client.Pay(server, calls[i]);
    RunFollowsPay(client.payer, calls, i);
    assert o == os[i];
    outcomes := before + [o];
    Extends(os, i, o);
  }

  lemma Extends(os: seq<Outcome>, i: nat, o: Outcome)
    requires i < |os| && os[i] == o
    ensures os[..i] + [o] == os[..i + 1]
  {
  }

  /** Conservation over runs: the Allow entries are the releases and the stopped payments, and
      the value released is at most the ceiling for each of them. */
  lemma RunConservation(p: Payer, calls: seq<Call>)
    ensures var es := Run(p, calls);
      var log := After(EMPTY, es, |es|).receipts;
      && AllowEntries(log) == Releases(es, |es|) + Stopped(es, |es|)
      && Outflow(es, |es|) <= p.scope.ceiling * AllowEntries(log)
  {
    RunIsLawful(p, calls);
    BooksBalance(EMPTY, Run(p, calls), p.scope.ceiling, |calls|);
    OutflowBounded(EMPTY, Run(p, calls), p.scope.ceiling, |calls|);
  }
}
