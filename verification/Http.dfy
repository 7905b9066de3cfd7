/** The payer's loop over HTTP: HTTPClient in demo/x402http.go. The demand is whatever the other
    side chose to send, so nothing below trusts it. */
module Http {
  import opened Bytes
  import opened Decimal
  import opened Gate
  import opened Ledger
  import opened Settle
  import opened Demo
  import opened Wire
  import Base58

  /** The answer to the request that carries the payment; no answer is a transport error. */
  datatype Reply = NoReply | Reply(status: int, body: seq<byte>)

  /** Everything a call meets: the demand in the first answer, or none when there was no readable
      402 with a requirement in it; the token, the gate's inputs and the append as in process;
      and the second answer. */
  datatype Exchange = Exchange(demand: Option<PaymentRequirements>, token: Token, now: int,
                               tamper: bool, veto: Veto, binding: Key, appendOk: bool, reply: Reply)

  /** The other side, as an object: it answers the payment, and its log has the headers it got. */
  class Endpoint {
    const reply: Reply
    ghost var headers: seq<seq<byte>>

    constructor (reply: Reply)
      ensures this.reply == reply && headers == []
    {
      this.reply := reply;
      headers := [];
    }

    method Get(header: seq<byte>) returns (r: Reply)
      modifies this
      ensures r == reply && headers == old(headers) + [header]
    {
      headers := headers + [header];
      r := reply;
    }
  }

  // --------------------------------------------------------------- one call

  ghost function Judged(p: Payer, st: State, c: Exchange): Decision
    requires c.demand.Some?
  {
    var req := c.demand.value;
    Decide(c.veto, req.maxAmountRequired, PolicyAllows(p.scope, req), c.token, c.now, st.spent, c.binding)
  }

  ghost function StateAfterExchange(p: Payer, st: State, c: Exchange): State {
    if c.demand.None? then st else
    var d := Judged(p, st, c);
    State(SpentAfter(d, c.token, st.spent),
          Appended(st.receipts, c.appendOk, Receipt(d.cls, d.binding, c.now)))
  }

  /** The outcome of a call whose demand was read; none for an error after the payment was sent. */
  ghost function Attempt(p: Payer, st: State, c: Exchange): Option<Outcome>
    requires c.demand.Some?
  {
    var d, price := Judged(p, st, c), ParseUint(c.demand.value.maxAmountRequired);
    if d.cls != Allow then Some(Outcome(d.cls, false, [], false, []))
    else if !c.appendOk then Some(Outcome(DenyUnavailable, false, [], false, []))
    else if price.None? then Some(Outcome(DenyViolation, false, [], false, []))
    else
      var ixs := Built(p.acc, price.value, c.tamper);
      if !Pays(DECODER, ixs, Bound(p.acc, price.value)) then Some(Outcome(Allow, false, [], true, []))
      else Concluded(c.reply, ixs)
  }

  /** The end of a call that sent these instructions: paid exactly when the answer is 200. */
  function Concluded(reply: Reply, ixs: seq<Instruction>): Option<Outcome> {
    if reply.NoReply? then None
    else if reply.status != 200 then Some(Outcome(Allow, false, [], false, ixs))
    else Some(Outcome(Allow, true, reply.body, false, ixs))
  }

  /** The reply a response of the handler is; only the body of a 200 is read. */
  function ReplyOf(r: Response): Reply {
    match r
    case Released(body) => Reply(200, body)
    case PaymentRequired(_) => Reply(402, [])
    case BadRequest => Reply(400, [])
  }

  /** The instructions in the header the call sends; none when it sends no header. */
  ghost function Sent(p: Payer, st: State, c: Exchange): seq<Instruction> {
    if c.demand.None? then [] else
    var price := ParseUint(c.demand.value.maxAmountRequired);
    if Judged(p, st, c).cls != Allow || !c.appendOk || price.None? then [] else
    var ixs := Built(p.acc, price.value, c.tamper);
    if Pays(DECODER, ixs, Bound(p.acc, price.value)) then ixs else []
  }

  class HttpClient {
    const payer: Payer
    var spend: set<Key>
    var receipts: seq<Receipt>

    ghost function Current(): State
      reads this
    {
      State(spend, receipts)
    }

    constructor (acc: Accounts, scope: Scope)
      ensures payer == Payer(acc, scope) && Current() == EMPTY
    {
      payer := Payer(acc, scope);
      spend := {};
      receipts := [];
    }

    /** The call up to its second request: the decision, the logs, the transaction and the guard.
        Either it ends here, or these are the instructions and the header to send. */
    method Prepare(c: Exchange, render: PaymentJson -> seq<byte>)
        returns (early: Option<Outcome>, ixs: seq<Instruction>, header: seq<byte>)
      requires c.demand.Some?
      modifies this
      ensures Current() == StateAfterExchange(payer, old(Current()), c)
      ensures ixs == Sent(payer, old(Current()), c)
      ensures ixs == [] ==> early.Some? && early == Attempt(payer, old(Current()), c)
      ensures ixs != [] ==> early.None? && Attempt(payer, old(Current()), c) == Concluded(c.reply, ixs)
      ensures ixs != [] ==> header == XPayment(render, c.demand.value.scheme, c.demand.value.network, ixs, true)
    {
      var acc, req := payer.acc, c.demand.value;
      var refused := Verify(payer.scope, req);
      var d := Decide(c.veto, req.maxAmountRequired, refused.None?, c.token, c.now, spend, c.binding);
      if d.cls == Allow {
        spend := spend + {c.token.nonce};
      }
      if c.appendOk {
        receipts := receipts + [Receipt(d.cls, d.binding, c.now)];
      }
      if !c.appendOk && d.cls == Allow {
        return Some(Outcome(DenyUnavailable, false, [], false, [])), [], [];
      }
      if d.cls != Allow {
        return Some(Outcome(d.cls, false, [], false, [])), [], [];
      }
      var price := ParseUint(req.maxAmountRequired);
      if price.None? {
        return Some(Outcome(DenyViolation, false, [], false, [])), [], [];
      }
      var dest := acc.merchant;
      if c.tamper {
        dest := acc.attacker;
      }
      var ix := BuildTransferChecked(DEMO_TOKEN_PROGRAM, acc.source, acc.asset, dest, acc.payer,
                                     price.value, DECIMALS);
      ixs := [ix];
      var bad := AssertTransactionPays(DECODER, ixs, Bound(acc, price.value));
      if bad.Some? {
        return Some(Outcome(d.cls, false, [], true, [])), [], [];
      }
      header := WriteXPayment(render, req.scheme, req.network, ixs, true);
      return None, ixs, header;
    }

    /** One call: the logs and the outcome are the specified ones, and the other side receives
        the header of the instructions in Sent, signed, or no header at all. */
    method Pay(url: Endpoint, c: Exchange, render: PaymentJson -> seq<byte>) returns (o: Option<Outcome>)
      requires c.reply == url.reply
      modifies this, url
      ensures Current() == StateAfterExchange(payer, old(Current()), c)
      ensures o == if c.demand.None? then None else Attempt(payer, old(Current()), c)
      ensures var ixs := Sent(payer, old(Current()), c);
        url.headers == old(url.headers) + (if ixs == [] then [] else
          [XPayment(render, c.demand.value.scheme, c.demand.value.network, ixs, true)])
    {
      if c.demand.None? { return None; }
      var early, ixs, header := Prepare(c, render);
      if early.Some? { return early; }
      var reply := url.Get(header);
      return Concluded(reply, ixs);
    }

    /** The same call with the handler of a server on the other side. It is the call in process:
        the same logs, the same outcome with the resource in the body, and the server receives
        the same payment or none. */
    method PayHandler(server: ResourceServer, call: Call, render: PaymentJson -> seq<byte>,
                      parse: seq<byte> -> Option<PaymentJson>)
        returns (o: Outcome)
      requires call.server == server.config && Codec(render, parse)
      modifies this, server
      ensures Current() == StateAfter(payer, old(Current()), call)
      ensures o == OverHttp(OutcomeOf(payer, old(Current()), call))
      ensures server.received
        == old(server.received) + (if o.submitted == [] then [] else [Payment(o.submitted, true)])
    {
      ghost var before := Current();
      var first := Handle(server, [], parse);
      var c := ExchangeOf(call, first.demand, NoReply);
      var early, ixs, header := Prepare(c, render);
      SameUpToTheAnswer(payer, before, c, call);
      if early.Some? {
        RefinesInProcess(payer, before, c, call);
        return early.value;
      }
      CarriesExactly(render, parse, c.demand.value.scheme, c.demand.value.network, ixs, true);
      assert Carries(header, parse, ixs, true);
      var second := Handle(server, header, parse);
      var done := Concluded(ReplyOf(second), ixs);
      RefinesInProcess(payer, before, ExchangeOf(call, first.demand, ReplyOf(second)), call);
      return done.value;
    }
  }

  // ------------------------------------------------------------ what is sent

  /** The text has no leading sign. */
  predicate Unsigned(s: seq<byte>) {
    s == [] || (s[0] != '+' as int && s[0] != '-' as int)
  }

  /** The policy and the client read the amount with different parsers. On a text the policy
      accepts they differ exactly when it carries a sign, and then the client refuses it. */
  lemma TwoParsers(scope: Scope, pr: PaymentRequirements)
    requires PolicyAllows(scope, pr)
    ensures ParseUint(pr.maxAmountRequired).Some? <==> Unsigned(pr.maxAmountRequired)
    ensures Unsigned(pr.maxAmountRequired) ==>
      ParseUint(pr.maxAmountRequired) == SetString(pr.maxAmountRequired) && Bindable(pr.maxAmountRequired)
  {
    if Unsigned(pr.maxAmountRequired) {
      DecValBound(pr.maxAmountRequired);
    }
  }

  /** A payment is sent iff the gate has no reason to refuse, the token is unexpired and unspent,
      the policy accepts the demand, the decision is recorded, the amount carries no sign and the
      transfer was not redirected. */
  lemma SentExactly(p: Payer, st: State, c: Exchange)
    ensures Sent(p, st, c) != [] <==>
      && c.demand.Some? && PolicyAllows(p.scope, c.demand.value)
      && c.veto.NoVeto? && c.now <= c.token.expiry && c.token.nonce !in st.spent && c.appendOk
      && Unsigned(c.demand.value.maxAmountRequired)
      && (c.tamper ==> p.acc.attacker == p.acc.merchant)
  {
    if c.demand.Some? && PolicyAllows(p.scope, c.demand.value) {
      var text := c.demand.value.maxAmountRequired;
      TwoParsers(p.scope, c.demand.value);
      if Unsigned(text) { BuiltFields(p.acc, ParseUint(text).value, c.tamper); }
    }
  }

  /** Whatever the other side demands, a payment that is sent is one transfer of the amount
      demanded, at most the ceiling, of the payer's own asset to the payer's own merchant. */
  lemma SentTransfer(p: Payer, st: State, c: Exchange)
    requires Sent(p, st, c) != []
    ensures OneTransfer(DECODER, Sent(p, st, c))
    ensures var t := Fields(Transfers(DECODER, Sent(p, st, c))[0]);
      && t.destination == p.acc.merchant && t.mint == p.acc.asset && t.authority == p.acc.payer
      && SetString(c.demand.value.maxAmountRequired) == Some(t.amount) && t.amount <= p.scope.ceiling
  {
    SentExactly(p, st, c);
    TwoParsers(p.scope, c.demand.value);
    BuiltFields(p.acc, ParseUint(c.demand.value.maxAmountRequired).value, c.tamper);
  }

  /** Whatever is sent is one instruction, byte for byte the transfer of the amount demanded. */
  lemma SentBytes(p: Payer, st: State, c: Exchange)
    requires Sent(p, st, c) != []
    ensures var amt := SetString(c.demand.value.maxAmountRequired);
      amt.Some? && IsTransferOf(p.acc, amt.value, Sent(p, st, c))
  {
    SentExactly(p, st, c);
    TwoParsers(p.scope, c.demand.value);
    BuiltBytes(p.acc, ParseUint(c.demand.value.maxAmountRequired).value, c.tamper);
  }

  /** A call that sends something ends as its answer says, and one that sends nothing ends early. */
  lemma EndsAsAnswered(p: Payer, st: State, c: Exchange)
    requires c.demand.Some?
    ensures var r, ixs := Attempt(p, st, c), Sent(p, st, c);
      if ixs != [] then r == Concluded(c.reply, ixs)
      else r.Some? && !r.value.paid && r.value.released == [] && r.value.submitted == []
  {
  }

  /** What the client reports: an error exactly when a payment was sent and not answered, a payment
      exactly when one was sent and answered 200, and then the body of that answer. */
  lemma ReportedExactly(p: Payer, st: State, c: Exchange)
    requires c.demand.Some?
    ensures var r, sent := Attempt(p, st, c), Sent(p, st, c) != [];
      && (r.None? <==> sent && c.reply.NoReply?)
      && (r.Some? && r.value.paid <==> sent && c.reply.Reply? && c.reply.status == 200)
      && (r.Some? ==> r.value.released == (if r.value.paid then c.reply.body else []))
      && (r.Some? ==> r.value.submitted == Sent(p, st, c))
  {
    EndsAsAnswered(p, st, c);
    ConcludedExactly(c.reply, Sent(p, st, c));
  }

  lemma ConcludedExactly(reply: Reply, ixs: seq<Instruction>)
    ensures var r := Concluded(reply, ixs);
      && (r.None? <==> reply.NoReply?)
      && (r.Some? ==> r.value.decision == Allow && !r.value.abortedBeforeSign && r.value.submitted == ixs)
      && (r.Some? ==> (r.value.paid <==> reply.status == 200))
      && (r.Some? ==> r.value.released == if r.value.paid then reply.body else [])
  {
  }

  /** The rest of the report: the decision is the gate's, except that an Allow without evidence is
      unavailable and one at a signed amount a violation; the guard stops what was redirected. */
  lemma ReportedDecision(p: Payer, st: State, c: Exchange)
    requires c.demand.Some? && Attempt(p, st, c).Some?
    ensures var o, d := Attempt(p, st, c).value, Judged(p, st, c);
      var text := c.demand.value.maxAmountRequired;
      && o.decision == (if d.cls != Allow then d.cls else if !c.appendOk then DenyUnavailable
                        else if !Unsigned(text) then DenyViolation else Allow)
      && (o.abortedBeforeSign <==>
           d.cls == Allow && c.appendOk && Unsigned(text) && c.tamper && p.acc.attacker != p.acc.merchant)
  {
    var d, price := Judged(p, st, c), ParseUint(c.demand.value.maxAmountRequired);
    if d.cls == Allow && c.appendOk {
      TwoParsers(p.scope, c.demand.value);
      if price.Some? { GuardedExactly(p, st, c, price.value); }
    }
  }

  lemma GuardedExactly(p: Payer, st: State, c: Exchange, price: u64)
    requires c.demand.Some? && Judged(p, st, c).cls == Allow && c.appendOk
    requires ParseUint(c.demand.value.maxAmountRequired) == Some(price)
    ensures Attempt(p, st, c) == if c.tamper && p.acc.attacker != p.acc.merchant
      then Some(Outcome(Allow, false, [], true, [])) else Concluded(c.reply, Built(p.acc, price, c.tamper))
  {
    BuiltFields(p.acc, price, c.tamper);
  }

  /** The gate has no reason to refuse but the amount and the policy. */
  predicate Willing(st: State, c: Exchange) {
    c.veto.NoVeto? && c.now <= c.token.expiry && c.token.nonce !in st.spent
  }

  /** A demand is allowed only at an amount between zero and the ceiling, whatever its text. */
  lemma AllowedAmount(p: Payer, st: State, c: Exchange)
    requires c.demand.Some? && Judged(p, st, c).cls == Allow
    ensures var amt := SetString(c.demand.value.maxAmountRequired);
      amt.Some? && 0 <= amt.value <= p.scope.ceiling
  {
    BindableAmount(p.scope, c.demand.value);
  }

  /** An amount with a sign that the policy accepts is never sent. A negative number stops at the
      gate and leaves the nonce unspent. Any other, a plus sign or minus zero, passes a willing
      gate: the decision recorded is Allow and the nonce is spent, and then the client's parser
      makes the outcome a violation. */
  lemma SignedAmount(p: Payer, st: State, c: Exchange)
    requires c.demand.Some? && PolicyAllows(p.scope, c.demand.value)
    requires !Unsigned(c.demand.value.maxAmountRequired)
    ensures Sent(p, st, c) == []
    ensures Judged(p, st, c).cls == Allow <==>
      Willing(st, c) && SetString(c.demand.value.maxAmountRequired).value >= 0
    ensures var after := StateAfterExchange(p, st, c);
      if Judged(p, st, c).cls != Allow then after.spent == st.spent
      else
        && after.spent == st.spent + {c.token.nonce}
        && (c.appendOk ==> after.receipts == st.receipts + [Receipt(Allow, c.binding, c.now)])
        && (c.appendOk ==> Attempt(p, st, c) == Some(Outcome(DenyViolation, false, [], false, [])))
  {
    TwoParsers(p.scope, c.demand.value);
    BindableAmount(p.scope, c.demand.value);
  }

  /** The text "+5", demanded of a payer whose ceiling admits it, is such an amount. */
  lemma PlusFive(p: Payer, k: Key)
    requires k in p.scope.payees && p.scope.ceiling >= 5
    ensures var c := Demand(p, k, ['+' as int, '5' as int]);
      && PolicyAllows(p.scope, c.demand.value) && Judged(p, EMPTY, c).cls == Allow
      && Attempt(p, EMPTY, c) == Some(Outcome(DenyViolation, false, [], false, []))
      && StateAfterExchange(p, EMPTY, c) == State({k}, [Receipt(Allow, k, 0)])
  {
    var c := Demand(p, k, ['+' as int, '5' as int]);
    var five := c.demand.value.maxAmountRequired[1..];
    assert five == ['5' as int];
    DecValSnoc([], '5' as int);
    assert [] + ['5' as int] == five;
    SignedAmount(p, EMPTY, c);
  }

  /** The payment sent goes to the payee demanded, in the asset demanded. */
  ghost predicate AsDemanded(p: Payer, c: Exchange)
    requires c.demand.Some?
  {
    c.demand.value.payTo == Base58.Encode(p.acc.merchant) && c.demand.value.asset == Base58.Encode(p.acc.asset)
  }

  /** The transfer is built from the payer's accounts, not from the demand: every payment sent is
      the one demanded exactly when the scope admits no payee but the payer's merchant and, if
      any, no asset but the payer's. */
  lemma PaysAsDemandedExactly(p: Payer)
    ensures (forall st, c :: Sent(p, st, c) != [] ==> AsDemanded(p, c))
      <==> (forall k :: k in p.scope.payees ==> k == p.acc.merchant && p.scope.asset == p.acc.asset)
  {
    if k :| k in p.scope.payees && !(k == p.acc.merchant && p.scope.asset == p.acc.asset) {
      var c := Demand(p, k, FormatUint(0));
      SetStringFormat(0);
      SentExactly(p, EMPTY, c);
      Base58.EncodeInjective(k, p.acc.merchant);
      Base58.EncodeInjective(p.scope.asset, p.acc.asset);
      assert Sent(p, EMPTY, c) != [] && !AsDemanded(p, c);
    } else {
      forall st, c | Sent(p, st, c) != [] ensures AsDemanded(p, c) {
        SentExactly(p, st, c);
      }
    }
  }

  /** A demand of an amount, in the asset of the scope, to payee k. */
  function Demand(p: Payer, k: Key, amount: seq<byte>): Exchange {
    var pr := PaymentRequirements(Ascii("exact"), Ascii("solana:devnet"), Base58.Encode(p.scope.asset),
                                  Base58.Encode(k), amount, []);
    Exchange(Some(pr), Token(k, 0), 0, false, NoVeto, k, true, NoReply)
  }

  // ------------------------------------------------------- the honest server

  /** The exchange of a call: what the first answer demanded, and the second answer. */
  function ExchangeOf(call: Call, demand: PaymentRequirements, reply: Reply): Exchange {
    Exchange(Some(demand), call.token, call.now, call.tamper, call.veto, call.binding, call.appendOk, reply)
  }

  /** The outcome of a call in process as the client over HTTP reports it. */
  function OverHttp(o: Outcome): Outcome {
    if o.paid then o.(released := Ascii("resource released: ") + o.released) else o
  }

  /** The call over HTTP and the call in process are the same call up to the second answer. */
  ghost predicate SameCall(c: Exchange, call: Call) {
    c == ExchangeOf(call, call.server.Require(), c.reply)
  }

  lemma SameUpToTheAnswer(p: Payer, st: State, c: Exchange, call: Call)
    requires SameCall(c, call)
    ensures StateAfterExchange(p, st, c) == StateAfter(p, st, call)
    ensures Sent(p, st, c) == OutcomeOf(p, st, call).submitted
  {
    ParseFormat(call.server.price);
  }

  /** When what is sent is answered 200 with the resource exactly if the server accepts it, the
      loop over HTTP is the loop in process: the same logs, decision, instructions and payment. */
  lemma RefinesInProcess(p: Payer, st: State, c: Exchange, call: Call)
    requires SameCall(c, call)
    requires Sent(p, st, c) != [] ==>
      && c.reply.Reply? && (c.reply.status == 200 <==> call.server.Accepts(Sent(p, st, c), true))
      && (c.reply.status == 200 ==> c.reply.body == Ascii("resource released: ") + call.server.resource)
    ensures StateAfterExchange(p, st, c) == StateAfter(p, st, call)
    ensures Sent(p, st, c) == OutcomeOf(p, st, call).submitted
    ensures Attempt(p, st, c) == Some(OverHttp(OutcomeOf(p, st, call)))
  {
    ParseFormat(call.server.price);
  }

  // -------------------------------------------------------------------- runs

  /** What a call does to the logs, as an event of the ledger; a payment that was sent counts as
      made, whatever was answered. */
  ghost function ExchangeEvent(p: Payer, st: State, c: Exchange): Event {
    if c.demand.None? then Event(c.token.nonce, Receipt(DenyUnavailable, c.binding, c.now), false, false, 0) else
    var d, price := Judged(p, st, c), ParseUint(c.demand.value.maxAmountRequired);
    Event(c.token.nonce, Receipt(d.cls, d.binding, c.now), c.appendOk, Sent(p, st, c) != [],
          if price.Some? then price.value else 0)
  }

  lemma ExchangeIsLawful(p: Payer, st: State, c: Exchange)
    ensures StateAfterExchange(p, st, c) == Step(st, ExchangeEvent(p, st, c))
    ensures Lawful(st, ExchangeEvent(p, st, c), p.scope.ceiling)
  {
    if Sent(p, st, c) != [] {
      SentExactly(p, st, c);
      TwoParsers(p.scope, c.demand.value);
    }
  }

  ghost function ExchangeRun(p: Payer, calls: seq<Exchange>): (es: seq<Event>)
    ensures |es| == |calls|
  {
    Events((st, c) => ExchangeEvent(p, st, c), calls)
  }

  lemma ExchangeRunAt(p: Payer, calls: seq<Exchange>, i: nat)
    requires i < |calls|
    ensures ExchangeRun(p, calls)[i] == ExchangeEvent(p, After(EMPTY, ExchangeRun(p, calls), i), calls[i])
  {
    EventAt((st, c) => ExchangeEvent(p, st, c), calls, i);
  }

  lemma ExchangeRunIsLawful(p: Payer, calls: seq<Exchange>)
    ensures LawfulRun(EMPTY, ExchangeRun(p, calls), p.scope.ceiling)
  {
    var es := ExchangeRun(p, calls);
    forall i: nat | i < |es| ensures Lawful(After(EMPTY, es, i), es[i], p.scope.ceiling) {
      ExchangeRunAt(p, calls, i);
      ExchangeIsLawful(p, After(EMPTY, es, i), calls[i]);
    }
  }

  /** The run follows the code: after each call the logs are what Pay leaves, and the event has a
      payment exactly when Pay sends one. */
  lemma ExchangeRunFollowsPay(p: Payer, calls: seq<Exchange>, i: nat)
    requires i < |calls|
    ensures var es := ExchangeRun(p, calls);
      var st := After(EMPTY, es, i);
      && After(EMPTY, es, i + 1) == StateAfterExchange(p, st, calls[i])
      && (es[i].paid <==> Sent(p, st, calls[i]) != [])
  {
    ExchangeRunAt(p, calls, i);
    ExchangeIsLawful(p, After(EMPTY, ExchangeRun(p, calls), i), calls[i]);
  }

  /** The evidence of a run: one entry for every demand that was read and whose append succeeded,
      allowed or not, and it is there to stay. The event of a payment carries the amount sent. */
  lemma ExchangeLogsEveryDecision(p: Payer, calls: seq<Exchange>, i: nat)
    requires i < |calls|
    ensures var es := ExchangeRun(p, calls);
      |After(EMPTY, es, |es|).receipts| == |set k | 0 <= k < |calls| && calls[k].demand.Some? && calls[k].appendOk|
    ensures var es := ExchangeRun(p, calls);
      var log, c := After(EMPTY, es, |es|).receipts, calls[i];
      c.demand.Some? && c.appendOk ==>
        var d := Judged(p, After(EMPTY, es, i), c);
        EntryOf(EMPTY, es, i) < |log| && log[EntryOf(EMPTY, es, i)] == Receipt(d.cls, d.binding, c.now)
    ensures var e := ExchangeRun(p, calls)[i];
      && e.nonce == calls[i].token.nonce
      && (e.paid ==> calls[i].demand.Some? && SetString(calls[i].demand.value.maxAmountRequired) == Some(e.price))
  {
    var es := ExchangeRun(p, calls);
    ExchangeRunAt(p, calls, i);
    ExchangeRecorded(p, calls);
    if es[i].recorded { EntryStays(EMPTY, es, i, |es|); }
    if es[i].paid {
      SentExactly(p, After(EMPTY, es, i), calls[i]);
      TwoParsers(p.scope, calls[i].demand.value);
    }
  }

  lemma ExchangeRecorded(p: Payer, calls: seq<Exchange>)
    ensures var es := ExchangeRun(p, calls);
      |After(EMPTY, es, |es|).receipts| == |set k | 0 <= k < |calls| && calls[k].demand.Some? && calls[k].appendOk|
  {
    var es := ExchangeRun(p, calls);
    forall k: nat | k < |calls| ensures es[k].recorded == (calls[k].demand.Some? && calls[k].appendOk) {
      ExchangeRunAt(p, calls, k);
    }
    EntriesCount(es, |es|);
    assert (set k | 0 <= k < |es| && es[k].recorded)
      == set k | 0 <= k < |calls| && calls[k].demand.Some? && calls[k].appendOk;
  }

  /** Against any sequence of demands and answers, whatever is allowed is an amount between zero
      and the ceiling. */
  lemma ExchangeAllowedAmount(p: Payer, calls: seq<Exchange>, i: nat)
    requires i < |calls| && ExchangeRun(p, calls)[i].Allowed()
    ensures calls[i].demand.Some?
    ensures var amt := SetString(calls[i].demand.value.maxAmountRequired);
      amt.Some? && 0 <= amt.value <= p.scope.ceiling
  {
    ExchangeRunAt(p, calls, i);
    AllowedAmount(p, After(EMPTY, ExchangeRun(p, calls), i), calls[i]);
  }

  /** The outcomes of a run in process as a client over HTTP reports them. */
  ghost function OutcomesOverHttp(p: Payer, calls: seq<Call>): (os: seq<Outcome>)
    ensures |os| == |calls|
  {
    seq(|calls|, i requires 0 <= i < |calls| => OverHttp(OutcomeAt(p, calls, i)))
  }

  /** A sequence of payments by one client over HTTP, each to the handler of a server of its own,
      is the run of the client in process, in its logs and in its outcomes. */
  method PayHandlers(client: HttpClient, calls: seq<Call>, render: PaymentJson -> seq<byte>,
                     parse: seq<byte> -> Option<PaymentJson>)
      returns (outcomes: seq<Outcome>)
    requires client.Current() == EMPTY && Codec(render, parse)
    modifies client
    ensures client.Current() == After(EMPTY, Run(client.payer, calls), |calls|)
    ensures outcomes == OutcomesOverHttp(client.payer, calls)
  {
    ghost var es, os := Run(client.payer, calls), OutcomesOverHttp(client.payer, calls);
    outcomes := [];
    for i := 0 to |calls|
      invariant client.Current() == After(EMPTY, es, i)
      invariant outcomes == os[..i]
    {
      outcomes := PayNextHandler(client, calls, i, outcomes, render, parse);
    }
  }

  /** Call i of such a run, with the outcomes before it. */
  method PayNextHandler(client: HttpClient, calls: seq<Call>, i: nat, before: seq<Outcome>,
                        render: PaymentJson -> seq<byte>, parse: seq<byte> -> Option<PaymentJson>)
      returns (outcomes: seq<Outcome>)
    requires i < |calls| && client.Current() == After(EMPTY, Run(client.payer, calls), i)
    requires before == OutcomesOverHttp(client.payer, calls)[..i] && Codec(render, parse)
    modifies client
    ensures client.Current() == After(EMPTY, Run(client.payer, calls), i + 1)
    ensures outcomes == OutcomesOverHttp(client.payer, calls)[..i + 1]
  {
    ghost var os := OutcomesOverHttp(client.payer, calls);
    var server := new ResourceServer(calls[i].server);
    var o := client.PayHandler(server, calls[i], render, parse);
    RunFollowsPay(client.payer, calls, i);
    assert o == os[i];
    outcomes := before + [o];
    Extends(os, i, o);
  }

  /** Safety against any sequence of demands and answers: what is sent stands on an Allow entry
      of its own call, which stays in the log, and no later call with its nonce is allowed or
      sends anything. */
  lemma ExchangeSafety(p: Payer, calls: seq<Exchange>, i: nat)
    requires i < |calls| && Sent(p, After(EMPTY, ExchangeRun(p, calls), i), calls[i]) != []
    ensures var es := ExchangeRun(p, calls);
      && EntryOf(EMPTY, es, i) < |After(EMPTY, es, |es|).receipts|
      && After(EMPTY, es, |es|).receipts[EntryOf(EMPTY, es, i)] == Receipt(Allow, calls[i].binding, calls[i].now)
    ensures forall j: nat :: i < j < |calls| && calls[j].token.nonce == calls[i].token.nonce ==>
      !ExchangeRun(p, calls)[j].Allowed() && Sent(p, After(EMPTY, ExchangeRun(p, calls), j), calls[j]) == []
  {
    var es := ExchangeRun(p, calls);
    ExchangeRunIsLawful(p, calls);
    ExchangeRunAt(p, calls, i);
    SentExactly(p, After(EMPTY, es, i), calls[i]);
    OwnEvidence(EMPTY, es, p.scope.ceiling, i, |es|);
    forall j: nat | i < j < |calls| && calls[j].token.nonce == calls[i].token.nonce
      ensures !es[j].Allowed() && Sent(p, After(EMPTY, es, j), calls[j]) == []
    {
      ExchangeRunAt(p, calls, j);
      AllowedOnce(EMPTY, es, p.scope.ceiling, i, j);
    }
  }

  /** Over any sequence of demands and answers, the value sent is at most the ceiling for each
      Allow entry, and those entries are the payments sent and the ones stopped. */
  lemma ExchangeConservation(p: Payer, calls: seq<Exchange>)
    ensures var es := ExchangeRun(p, calls);
      var log := After(EMPTY, es, |es|).receipts;
      && AllowEntries(log) == Releases(es, |es|) + Stopped(es, |es|)
      && Outflow(es, |es|) <= p.scope.ceiling * AllowEntries(log)
  {
    ExchangeRunIsLawful(p, calls);
    BooksBalance(EMPTY, ExchangeRun(p, calls), p.scope.ceiling, |calls|);
    OutflowBounded(EMPTY, ExchangeRun(p, calls), p.scope.ceiling, |calls|);
  }
}
