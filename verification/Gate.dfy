/** The contract this model takes from the payment gate, which lives in another repository
    (docs/SPEC-X402.md): what a decision is, and when it may be Allow. */
module Gate {
  import opened Bytes
  import opened Decimal
  import opened ModArith

  datatype PaymentRequirements = PaymentRequirements(
    scheme: seq<byte>, network: seq<byte>, asset: seq<byte>, payTo: seq<byte>,
    maxAmountRequired: seq<byte>, resource: seq<byte>)

  datatype Token = Token(nonce: Key, expiry: int)

  datatype Class = Allow | DenyViolation | DenyUnavailable

  /** A decision, and the binding the evidence entry records for it. */
  datatype Decision = Decision(cls: Class, binding: Key)

  const U128: int := 0x1_0000_0000_0000_0000_0000_0000_0000_0000

  /** The amount text denotes a number the binding has room for: 16 bytes. */
  predicate Bindable(amount: seq<byte>) {
    SetString(amount).Some? && 0 <= SetString(amount).value < U128
  }

  lemma BindableExactly(amount: seq<byte>)
    ensures Bindable(amount) <==> SetString(amount).Some? && 0 <= SetString(amount).value < Pow(256, 16)
  {
    Pow256();
    PowAdd(256, 8, 8);
  }

  /** The gate may refuse for reasons of its own: an unlisted scheme or network, a binding
      error, an unreadable spend log. It never allows for reasons of its own. */
  datatype Veto = NoVeto | Refuse(violation: bool, binding: Key)

  /** One entry of the receipt log. */
  datatype Receipt = Receipt(cls: Class, binding: Key, time: int)

  /** Allow only when the amount can be bound, the token is unexpired, the policy agrees and the
      nonce is unspent. An amount that cannot be bound is a malformed demand, so unavailable. */
  function Decide(veto: Veto, amount: seq<byte>, policyOk: bool, token: Token, now: int, spent: set<Key>,
                  binding: Key): (d: Decision)
    ensures d.cls == Allow <==>
      veto.NoVeto? && Bindable(amount) && policyOk && now <= token.expiry && token.nonce !in spent
    ensures d.cls == DenyUnavailable <==> if veto.Refuse? then !veto.violation else !Bindable(amount)
    ensures d.binding == if veto.Refuse? then veto.binding else binding
  {
    match veto
    case Refuse(violation, b) => Decision(if violation then DenyViolation else DenyUnavailable, b)
    case NoVeto =>
      if !Bindable(amount) then Decision(DenyUnavailable, binding)
      else if policyOk && now <= token.expiry && token.nonce !in spent then Decision(Allow, binding)
      else Decision(DenyViolation, binding)
  }

  /** The nonce is spent on Allow, and on nothing else. */
  function SpentAfter(d: Decision, token: Token, spent: set<Key>): set<Key> {
    if d.cls == Allow then spent + {token.nonce} else spent
  }

  /** An append either extends the log by one entry or leaves it alone. */
  function Appended(log: seq<Receipt>, ok: bool, r: Receipt): seq<Receipt> {
    if ok then log + [r] else log
  }
}
