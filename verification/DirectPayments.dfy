/** Payments in one token: single, batched, relayed on a signature, and refunds. */
module DirectPayments {
  import opened ByteOrder
  import opened Fees
  import opened RefundLedger
  import opened RouterCore
  import opened TokenLedger
  import opened Wrappers

  datatype Payment = Payment(sender: Address, recipient: Address, token: Token, amount: I128)

  /** What other contracts answer during one payment: the sender's approval, the oracle, the
      rate limiter, the three transfers that may be tried, and the sender's allowance. */
  datatype Answers = Answers(
    signed: bool, kycVerified: bool, withinRate: bool,
    feeMoves: bool, delivers: bool, holds: bool, allowance: int)

  // ---------- one payment ----------

  /** Moves the fee and the remainder out of the sender's account; a remainder the recipient
      cannot take is held by the router and owed to the sender. */
  function Pay(s: State, router: Address, treasury: Address, p: Payment, fee: int, a: Answers)
    : (r: Result<State, Error>)
    ensures r.Ok? ==> r.value.metaNonces == s.metaNonces
  {
    var remainder := p.amount - fee;
    if !InI128(remainder) then Err(Trapped)
    else
      match TransferIfPositive(s.balances, p.token, p.sender, treasury, fee, a.feeMoves)
      case None => Err(LimitExceeded)
      case Some(b) =>
        if remainder <= 0 then Ok(s.(balances := b))
        else
          match Transfer(b, p.token, p.sender, p.recipient, remainder, a.delivers)
          case Some(c) => Ok(s.(balances := c))
          case None => Hold(s.(balances := b), router, p, remainder, a.holds)
  }

  function Hold(s: State, router: Address, p: Payment, amount: int, holds: bool)
    : (r: Result<State, Error>)
    ensures r.Ok? ==> r.value.metaNonces == s.metaNonces
  {
    match Transfer(s.balances, p.token, p.sender, router, amount, holds)
    case None => Err(LimitExceeded)
    case Some(b) =>
      match Credit(s.refunds, p.sender, p.token, amount)
      case None => Err(Trapped)
      case Some(refunds) => Ok(s.(balances := b, refunds := refunds))
  }

  /** The core of a payment that its sender approved. */
  function Process(s: State, router: Address, now: U64, fees: FeeConfig, p: Payment, a: Answers)
    : (r: Result<State, Error>)
    ensures r.Ok? ==> r.value.metaNonces == s.metaNonces
  {
    match AccrueUser(s, p.sender, now, p.amount)
    case Err(e) => Err(e)
    case Ok((t, volume)) =>
      if Balance(t.balances, p.token, p.sender) < p.amount then Err(InsufficientBalance)
      else Pay(t, router, fees.treasury, p, DirectFee(p.amount, EffectiveBps(fees.bps, volume), fees.cap), a)
  }

  function PaymentError(c: Config, p: Payment, a: Answers): Option<Error> {
    if RecipientError(c, p.sender, p.recipient).Some? then RecipientError(c, p.sender, p.recipient)
    else if AmountError(c, p.amount).Some? then AmountError(c, p.amount)
    else KycError(c, p.amount, a.kycVerified)
  }

  function OpenError(c: Config): Option<Error> {
    if c.frozen then Some(ContractFrozen)
    else if c.pauseLevel == FullHalt then Some(Paused)
    else None
  }

  function RoutePayment(s: State, router: Address, now: U64, p: Payment, a: Answers)
    : (r: Result<State, Error>)
    ensures r.Ok? ==> r.value.metaNonces == s.metaNonces
  {
    if OpenError(s.config).Some? then Err(OpenError(s.config).value)
    else if PaymentError(s.config, p, a).Some? then Err(PaymentError(s.config, p, a).value)
    else if !Approved(router, p.sender, a.signed) then Err(Trapped)
    else if !a.withinRate then Err(RateLimited)
    else if s.config.fees == None then Err(NotInitialized)
    else Process(s, router, now, s.config.fees.value, p, a)
  }

  // ---------- batches ----------

  type Item = (Payment, Answers)

  /** Checks the items from the `i`-th on. A sender approves a batch once, at its first item. */
  function BatchError(c: Config, router: Address, items: seq<Item>, i: nat, seen: set<Address>): Option<Error>
    decreases |items| - i
  {
    if i >= |items| then None
    else
      var (p, a) := items[i];
      if PaymentError(c, p, a).Some? then PaymentError(c, p, a)
      else if !a.withinRate then Some(RateLimited)
      else if p.sender !in seen && !Approved(router, p.sender, a.signed) then Some(Trapped)
      else BatchError(c, router, items, i + 1, seen + {p.sender})
  }

  function ProcessAll(s: State, router: Address, now: U64, fees: FeeConfig, items: seq<Item>, i: nat)
    : (r: Result<State, Error>)
    ensures r.Ok? ==> r.value.metaNonces == s.metaNonces
    decreases |items| - i
  {
    if i >= |items| then Ok(s)
    else
      match Process(s, router, now, fees, items[i].0, items[i].1)
      case Err(e) => Err(e)
      case Ok(t) => ProcessAll(t, router, now, fees, items, i + 1)
  }

  function RoutePayments(s: State, router: Address, now: U64, items: seq<Item>)
    : (r: Result<State, Error>)
    ensures r.Ok? ==> r.value.metaNonces == s.metaNonces
  {
    if OpenError(s.config).Some? then Err(OpenError(s.config).value)
    else if BatchError(s.config, router, items, 0, {}).Some? then Err(BatchError(s.config, router, items, 0, {}).value)
    else if s.config.fees == None then Err(NotInitialized)
    else ProcessAll(s, router, now, s.config.fees.value, items, 0)
  }

  // ---------- relayed payments ----------

  function MetaNonceOf(s: State, user: Address): U64 {
    if user in s.metaNonces then s.metaNonces[user] else 0
  }

  /** What the token says the router may take. The router gives allowances to nobody. */
  function AllowanceOf(router: Address, owner: Address, reported: int): int {
    if owner == router then 0 else reported
  }

  function ProcessOnAllowance(s: State, router: Address, now: U64, fees: FeeConfig, p: Payment, a: Answers)
    : (r: Result<State, Error>)
    ensures r.Ok? ==> r.value.metaNonces == s.metaNonces
  {
    if PaymentError(s.config, p, a).Some? then Err(PaymentError(s.config, p, a).value)
    else
      match AccrueUser(s, p.sender, now, p.amount)
      case Err(e) => Err(e)
      case Ok((t, volume)) =>
        if Balance(t.balances, p.token, p.sender) < p.amount then Err(InsufficientBalance)
        else if AllowanceOf(router, p.sender, a.allowance) < p.amount then Err(InsufficientBalance)
        else Pay(t, router, fees.treasury, p, MetaFee(p.amount, EffectiveBps(fees.bps, volume), fees.cap), a)
  }

  function RoutePaymentMeta(
      s: State, router: Address, now: U64, p: Payment, nonce: U64, deadline: U64, signatureValid: bool, a: Answers)
    : Result<State, Error>
  {
    if OpenError(s.config).Some? then Err(OpenError(s.config).value)
    else if s.config.fees == None then Err(NotInitialized)
    else if now > deadline then Err(DeadlineExpired)
    else if MetaNonceOf(s, p.sender) != nonce then Err(InvalidNonce)
    else if !signatureValid then Err(Trapped)
    else if nonce + 1 >= UserRecord.U64_LIMIT then Err(Trapped)
    else
      ProcessOnAllowance(s.(metaNonces := s.metaNonces[p.sender := nonce + 1]), router, now, s.config.fees.value, p, a)
  }

  // ---------- refunds ----------

  function WithdrawRefund(
      s: State, router: Address, user: Address, token: Token, amount: I128, signed: bool, moves: bool)
    : (r: Result<State, Error>)
    ensures r.Ok? ==> r.value.metaNonces == s.metaNonces
  {
    if !Approved(router, user, signed) then Err(Trapped)
    else if amount <= 0 || amount > RefundOf(s.refunds, user, token) then Err(NoRefundAvailable)
    else
      match Transfer(s.balances, token, router, user, amount, moves)
      case None => Err(Trapped)
      case Some(b) => Ok(s.(balances := b, refunds := Debit(s.refunds, user, token, amount)))
  }

  function ClaimAllRefunds(s: State, router: Address, user: Address, token: Token, signed: bool, moves: bool)
    : (r: Result<(State, int), Error>)
    ensures r.Ok? ==> r.value.0.metaNonces == s.metaNonces
  {
    var balance := RefundOf(s.refunds, user, token);
    if !Approved(router, user, signed) then Err(Trapped)
    else if balance <= 0 then Err(NoRefundAvailable)
    else if !InI128(balance) then Err(Trapped)
    else
      match WithdrawRefund(s, router, user, token, balance, signed, moves)
      case Err(e) => Err(e)
      case Ok(t) => Ok((t, balance))
  }

  // ---------- what payments conserve ----------

  /** Money leaves the sender's account only; what stays with the router is owed. */
  lemma PayConserves(s: State, router: Address, treasury: Address, p: Payment, fee: int, a: Answers)
    requires p.sender != router && Pay(s, router, treasury, p, fee, a).Ok?
    ensures var t := Pay(s, router, treasury, p, fee, a).value;
            && Conserved(router, s, t, p.sender, p.token)
            && t.records == s.records && t.metaNonces == s.metaNonces && t.config == s.config
  {
    var remainder := p.amount - fee;
    var b := TransferIfPositive(s.balances, p.token, p.sender, treasury, fee, a.feeMoves).value;
    if fee > 0 {
      SpendKeeps(router, s.balances, p.token, p.sender, treasury, fee, a.feeMoves);
    }
    assert Gained(router, s.balances, b, p.token, 0);
    if remainder > 0 {
      if Transfer(b, p.token, p.sender, p.recipient, remainder, a.delivers).Some? {
        SpendKeeps(router, b, p.token, p.sender, p.recipient, remainder, a.delivers);
        var c := Transfer(b, p.token, p.sender, p.recipient, remainder, a.delivers).value;
        GainedChain(router, s.balances, b, c, p.token, 0, 0);
      } else {
        PullGains(router, b, p.token, p.sender, remainder, a.holds);
        var c := Transfer(b, p.token, p.sender, router, remainder, a.holds).value;
        GainedChain(router, s.balances, b, c, p.token, 0, remainder);
      }
    }
  }

  /** A transfer between other accounts, or to the router, takes nothing from the router. */
  lemma SpendKeeps(router: Address, b: Balances, token: Token, from: Address, to: Address, amount: int, accepted: bool)
    requires from != router && Transfer(b, token, from, to, amount, accepted).Some?
    ensures Gained(router, b, Transfer(b, token, from, to, amount, accepted).value, token, 0)
  {
    forall t ensures Balance(Move(b, token, from, to, amount), t, router) >= Balance(b, t, router) {
      MoveBalance(b, token, from, to, amount, t, router);
    }
  }

  /** Where the sender's money goes: the fee to the treasury and the remainder to the
      recipient; or, if the token refuses the recipient, to the router as a refund. */
  lemma PayReaches(s: State, router: Address, treasury: Address, p: Payment, fee: nat, a: Answers)
    requires fee <= p.amount <= Balance(s.balances, p.token, p.sender) && Pay(s, router, treasury, p, fee, a).Ok?
    ensures var t := Pay(s, router, treasury, p, fee, a).value;
            var remainder := p.amount - fee;
            if a.delivers || remainder == 0
            then t.refunds == s.refunds
                 && PaidBoth(s.balances, t.balances, p.token, p.sender, treasury, fee, p.recipient, remainder)
            else RefundOf(t.refunds, p.sender, p.token) == RefundOf(s.refunds, p.sender, p.token) + remainder
                 && PaidBoth(s.balances, t.balances, p.token, p.sender, treasury, fee, router, remainder)
  {
    hide Pay, PaidBoth, Move, Transfer;
    var remainder := p.amount - fee;
    PayShape(s, router, treasury, p, fee, a);
    if a.delivers || remainder == 0 {
      TwoTransfers(s.balances, p.token, p.sender, treasury, fee, p.recipient, remainder);
    } else {
      TwoTransfers(s.balances, p.token, p.sender, treasury, fee, router, remainder);
    }
  }

  lemma PayShape(s: State, router: Address, treasury: Address, p: Payment, fee: nat, a: Answers)
    requires fee <= p.amount <= Balance(s.balances, p.token, p.sender) && Pay(s, router, treasury, p, fee, a).Ok?
    ensures var t := Pay(s, router, treasury, p, fee, a).value;
            var remainder := p.amount - fee;
            var delivered := a.delivers || remainder == 0;
            var b := if fee > 0 then Move(s.balances, p.token, p.sender, treasury, fee) else s.balances;
            && t.balances == (if remainder == 0 then b
                              else Move(b, p.token, p.sender, if delivered then p.recipient else router, remainder))
            && (delivered ==> t.refunds == s.refunds)
            && (!delivered ==>
                  RefundOf(t.refunds, p.sender, p.token) == RefundOf(s.refunds, p.sender, p.token) + remainder)
  {
    MoveBalance(s.balances, p.token, p.sender, treasury, fee, p.token, p.sender);
  }

  /** A payment takes exactly its amount from the sender and splits it into fee and remainder
      at the rate for the volume before the payment. */
  lemma PaymentReaches(s: State, router: Address, now: U64, p: Payment, a: Answers)
    requires FeesNotNegative(s.config)
    ensures match RoutePayment(s, router, now, p, a)
            case Err(_) => true
            case Ok(t) =>
              var fees := s.config.fees.value;
              var volume := AccrueUser(s, p.sender, now, p.amount).value.1;
              var fee := DirectFee(p.amount, EffectiveBps(fees.bps, volume), fees.cap);
              var delivered := a.delivers || fee == p.amount;
              var receiver := if delivered then p.recipient else router;
              && 0 <= fee <= p.amount
              && PaidBoth(s.balances, t.balances, p.token, p.sender, fees.treasury, fee, receiver, p.amount - fee)
              && RefundOf(t.refunds, p.sender, p.token) ==
                 RefundOf(s.refunds, p.sender, p.token) + if delivered then 0 else p.amount - fee
  {
    hide AccrueUser, DirectFee, Pay, PaidBoth;
    if RoutePayment(s, router, now, p, a).Ok? {
      var fees := s.config.fees.value;
      var (u, volume) := AccrueUser(s, p.sender, now, p.amount).value;
      EffectiveBpsRange(fees.bps, volume);
      FeesArePartOfAmount(p.amount, EffectiveBps(fees.bps, volume), fees.cap);
      PayReaches(u, router, fees.treasury, p, DirectFee(p.amount, EffectiveBps(fees.bps, volume), fees.cap), a);
    }
  }

  lemma ProcessConserves(s: State, router: Address, now: U64, fees: FeeConfig, p: Payment, a: Answers)
    requires p.sender != router && Process(s, router, now, fees, p, a).Ok?
    ensures var t := Process(s, router, now, fees, p, a).value;
            Conserved(router, s, t, p.sender, p.token) && t.config == s.config
  {
    var (t, volume) := AccrueUser(s, p.sender, now, p.amount).value;
    PayConserves(t, router, fees.treasury, p, DirectFee(p.amount, EffectiveBps(fees.bps, volume), fees.cap), a);
  }

  lemma MetaConserves(
      s: State, router: Address, now: U64, p: Payment, nonce: U64, deadline: U64, signatureValid: bool, a: Answers)
    requires RoutePaymentMeta(s, router, now, p, nonce, deadline, signatureValid, a).Ok?
    ensures var t := RoutePaymentMeta(s, router, now, p, nonce, deadline, signatureValid, a).value;
            Conserved(router, s, t, p.sender, p.token) && t.config == s.config
  {
    var u := s.(metaNonces := s.metaNonces[p.sender := nonce + 1]);
    var (t, volume) := AccrueUser(u, p.sender, now, p.amount).value;
    var fees := s.config.fees.value;
    PayConserves(t, router, fees.treasury, p, MetaFee(p.amount, EffectiveBps(fees.bps, volume), fees.cap), a);
  }

  /** The router is never the sender of a batch item that passed the checks. */
  lemma {:induction false} BatchSendersAreOthers(
      c: Config, router: Address, items: seq<Item>, i: nat, seen: set<Address>)
    requires BatchError(c, router, items, i, seen) == None && router !in seen
    ensures forall k :: i <= k < |items| ==> items[k].0.sender != router
    decreases |items| - i
  {
    if i < |items| {
      BatchSendersAreOthers(c, router, items, i + 1, seen + {items[i].0.sender});
    }
  }

  lemma {:induction false} ProcessAllKeepsSurplus(
      s: State, router: Address, now: U64, fees: FeeConfig, items: seq<Item>, i: nat)
    requires ProcessAll(s, router, now, fees, items, i).Ok? && AllPositive(s.refunds)
    requires forall k :: i <= k < |items| ==> items[k].0.sender != router
    ensures var t := ProcessAll(s, router, now, fees, items, i).value;
            SurplusKept(s, t, router) && AllPositive(t.refunds) && t.config == s.config
    decreases |items| - i
  {
    if i < |items| {
      var t := Process(s, router, now, fees, items[i].0, items[i].1).value;
      ProcessConserves(s, router, now, fees, items[i].0, items[i].1);
      ConservedKeepsSurplus(router, s, t, items[i].0.sender, items[i].0.token);
      ProcessAllKeepsSurplus(t, router, now, fees, items, i + 1);
      SurplusChain(s, t, ProcessAll(s, router, now, fees, items, i).value, router);
    }
  }

  lemma WithdrawKeepsSurplus(
      s: State, router: Address, user: Address, token: Token, amount: I128, signed: bool, moves: bool)
    requires WithdrawRefund(s, router, user, token, amount, signed, moves).Ok? && AllPositive(s.refunds)
    ensures var t := WithdrawRefund(s, router, user, token, amount, signed, moves).value;
            SurplusKept(s, t, router) && AllPositive(t.refunds)
  {
    var t := WithdrawRefund(s, router, user, token, amount, signed, moves).value;
    forall k ensures Surplus(t, router, k) >= Surplus(s, router, k) {
      OwedAfterDebit(s.refunds, user, token, amount, k);
      MoveBalance(s.balances, token, router, user, amount, k, router);
    }
  }

  /** What solvency is for: whoever is owed a refund gets any part of it paid, in full, by a
      token that accepts the transfer. */
  lemma RefundsAreWithdrawable(s: State, router: Address, user: Address, token: Token, amount: I128)
    requires Solvent(s, router) && user != router
    ensures WithdrawRefund(s, router, user, token, amount, true, true).Ok? <==>
            0 < amount <= RefundOf(s.refunds, user, token)
    ensures WithdrawRefund(s, router, user, token, amount, true, true).Ok? ==>
            var t := WithdrawRefund(s, router, user, token, amount, true, true).value;
            && Balance(t.balances, token, user) == Balance(s.balances, token, user) + amount
            && RefundOf(t.refunds, user, token) == RefundOf(s.refunds, user, token) - amount
  {
    OwedCoversEach(s.refunds, user, token);
    assert Surplus(s, router, token) >= 0;
    MoveBalance(s.balances, token, router, user, amount, token, user);
  }

  /** A claim pays the whole refund and leaves none, so that claiming again fails. */
  lemma ClaimPaysEverything(s: State, router: Address, user: Address, token: Token)
    requires Solvent(s, router) && user != router && 0 < RefundOf(s.refunds, user, token) < I128_HALF
    ensures ClaimAllRefunds(s, router, user, token, true, true).Ok?
    ensures var (t, paid) := ClaimAllRefunds(s, router, user, token, true, true).value;
            && paid == RefundOf(s.refunds, user, token)
            && Balance(t.balances, token, user) == Balance(s.balances, token, user) + paid
            && RefundOf(t.refunds, user, token) == 0
            && ClaimAllRefunds(t, router, user, token, true, true) == Err(NoRefundAvailable)
  {
    RefundsAreWithdrawable(s, router, user, token, RefundOf(s.refunds, user, token));
  }
}
