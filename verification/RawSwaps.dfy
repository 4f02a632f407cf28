/** Swap payments through an adapter that the caller names: its report of unused input is
    taken at its word. */
module RawSwaps {
  import opened ByteOrder
  import opened DirectPayments
  import opened Fees
  import opened RefundLedger
  import opened RouterCore
  import opened TokenLedger
  import opened Wrappers
  import UserRecord

  datatype RawPayment = RawPayment(
    sender: Address, recipient: Address, adapter: Address, tokenIn: Token, tokenOut: Token, amountIn: I128,
    path: seq<Token>, minAmountOut: I128)

  /** The adapter fails, or it leaves the ledgers like this and reports some amounts. */
  datatype RawReply = RawFails | RawReturns(after: Balances, amounts: seq<I128>)

  datatype RawAnswers = RawAnswers(
    signed: bool, kycVerified: bool, handsOver: bool, adapter: RawReply, returnsUnused: bool, payment: Answers)

  function RawPathError(p: RawPayment): Option<Error> {
    if p.path == [] || p.path[0] != p.tokenIn || p.path[|p.path| - 1] != p.tokenOut then Some(InvalidSwapPath)
    else if p.minAmountOut <= 0 then Some(InvalidSwapParams)
    else None
  }

  function RawError(c: Config, router: Address, p: RawPayment, a: RawAnswers): (e: Option<Error>)
    ensures e == None ==> c.fees.Some? && p.sender != router
  {
    if OpenError(c).Some? then OpenError(c)
    else if RecipientError(c, p.sender, p.recipient).Some? then RecipientError(c, p.sender, p.recipient)
    else if RawPathError(p).Some? then RawPathError(p)
    else if AmountError(c, p.amountIn).Some? then AmountError(c, p.amountIn)
    else if KycError(c, p.amountIn, a.kycVerified).Some? then KycError(c, p.amountIn, a.kycVerified)
    else if !Approved(router, p.sender, a.signed) then Some(Trapped)
    else if c.fees == None then Some(NotInitialized)
    else None
  }

  /** Hands the input to the adapter, lets it swap, and gives the sender the unused input that
      it reports: the ledgers then, and the output that it reports. */
  function RawIn(b: Balances, router: Address, p: RawPayment, a: RawAnswers): Result<(Balances, I128), Error> {
    match Transfer(b, p.tokenIn, p.sender, p.adapter, p.amountIn, a.handsOver)
    case None => Err(Trapped)
    case Some(c) =>
      if a.adapter.RawFails? || !Carried(router, p.adapter, c, a.adapter.after) then Err(Trapped)
      else if |a.adapter.amounts| != 2 then Err(InvalidSwapPath)
      else
        var received, unused := a.adapter.amounts[0], a.adapter.amounts[1];
        if received < p.minAmountOut || received <= 0 || unused < 0 then Err(SlippageExceeded)
        else
          match TransferIfPositive(a.adapter.after, p.tokenIn, router, p.sender, unused, a.returnsUnused)
          case None => Err(Trapped)
          case Some(d) => Ok((d, received))
  }

  /** The reported output is then paid from the sender to the recipient. */
  function RouteRaw(s: State, router: Address, now: U64, p: RawPayment, a: RawAnswers): (r: Result<State, Error>)
    ensures r.Ok? ==> r.value.metaNonces == s.metaNonces
  {
    if RawError(s.config, router, p, a).Some? then Err(RawError(s.config, router, p, a).value)
    else
      match RawIn(s.balances, router, p, a)
      case Err(e) => Err(e)
      case Ok((b, received)) =>
        Process(s.(balances := b), router, now, s.config.fees.value,
                Payment(p.sender, p.recipient, p.tokenOut, received), a.payment)
  }

  /** The unused input that the adapter reports is at most what it left with the router. */
  predicate IsBacked(b: Balances, router: Address, p: RawPayment, a: RawAnswers) {
    a.adapter.RawReturns? && |a.adapter.amounts| == 2 ==>
      a.adapter.amounts[1] <= Balance(a.adapter.after, p.tokenIn, router) - Balance(b, p.tokenIn, router)
  }

  /** Up to the payment the router loses in the input token what was reported and gains what
      was left with it; it loses nothing else. */
  lemma RawInTrades(b: Balances, router: Address, p: RawPayment, a: RawAnswers)
    requires p.sender != router && RawIn(b, router, p, a).Ok?
    ensures var c := RawIn(b, router, p, a).value.0;
            && a.adapter.RawReturns? && |a.adapter.amounts| == 2
            && Balance(c, p.tokenIn, router) ==
               Balance(a.adapter.after, p.tokenIn, router) - a.adapter.amounts[1]
            && forall t :: t != p.tokenIn ==> Balance(c, t, router) >= Balance(b, t, router)
  {
    var handed := Transfer(b, p.tokenIn, p.sender, p.adapter, p.amountIn, a.handsOver).value;
    var after, c := a.adapter.after, RawIn(b, router, p, a).value.0;
    CarriedKeepsBalance(router, p.adapter, handed, after);
    MoveBalance(after, p.tokenIn, router, p.sender, a.adapter.amounts[1], p.tokenIn, router);
    forall t | t != p.tokenIn ensures Balance(c, t, router) >= Balance(b, t, router) {
      MoveBalance(b, p.tokenIn, p.sender, p.adapter, p.amountIn, t, router);
      MoveBalance(after, p.tokenIn, router, p.sender, a.adapter.amounts[1], t, router);
      assert Gained(router, handed, after, t, 0);
    }
  }

  /** A payment leaves the surplus as it is in every token but its own, and in that one too
      unless the router is paid by it. */
  lemma PaySurplus(s: State, router: Address, treasury: Address, p: Payment, fee: int, a: Answers, token: Token)
    requires p.sender != router && Pay(s, router, treasury, p, fee, a).Ok?
    requires token != p.token || (treasury != router && p.recipient != router)
    ensures Surplus(Pay(s, router, treasury, p, fee, a).value, router, token) == Surplus(s, router, token)
  {
    var remainder := p.amount - fee;
    var b := TransferIfPositive(s.balances, p.token, p.sender, treasury, fee, a.feeMoves).value;
    MoveBalance(s.balances, p.token, p.sender, treasury, fee, token, router);
    if remainder > 0 {
      if Transfer(b, p.token, p.sender, p.recipient, remainder, a.delivers).Some? {
        MoveBalance(b, p.token, p.sender, p.recipient, remainder, token, router);
      } else {
        MoveBalance(b, p.token, p.sender, router, remainder, token, router);
        OwedAfterSet(s.refunds, p.sender, p.token, RefundOf(s.refunds, p.sender, p.token) + remainder, token);
      }
    }
  }

  lemma ProcessSurplus(s: State, router: Address, now: U64, fees: FeeConfig, p: Payment, a: Answers, token: Token)
    requires p.sender != router && Process(s, router, now, fees, p, a).Ok?
    requires token != p.token || (fees.treasury != router && p.recipient != router)
    ensures Surplus(Process(s, router, now, fees, p, a).value, router, token) == Surplus(s, router, token)
  {
    hide Pay, AccrueUser, DirectFee;
    var (t, volume) := AccrueUser(s, p.sender, now, p.amount).value;
    PaySurplus(t, router, fees.treasury, p, DirectFee(p.amount, EffectiveBps(fees.bps, volume), fees.cap), a,
               token);
  }

  lemma RawInSurplus(s: State, router: Address, p: RawPayment, a: RawAnswers)
    requires p.sender != router && RawIn(s.balances, router, p, a).Ok?
    ensures var t := s.(balances := RawIn(s.balances, router, p, a).value.0);
            && (forall token :: token != p.tokenIn ==> Surplus(t, router, token) >= Surplus(s, router, token))
            && (Surplus(t, router, p.tokenIn) >= Surplus(s, router, p.tokenIn) <==>
                IsBacked(s.balances, router, p, a))
  {
    hide RawIn;
    RawInTrades(s.balances, router, p, a);
  }

  /** If the adapter's report is backed, the surplus does not fall in any token. */
  lemma BackedRawKeepsSurplus(s: State, router: Address, now: U64, p: RawPayment, a: RawAnswers)
    requires RouteRaw(s, router, now, p, a).Ok? && AllPositive(s.refunds) && IsBacked(s.balances, router, p, a)
    ensures var t := RouteRaw(s, router, now, p, a).value;
            SurplusKept(s, t, router) && AllPositive(t.refunds) && t.config == s.config
  {
    hide RawIn, Process, IsBacked, Surplus;
    var (b, received) := RawIn(s.balances, router, p, a).value;
    var u, t := s.(balances := b), RouteRaw(s, router, now, p, a).value;
    RawInSurplus(s, router, p, a);
    var payment := Payment(p.sender, p.recipient, p.tokenOut, received);
    ProcessConserves(u, router, now, s.config.fees.value, payment, a.payment);
    ConservedKeepsSurplus(router, u, t, p.sender, p.tokenOut);
    SurplusChain(s, u, t, router);
  }

  /** And only then, where the router is not itself paid in the input token. */
  lemma RawKeepsSurplusExactly(s: State, router: Address, now: U64, p: RawPayment, a: RawAnswers)
    requires RouteRaw(s, router, now, p, a).Ok? && AllPositive(s.refunds)
    requires p.tokenIn != p.tokenOut || (s.config.fees.value.treasury != router && p.recipient != router)
    ensures SurplusKept(s, RouteRaw(s, router, now, p, a).value, router) <==> IsBacked(s.balances, router, p, a)
  {
    hide RawIn, Process, IsBacked, Surplus;
    var (b, received) := RawIn(s.balances, router, p, a).value;
    RawInSurplus(s, router, p, a);
    if IsBacked(s.balances, router, p, a) {
      BackedRawKeepsSurplus(s, router, now, p, a);
    }
    ProcessSurplus(s.(balances := b), router, now, s.config.fees.value,
                   Payment(p.sender, p.recipient, p.tokenOut, received), a.payment, p.tokenIn);
  }

  /** The same outcome under another configuration. */
  ghost predicate SameUnder(r: Result<State, Error>, other: Result<State, Error>, config: Config) {
    match r
    case Err(e) => other == Err(e)
    case Ok(t) => other == Ok(t.(config := config))
  }

  lemma PayIgnoresConfig(
      s: State, router: Address, treasury: Address, p: Payment, fee: int, a: Answers, config: Config)
    ensures SameUnder(Pay(s, router, treasury, p, fee, a),
                      Pay(s.(config := config), router, treasury, p, fee, a), config)
  {
    hide Transfer, Credit;
  }

  lemma ProcessIgnoresConfig(
      s: State, router: Address, now: U64, fees: FeeConfig, p: Payment, a: Answers, config: Config)
    ensures SameUnder(Process(s, router, now, fees, p, a),
                      Process(s.(config := config), router, now, fees, p, a), config)
  {
    hide Pay, DirectFee, UserRecord.Accrue;
    match AccrueUser(s, p.sender, now, p.amount) {
      case Err(_) =>
      case Ok((t, volume)) =>
        assert AccrueUser(s.(config := config), p.sender, now, p.amount) == Ok((t.(config := config), volume));
        PayIgnoresConfig(t, router, fees.treasury, p,
                         DirectFee(p.amount, EffectiveBps(fees.bps, volume), fees.cap), a, config);
    }
  }

  /** A swap pause does not stop these swaps either: they do what they do without a pause. */
  lemma SwapPauseSparesRaw(s: State, router: Address, now: U64, p: RawPayment, a: RawAnswers)
    requires s.config.pauseLevel == SwapsOnly
    ensures var unpaused := s.config.(pauseLevel := Unpaused);
            SameUnder(RouteRaw(s, router, now, p, a), RouteRaw(s.(config := unpaused), router, now, p, a), unpaused)
  {
    hide RawIn, Process;
    if RawError(s.config, router, p, a) == None && RawIn(s.balances, router, p, a).Ok? {
      var (b, received) := RawIn(s.balances, router, p, a).value;
      ProcessIgnoresConfig(s.(balances := b), router, now, s.config.fees.value,
                           Payment(p.sender, p.recipient, p.tokenOut, received), a.payment,
                           s.config.(pauseLevel := Unpaused));
    }
  }
}
