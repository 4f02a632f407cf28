/** Every error of the router's payment operations tells the truth about the call. */
module PaymentErrors {
  import opened ByteOrder
  import opened DirectPayments
  import opened Fees
  import opened PaymentLaws
  import opened RefundLedger
  import opened RouterCore
  import opened SwapPayments
  import opened TokenLedger
  import opened Wrappers
  import RawSwaps
  import UserRecord

  /** What an error says about who pays whom how much. */
  predicate Misplaced(c: Config, sender: Address, recipient: Address, amount: int, e: Error) {
    match e
    case InvalidRecipient => sender == recipient
    case Blacklisted => recipient in c.blacklist
    case LimitExceeded => amount <= 0 || amount > c.maxAmount || amount < c.minLimit
    case _ => false
  }

  lemma ChecksAreTrue(c: Config, sender: Address, recipient: Address, amount: I128, verified: bool)
    ensures RecipientError(c, sender, recipient).Some? ==>
              Misplaced(c, sender, recipient, amount, RecipientError(c, sender, recipient).value)
    ensures AmountError(c, amount).Some? ==> Misplaced(c, sender, recipient, amount, AmountError(c, amount).value)
    ensures KycError(c, amount, verified).Some? ==>
              KycError(c, amount, verified) == Some(KycRequired) && !Vouched(c, amount, verified)
  {
  }

  lemma BookingIsTrue(s: State, sender: Address, now: U64, amount: I128)
    ensures match AccrueUser(s, sender, now, amount)
            case Ok(_) => Booked(s, now, sender, amount).Ok?
            case Err(e) =>
              || (e == LimitExceeded && Booked(s, now, sender, amount) == Err(UserRecord.LimitExceeded))
              || (e == Trapped && Booked(s, now, sender, amount) == Err(UserRecord.ClockTrap))
  {
    hide UserRecord.Accrue;
  }

  /** A booking is refused for its size exactly if the day's total with it is above the limit,
      and traps exactly if the clock stands before the window. */
  lemma BookingErrorsAreTrue(e: UserRecord.Entries, now: U64, amount: I128)
    requires amount > 0 && UserRecord.Load(e, now).accumulated >= 0
    ensures var v := UserRecord.Load(e, now);
            match UserRecord.Accrue(e, now, amount)
            case Ok(_) => true
            case Err(ClockTrap) => now < v.lastResetTime
            case Err(LimitExceeded) =>
              now >= v.lastResetTime &&
              (if now < v.lastResetTime + 86_400 then v.accumulated else 0) + amount > 10_000_000_000_000
  {
    hide UserRecord.Load;
  }

  /** What can keep the token from carrying a payment out. */
  predicate PayFails(s: State, p: Payment, a: Answers, e: Error) {
    match e
    case LimitExceeded => !a.feeMoves || (!a.delivers && !a.holds)
    case Trapped => !a.delivers && RefundOf(s.refunds, p.sender, p.token) + p.amount >= I128_HALF
    case _ => false
  }

  lemma PayErrorsAreTrue(s: State, router: Address, treasury: Address, p: Payment, fee: nat, a: Answers)
    requires fee <= p.amount <= Balance(s.balances, p.token, p.sender) && AllPositive(s.refunds)
    ensures Pay(s, router, treasury, p, fee, a).Err? ==> PayFails(s, p, a, Pay(s, router, treasury, p, fee, a).error)
  {
    MoveBalance(s.balances, p.token, p.sender, treasury, fee, p.token, p.sender);
    RefundNotNegative(s.refunds, p.sender, p.token);
    hide Move, Balance, RefundOf;
  }

  predicate ProcessFails(s: State, now: U64, p: Payment, a: Answers, e: Error) {
    || (e == LimitExceeded && Booked(s, now, p.sender, p.amount) == Err(UserRecord.LimitExceeded))
    || (e == Trapped && Booked(s, now, p.sender, p.amount) == Err(UserRecord.ClockTrap))
    || (e == InsufficientBalance && Balance(s.balances, p.token, p.sender) < p.amount)
    || PayFails(s, p, a, e)
  }

  lemma ProcessErrorsAreTrue(s: State, router: Address, now: U64, fees: FeeConfig, p: Payment, a: Answers)
    requires fees.bps >= 0 && fees.cap >= 0 && AllPositive(s.refunds) && p.amount > 0
    ensures match Process(s, router, now, fees, p, a)
            case Ok(_) => true
            case Err(e) => ProcessFails(s, now, p, a, e)
  {
    hide Pay, UserRecord.Accrue, DirectFee, PayFails;
    BookingIsTrue(s, p.sender, now, p.amount);
    if AccrueUser(s, p.sender, now, p.amount).Ok? && Balance(s.balances, p.token, p.sender) >= p.amount {
      var (t, volume) := AccrueUser(s, p.sender, now, p.amount).value;
      var rate := EffectiveBps(fees.bps, volume);
      EffectiveBpsRange(fees.bps, volume);
      FeesArePartOfAmount(p.amount, rate, fees.cap);
      PayErrorsAreTrue(t, router, fees.treasury, p, DirectFee(p.amount, rate, fees.cap), a);
      SamePayFails(s, t, p, a);
    }
  }

  lemma SamePayFails(s: State, t: State, p: Payment, a: Answers)
    requires s.refunds == t.refunds
    ensures forall e :: PayFails(t, p, a, e) ==> PayFails(s, p, a, e)
  {
  }

  /** The errors of direct payments. */
  lemma PaymentErrorsAreTrue(s: State, router: Address, now: U64, p: Payment, a: Answers)
    requires FeesNotNegative(s.config) && AllPositive(s.refunds) && RoutePayment(s, router, now, p, a).Err?
    ensures var c, e := s.config, RoutePayment(s, router, now, p, a).error;
            || (e == ContractFrozen && c.frozen)
            || (e == Paused && c.pauseLevel == FullHalt)
            || (e == NotInitialized && c.fees == None)
            || Misplaced(c, p.sender, p.recipient, p.amount, e)
            || (e == KycRequired && !Vouched(c, p.amount, a.kycVerified))
            || (e == RateLimited && !a.withinRate)
            || (e == Trapped && (!a.signed || p.sender == router))
            || ProcessFails(s, now, p, a, e)
  {
    hide Process, ProcessFails;
    ChecksAreTrue(s.config, p.sender, p.recipient, p.amount, a.kycVerified);
    if p.amount > 0 && s.config.fees.Some? {
      ProcessErrorsAreTrue(s, router, now, s.config.fees.value, p, a);
    }
  }

  /** The errors of relayed payments. */
  lemma MetaErrorsAreTrue(
      s: State, router: Address, now: U64, p: Payment, nonce: U64, deadline: U64, signatureValid: bool, a: Answers)
    requires FeesNotNegative(s.config) && AllPositive(s.refunds)
    requires RoutePaymentMeta(s, router, now, p, nonce, deadline, signatureValid, a).Err?
    ensures var c, e := s.config, RoutePaymentMeta(s, router, now, p, nonce, deadline, signatureValid, a).error;
            || (e == ContractFrozen && c.frozen)
            || (e == Paused && c.pauseLevel == FullHalt)
            || (e == NotInitialized && c.fees == None)
            || (e == DeadlineExpired && now > deadline)
            || (e == InvalidNonce && nonce != MetaNonceOf(s, p.sender))
            || (e == Trapped && (!signatureValid || nonce == 0xFFFF_FFFF_FFFF_FFFF))
            || Misplaced(c, p.sender, p.recipient, p.amount, e)
            || (e == KycRequired && !Vouched(c, p.amount, a.kycVerified))
            || (e == InsufficientBalance && (p.sender == router || a.allowance < p.amount))
            || ProcessFails(s, now, p, a, e)
  {
    hide Pay, UserRecord.Accrue, MetaFee, PayFails, Misplaced;
    ChecksAreTrue(s.config, p.sender, p.recipient, p.amount, a.kycVerified);
    if p.amount > 0 && s.config.fees.Some? && nonce < 0xFFFF_FFFF_FFFF_FFFF {
      var fees := s.config.fees.value;
      var u := s.(metaNonces := s.metaNonces[p.sender := nonce + 1]);
      BookingIsTrue(u, p.sender, now, p.amount);
      if AccrueUser(u, p.sender, now, p.amount).Ok? && Balance(s.balances, p.token, p.sender) >= p.amount {
        var (t, volume) := AccrueUser(u, p.sender, now, p.amount).value;
        var rate := EffectiveBps(fees.bps, volume);
        EffectiveBpsRange(fees.bps, volume);
        FeesArePartOfAmount(p.amount, rate, fees.cap);
        PayErrorsAreTrue(t, router, fees.treasury, p, MetaFee(p.amount, rate, fees.cap), a);
        SamePayFails(s, t, p, a);
      }
    }
  }

  /** The errors of withdrawals. */
  lemma WithdrawalErrorsAreTrue(
      s: State, router: Address, user: Address, token: Token, amount: I128, signed: bool, moves: bool)
    requires DirectPayments.WithdrawRefund(s, router, user, token, amount, signed, moves).Err?
    ensures match DirectPayments.WithdrawRefund(s, router, user, token, amount, signed, moves).error
            case NoRefundAvailable => amount <= 0 || amount > RefundOf(s.refunds, user, token)
            case Trapped => !signed || user == router || !moves || amount > Balance(s.balances, token, router)
            case _ => false
  {
  }

  predicate DeliverFails(s: State, sender: Address, token: Token, out: int, rate: int, d: Delivery, e: Error) {
    e == Trapped &&
    (out * rate >= I128_HALF || out >= I128_HALF || !d.feeMoves
     || (!d.delivers && RefundOf(s.refunds, sender, token) + out >= I128_HALF))
  }

  lemma DeliverErrorsAreTrue(
      s: State, router: Address, sender: Address, recipient: Address, token: Token, out: nat, rate: nat,
      fees: FeeConfig, d: Delivery)
    requires Balance(s.balances, token, router) >= out && fees.cap >= 0 && AllPositive(s.refunds)
    requires Deliver(s, router, sender, recipient, token, out, rate, fees, d).Err?
    ensures DeliverFails(s, sender, token, out, rate, d,
                         Deliver(s, router, sender, recipient, token, out, rate, fees, d).error)
  {
    var _, fee := FeeIsUnique(0, 0, out, ProductOf(out, rate), fees.cap);
    DeliversExactly(s, router, sender, recipient, token, out, rate, fees, d, fee);
    FeeIsNat(fee, out, out * rate, fees.cap);
    hide CalculateFee, IsFee;
  }

  function ProductOf(out: nat, rate: nat): nat {
    ProductSign(out, rate);
    out * rate
  }

  /** The errors of the checks in front of a swap. */
  lemma SwapChecksAreTrue(c: Config, router: Address, now: U64, swap: SwapPayment, a: SwapAnswers)
    ensures match SwapError(c, router, now, swap, a)
            case None => true
            case Some(e) =>
              || (e == Trapped && (!a.signed || swap.sender == router))
              || (e == Paused && c.pauseLevel != Unpaused)
              || (e == InvalidSwapParams && (swap.sellToken == swap.buyToken || swap.minAmountOut <= 0))
              || (e == SwapDeadlineExpired && 0 < swap.deadline < now)
              || (e == DexNotRegistered && swap.dex !in c.dexes)
              || Misplaced(c, swap.sender, swap.recipient, swap.amountIn, e)
    ensures match SwapsOpenError(c)
            case None => true
            case Some(e) =>
              || (e == ContractFrozen && c.frozen)
              || (e == Paused && c.pauseLevel != Unpaused)
              || (e == NotInitialized && c.fees == None)
  {
  }

  /** The errors of the checks in front of a path payment. */
  lemma PathChecksAreTrue(c: Config, router: Address, p: MultihopPayment, a: MultihopAnswers)
    ensures match MultihopError(c, router, p, a)
            case None => true
            case Some(e) =>
              || (e == ContractFrozen && c.frozen)
              || (e == Paused && c.pauseLevel == FullHalt)
              || Misplaced(c, p.sender, p.recipient, p.amountIn, e)
              || (e == InvalidSwapPath && !(3 <= |p.path| <= 5 && |p.floors| == |p.path| - 1))
              || (e == CyclicSwapPath && exists i, j :: 0 <= i < j < |p.path| && p.path[i] == p.path[j])
              || (e == InvalidSwapParams && exists i :: 0 <= i < |p.floors| && p.floors[i] <= 0)
              || (e == DexNotRegistered && p.dex !in c.dexes)
              || (e == KycRequired && !Vouched(c, p.amountIn, a.kycVerified))
              || (e == Trapped && (!a.signed || p.sender == router))
              || (e == RateLimited && !a.withinRate)
              || (e == NotInitialized && c.fees == None)
  {
  }

  /** The errors of the checks in front of a raw swap. */
  lemma RawChecksAreTrue(c: Config, router: Address, p: RawSwaps.RawPayment, a: RawSwaps.RawAnswers)
    ensures match RawSwaps.RawError(c, router, p, a)
            case None => true
            case Some(e) =>
              || (e == ContractFrozen && c.frozen)
              || (e == Paused && c.pauseLevel == FullHalt)
              || Misplaced(c, p.sender, p.recipient, p.amountIn, e)
              || (e == InvalidSwapPath
                  && (p.path == [] || p.path[0] != p.tokenIn || p.path[|p.path| - 1] != p.tokenOut))
              || (e == InvalidSwapParams && p.minAmountOut <= 0)
              || (e == KycRequired && !Vouched(c, p.amountIn, a.kycVerified))
              || (e == Trapped && (!a.signed || p.sender == router))
              || (e == NotInitialized && c.fees == None)
  {
  }

  /** A sender without the funds is told so by every route, once the checks are passed and the
      payment is booked. */
  lemma ShortBalanceIsReported(
      s: State, router: Address, now: U64, fees: FeeConfig, swap: SwapPayment, a: SwapAnswers, p: SplitPayment,
      b: SplitAnswers, m: MultihopPayment, c: MultihopAnswers)
    ensures
      && SwapError(s.config, router, now, swap, a) == None && Booked(s, now, swap.sender, swap.amountIn).Ok?
      && Balance(s.balances, swap.sellToken, swap.sender) < swap.amountIn ==>
        SwapIn(s, router, now, fees, swap, a) == Err(InsufficientBalance)
    ensures
      && SplitError(s.config, router, p, b) == None && Booked(s, now, p.sender, p.amountIn).Ok?
      && Balance(s.balances, p.sellToken, p.sender) < p.amountIn ==>
        SplitIn(s, router, now, fees, p, b) == Err(InsufficientBalance)
    ensures
      && HopCountFits(m) && Booked(s, now, m.sender, m.amountIn).Ok?
      && Balance(s.balances, m.path[0], m.sender) < m.amountIn ==>
        MultihopIn(s, router, now, fees.bps, m, c) == Err(InsufficientBalance)
  {
    hide UserRecord.Accrue, SwapError, SplitError;
  }
}
