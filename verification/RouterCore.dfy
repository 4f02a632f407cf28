/** What the payment operations of the router share: its state, the checks in front of a
    payment, token transfers, calls to exchanges, and the delivery of a swap output. Answers
    of other contracts are inputs. */
module RouterCore {
  import opened ByteOrder
  import opened Fees
  import opened MapSum
  import opened RefundLedger
  import opened TokenLedger
  import opened Wrappers
  import UserRecord

  type I128 = UserRecord.I128
  type U64 = UserRecord.U64

  datatype Error =
    | ContractFrozen | Paused | InvalidRecipient | Blacklisted | LimitExceeded | KycRequired
    | RateLimited | NotInitialized | InsufficientBalance | NoRefundAvailable | DeadlineExpired
    | InvalidNonce | InvalidSwapParams | SwapDeadlineExpired | DexNotRegistered | SwapFailed
    | AssetMismatch | SlippageExceeded | InvalidSlippageConfig | InvalidSwapPath | CyclicSwapPath
    | Trapped

  datatype PauseLevel = Unpaused | SwapsOnly | FullHalt

  datatype FeeConfig = FeeConfig(treasury: Address, bps: I128, cap: I128)

  datatype Config = Config(
    fees: Option<FeeConfig>, maxAmount: I128, minLimit: I128, frozen: bool, pauseLevel: PauseLevel,
    blacklist: set<Address>, dexes: set<Address>, kycThreshold: Option<I128>, hasKycOracle: bool,
    maxSlippageBps: I128, pairSlippageBps: map<(Token, Token), I128>)

  /** The token ledgers and everything the router stores for payments. */
  datatype State = State(
    balances: Balances, refunds: Refunds, records: map<Address, UserRecord.Entries>,
    metaNonces: map<Address, U64>, config: Config)

  predicate FeesNotNegative(c: Config) {
    c.fees.Some? ==> c.fees.value.bps >= 0 && c.fees.value.cap >= 0
  }

  // ---------- checks ----------

  function AmountError(c: Config, amount: I128): Option<Error> {
    if amount <= 0 || amount > c.maxAmount || amount < c.minLimit then Some(LimitExceeded) else None
  }

  function RecipientError(c: Config, sender: Address, recipient: Address): Option<Error> {
    if sender == recipient then Some(InvalidRecipient)
    else if recipient in c.blacklist then Some(Blacklisted)
    else None
  }

  /** Payments above the threshold need the oracle's word for the sender. */
  function KycError(c: Config, amount: I128, verified: bool): Option<Error> {
    if c.kycThreshold == None || amount <= c.kycThreshold.value then None
    else if c.hasKycOracle && verified then None
    else Some(KycRequired)
  }

  /** Whether an account approved the call. The router approves nothing for itself: only a
      call it makes could carry its approval, and it makes none to itself. */
  predicate Approved(router: Address, account: Address, signed: bool) {
    signed && account != router
  }

  // ---------- sender records ----------

  function EntriesOf(s: State, user: Address): UserRecord.Entries {
    if user in s.records then s.records[user] else UserRecord.Entries(None, None, None)
  }

  /** Books a payment in the sender's record and returns the volume before it. */
  function AccrueUser(s: State, user: Address, now: U64, amount: I128): (r: Result<(State, int), Error>)
    ensures r.Ok? ==> r.value.0 == s.(records := r.value.0.records)
  {
    match UserRecord.Accrue(EntriesOf(s, user), now, amount)
    case Err(ClockTrap) => Err(Trapped)
    case Err(LimitExceeded) => Err(LimitExceeded)
    case Ok((entries, volume)) => Ok((s.(records := s.records[user := entries]), volume))
  }

  // ---------- token transfers ----------

  /** A transfer that the token contract carries out if it accepts it and the payer has the
      tokens. */
  function Transfer(b: Balances, token: Token, from: Address, to: Address, amount: int, accepted: bool)
    : Option<Balances>
  {
    if accepted && 0 <= amount <= Balance(b, token, from) then Some(Move(b, token, from, to, amount)) else None
  }

  function TransferIfPositive(b: Balances, token: Token, from: Address, to: Address, amount: int, accepted: bool)
    : Option<Balances>
  {
    if amount > 0 then Transfer(b, token, from, to, amount, accepted) else Some(b)
  }

  /** The router's holdings rose by at least `amount` of `token` and did not fall in any
      other token. */
  ghost predicate Gained(router: Address, before: Balances, after: Balances, token: Token, amount: int) {
    forall t :: Balance(after, t, router) >= Balance(before, t, router) + if t == token then amount else 0
  }

  lemma PullGains(router: Address, b: Balances, token: Token, from: Address, amount: int, accepted: bool)
    requires from != router && Transfer(b, token, from, router, amount, accepted).Some?
    ensures Gained(router, b, Transfer(b, token, from, router, amount, accepted).value, token, amount)
  {
    forall t ensures Balance(Move(b, token, from, router, amount), t, router) ==
                     Balance(b, t, router) + if t == token then amount else 0 {
      MoveBalance(b, token, from, router, amount, t, router);
    }
  }

  /** A transfer out of the router costs it at most the amount. */
  lemma PushCosts(router: Address, b: Balances, token: Token, to: Address, amount: int, accepted: bool)
    requires Transfer(b, token, router, to, amount, accepted).Some?
    ensures Gained(router, b, Transfer(b, token, router, to, amount, accepted).value, token, -amount)
  {
    forall t ensures Balance(Move(b, token, router, to, amount), t, router) >=
                     Balance(b, t, router) + if t == token then -amount else 0 {
      MoveBalance(b, token, router, to, amount, t, router);
    }
  }

  /** `payer` paid `first` to one account and `second` to another, and nothing else moved. */
  ghost predicate PaidBoth(
      before: Balances, after: Balances, token: Token, payer: Address, one: Address, first: int, other: Address,
      second: int)
  {
    forall t, x :: Balance(after, t, x) ==
      Balance(before, t, x) + if t != token then 0 else
        (if x == one then first else 0)
            + (if x == other then second else 0) - (if x == payer then first + second else 0)
  }

  lemma TwoTransfers(
      b: Balances, token: Token, payer: Address, one: Address, first: nat, other: Address, second: nat)
    ensures var c := Move(b, token, payer, one, first);
            PaidBoth(b, Move(c, token, payer, other, second), token, payer, one, first, other, second)
    ensures PaidBoth(b, Move(b, token, payer, one, first), token, payer, one, first, other, 0)
    ensures PaidBoth(b, Move(b, token, payer, other, second), token, payer, one, 0, other, second)
    ensures PaidBoth(b, b, token, payer, one, 0, other, 0)
  {
    var c := Move(b, token, payer, one, first);
    forall t, x
      ensures Balance(Move(c, token, payer, other, second), t, x) ==
              Balance(b, t, x) + if t != token then 0 else
                (if x == one then first else 0)
                    + (if x == other then second else 0) - (if x == payer then first + second else 0)
      ensures Balance(c, t, x) == Balance(b, t, x) + if t != token then 0 else
                (if x == one then first else 0) - (if x == payer then first else 0)
      ensures Balance(Move(b, token, payer, other, second), t, x) == Balance(b, t, x) + if t != token then 0 else
                (if x == other then second else 0) - (if x == payer then second else 0)
    {
      MoveBalance(b, token, payer, one, first, t, x);
      MoveBalance(c, token, payer, other, second, t, x);
      MoveBalance(b, token, payer, other, second, t, x);
    }
  }

  lemma GainedChain(router: Address, a: Balances, b: Balances, c: Balances, token: Token, x: int, y: int)
    requires Gained(router, a, b, token, x) && Gained(router, b, c, token, y)
    ensures Gained(router, a, c, token, x + y)
  {
    forall t ensures Balance(c, t, router) >= Balance(a, t, router) + if t == token then x + y else 0 {
      assert Balance(b, t, router) >= Balance(a, t, router) + if t == token then x else 0;
    }
  }

  // ---------- exchanges ----------

  /** An exchange's answer to `swap`: a failure, or balances and the token it says it paid. */
  datatype SwapReply = SwapFails | SwapReturns(after: Balances, token: Token)

  /** An exchange can do anything to the ledgers that needs no approval by the router, and it
      cannot be the router, whose re-entry the host refuses. */
  predicate Carried(router: Address, dex: Address, before: Balances, after: Balances) {
    dex != router && Unauthorized(router, before, after)
  }

  lemma CarriedKeepsBalance(router: Address, dex: Address, before: Balances, after: Balances)
    requires Carried(router, dex, before, after)
    ensures forall t :: Gained(router, before, after, t, 0)
  {
    forall t ensures Balance(after, t, router) >= Balance(before, t, router) {
      UnauthorizedKeepsBalance(router, before, after, t);
    }
  }

  /** Hands `amount` of `sell` to the exchange and lets it swap; what came in is measured on
      the router's own balance. */
  function SwapLeg(
      b: Balances, router: Address, dex: Address, sell: Token, buy: Token, amount: int, handsOver: bool,
      reply: SwapReply)
    : Result<(Balances, int), Error>
  {
    match Transfer(b, sell, router, dex, amount, handsOver)
    case None => Err(Trapped)
    case Some(c) =>
      if reply.SwapFails? || !Carried(router, dex, c, reply.after) then Err(SwapFailed)
      else Ok((reply.after, Balance(reply.after, buy, router) - Balance(b, buy, router)))
  }

  /** Each swap trades `amount` of one token for the measured output of another. */
  lemma SwapLegTrades(
      b: Balances, router: Address, dex: Address, sell: Token, buy: Token, amount: int, handsOver: bool,
      reply: SwapReply)
    requires sell != buy && SwapLeg(b, router, dex, sell, buy, amount, handsOver, reply).Ok?
    ensures var (c, out) := SwapLeg(b, router, dex, sell, buy, amount, handsOver, reply).value;
            && out >= 0
            && Balance(c, buy, router) == Balance(b, buy, router) + out
            && Balance(c, sell, router) >= Balance(b, sell, router) - amount
            && forall t :: t != sell && t != buy ==> Balance(c, t, router) >= Balance(b, t, router)
  {
    var handed := Transfer(b, sell, router, dex, amount, handsOver).value;
    PushCosts(router, b, sell, dex, amount, handsOver);
    CarriedKeepsBalance(router, dex, handed, reply.after);
    assert Gained(router, handed, reply.after, sell, 0);
    GainedChain(router, b, handed, reply.after, sell, -amount, 0);
  }

  // ---------- delivery of a swap output ----------

  datatype Delivery = Delivery(feeMoves: bool, delivers: bool)

  /** Takes the fee out of `out` and sends the remainder on; a remainder that cannot be
      delivered stays with the router and is owed to the sender. */
  function Deliver(
      s: State, router: Address, sender: Address, recipient: Address, token: Token, out: int, bps: int,
      fees: FeeConfig, d: Delivery)
    : (r: Result<(State, int), Error>)
    ensures r.Ok? ==> r.value.0.metaNonces == s.metaNonces
  {
    match CalculateFee(out, bps, fees.cap)
    case None => Err(Trapped)
    case Some((fee, remainder)) =>
      match TransferIfPositive(s.balances, token, router, fees.treasury, fee, d.feeMoves)
      case None => Err(Trapped)
      case Some(b) =>
        if remainder <= 0 then Ok((s.(balances := b), remainder))
        else
          match Transfer(b, token, router, recipient, remainder, d.delivers)
          case Some(c) => Ok((s.(balances := c), remainder))
          case None =>
            match Credit(s.refunds, sender, token, remainder)
            case None => Err(Trapped)
            case Some(refunds) => Ok((s.(balances := b, refunds := refunds), remainder))
  }

  /** From `s` to `t` the router's holdings did not fall in any token, and in `token` they
      rose by at least what the user was credited; nobody else's refund changed. */
  ghost predicate Conserved(router: Address, s: State, t: State, user: Address, token: Token) {
    var credited := RefundOf(t.refunds, user, token) - RefundOf(s.refunds, user, token);
    && credited >= 0
    && t.refunds == (if credited > 0 then s.refunds[(user, token) := RefundOf(t.refunds, user, token)] else s.refunds)
    && Gained(router, s.balances, t.balances, token, credited)
  }

  /** Delivering an output that came in after `before` conserves what the router held then. */
  lemma DeliverConserves(
      before: Balances, s: State, router: Address, sender: Address, recipient: Address, token: Token, out: nat,
      bps: nat, fees: FeeConfig, d: Delivery)
    requires Gained(router, before, s.balances, token, out) && fees.cap >= 0
    requires Deliver(s, router, sender, recipient, token, out, bps, fees, d).Ok?
    ensures var (t, remainder) := Deliver(s, router, sender, recipient, token, out, bps, fees, d).value;
            && 0 <= remainder <= out
            && Conserved(router, s.(balances := before), t, sender, token)
            && RefundOf(t.refunds, sender, token) - RefundOf(s.refunds, sender, token) in {0, remainder}
            && t.records == s.records && t.metaNonces == s.metaNonces && t.config == s.config
  {
    var (fee, remainder) := CalculateFee(out, bps, fees.cap).value;
    FeesArePartOfAmount(out, bps, fees.cap);
    var b := TransferIfPositive(s.balances, token, router, fees.treasury, fee, d.feeMoves).value;
    if fee > 0 {
      PushCosts(router, s.balances, token, fees.treasury, fee, d.feeMoves);
    }
    GainedChain(router, before, s.balances, b, token, out, -fee);
    if remainder > 0 && Transfer(b, token, router, recipient, remainder, d.delivers).Some? {
      PushCosts(router, b, token, recipient, remainder, d.delivers);
      var c := Transfer(b, token, router, recipient, remainder, d.delivers).value;
      GainedChain(router, before, b, c, token, remainder, -remainder);
    }
  }

  /** From `s` to `t` the router paid the fee to the treasury and the remainder to the
      recipient; or, if the token refuses the recipient, credited it to the sender. Nothing
      else moved. */
  ghost predicate Delivered(
      s: State, t: State, router: Address, sender: Address, recipient: Address, token: Token, treasury: Address,
      fee: int, remainder: int, accepted: bool)
  {
    if accepted || remainder == 0 then
      && t.refunds == s.refunds
      && PaidBoth(s.balances, t.balances, token, router, treasury, fee, recipient, remainder)
    else
      && t.refunds == s.refunds[(sender, token) := RefundOf(s.refunds, sender, token) + remainder]
      && PaidBoth(s.balances, t.balances, token, router, treasury, fee, recipient, 0)
  }

  /** Where a delivered output goes: the fee to the treasury and the remainder to the
      recipient; or, if the token refuses the recipient, into the sender's refund. */
  lemma DeliverPays(
      s: State, router: Address, sender: Address, recipient: Address, token: Token, out: nat, bps: nat,
      fees: FeeConfig, d: Delivery)
    requires Balance(s.balances, token, router) >= out && fees.cap >= 0
    requires Deliver(s, router, sender, recipient, token, out, bps, fees, d).Ok?
    ensures var (t, remainder) := Deliver(s, router, sender, recipient, token, out, bps, fees, d).value;
            && CalculateFee(out, bps, fees.cap) == Some((out - remainder, remainder))
            && Delivered(s, t, router, sender, recipient, token, fees.treasury, out - remainder, remainder, d.delivers)
  {
    DeliverShape(s, router, sender, recipient, token, out, bps, fees, d);
    hide Deliver, PaidBoth, Move, CalculateFee;
    var (fee, remainder) := CalculateFee(out, bps, fees.cap).value;
    TwoTransfers(s.balances, token, router, fees.treasury, fee, recipient, remainder);
  }

  lemma DeliverShape(
      s: State, router: Address, sender: Address, recipient: Address, token: Token, out: nat, bps: nat,
      fees: FeeConfig, d: Delivery)
    requires Balance(s.balances, token, router) >= out && fees.cap >= 0
    requires Deliver(s, router, sender, recipient, token, out, bps, fees, d).Ok?
    ensures CalculateFee(out, bps, fees.cap).Some?
    ensures var (t, r) := Deliver(s, router, sender, recipient, token, out, bps, fees, d).value;
            var (fee, remainder) := CalculateFee(out, bps, fees.cap).value;
            var b := if fee > 0 then Move(s.balances, token, router, fees.treasury, fee) else s.balances;
            var delivered := d.delivers || remainder == 0;
            && r == remainder && fee + remainder == out && 0 <= fee <= out
            && t.balances == (if delivered && remainder > 0 then Move(b, token, router, recipient, remainder) else b)
            && t.refunds == (if delivered then s.refunds
                             else s.refunds[(sender, token) := RefundOf(s.refunds, sender, token) + remainder])
  {
    var (fee, remainder) := CalculateFee(out, bps, fees.cap).value;
    FeesArePartOfAmount(out, bps, fees.cap);
    MoveBalance(s.balances, token, router, fees.treasury, fee, token, router);
  }

  /** If the tokens accept both transfers, an output the router has is always delivered. */
  lemma DeliverySucceeds(
      s: State, router: Address, sender: Address, recipient: Address, token: Token, out: nat, bps: nat,
      fees: FeeConfig, d: Delivery)
    requires Balance(s.balances, token, router) >= out && fees.cap >= 0 && d == Delivery(true, true)
    requires bps <= fees.bps && out < I128_HALF && out * fees.bps < I128_HALF
    ensures Deliver(s, router, sender, recipient, token, out, bps, fees, d).Ok?
    ensures 0 <= Deliver(s, router, sender, recipient, token, out, bps, fees, d).value.1 <= out
  {
    ProductSign(out, bps);
    Fees.Scale(bps, fees.bps, out);
    FeesArePartOfAmount(out, bps, fees.cap);
    FeeFits(out, bps, fees.cap);
    hide CalculateFee;
    var (fee, remainder) := CalculateFee(out, bps, fees.cap).value;
    MoveBalance(s.balances, token, router, fees.treasury, fee, token, router);
  }

  // ---------- solvency ----------

  /** What the router holds of a token beyond what it owes in refunds. */
  ghost function Surplus(s: State, router: Address, token: Token): int {
    Balance(s.balances, token, router) - Owed(s.refunds, token)
  }

  ghost predicate Solvent(s: State, router: Address) {
    AllPositive(s.refunds) && forall t :: Surplus(s, router, t) >= 0
  }

  /** The surplus did not fall in any token. */
  ghost predicate SurplusKept(s: State, t: State, router: Address) {
    forall token :: Surplus(t, router, token) >= Surplus(s, router, token)
  }

  lemma SurplusChain(s: State, t: State, u: State, router: Address)
    requires SurplusKept(s, t, router) && SurplusKept(t, u, router)
    ensures SurplusKept(s, u, router)
  {
    forall token ensures Surplus(u, router, token) >= Surplus(s, router, token) {
      assert Surplus(t, router, token) >= Surplus(s, router, token);
    }
  }

  lemma ConservedKeepsSurplus(router: Address, s: State, t: State, user: Address, token: Token)
    requires Conserved(router, s, t, user, token) && AllPositive(s.refunds)
    ensures SurplusKept(s, t, router) && AllPositive(t.refunds)
  {
    var after := RefundOf(t.refunds, user, token);
    var credited := after - RefundOf(s.refunds, user, token);
    forall k ensures Surplus(t, router, k) >= Surplus(s, router, k) {
      OwedAfterSet(s.refunds, user, token, after, k);
      assert Balance(t.balances, k, router) >= Balance(s.balances, k, router) + if k == token then credited else 0;
    }
    OwedCoversEach(s.refunds, user, token);
  }

  /** What a delivery takes out of the surplus, to whomever it goes. */
  lemma DeliveryCost(
      s: State, router: Address, sender: Address, recipient: Address, token: Token, out: nat, bps: int,
      fees: FeeConfig, d: Delivery)
    requires fees.treasury != router && recipient != router
    requires Deliver(s, router, sender, recipient, token, out, bps, fees, d).Ok?
    ensures var (fee, remainder) := CalculateFee(out, bps, fees.cap).value;
            var (t, _) := Deliver(s, router, sender, recipient, token, out, bps, fees, d).value;
            Surplus(t, router, token) == Surplus(s, router, token)
                                         - (if fee > 0 then fee else 0) - (if remainder > 0 then remainder else 0)
  {
    var (fee, remainder) := CalculateFee(out, bps, fees.cap).value;
    var b := TransferIfPositive(s.balances, token, router, fees.treasury, fee, d.feeMoves).value;
    PaidOut(s.balances, token, router, fees.treasury, fee, d.feeMoves);
    PaidOut(b, token, router, recipient, remainder, d.delivers);
    if remainder > 0 && Transfer(b, token, router, recipient, remainder, d.delivers) == None {
      OwedAfterSet(s.refunds, sender, token, RefundOf(s.refunds, sender, token) + remainder, token);
    }
  }

  lemma PaidOut(b: Balances, token: Token, router: Address, to: Address, amount: int, accepted: bool)
    requires to != router
    ensures var c := TransferIfPositive(b, token, router, to, amount, accepted);
            c.Some? ==> Balance(c.value, token, router) == Balance(b, token, router) - if amount > 0 then amount else 0
  {
    MoveBalance(b, token, router, to, amount, token, router);
  }

  /** A delivery takes no more out of the surplus than came in exactly if the fee settings
      are not negative (for the output at hand). */
  lemma OverpaysExactlyIfFeeNegative(
      s: State, router: Address, sender: Address, recipient: Address, token: Token, out: nat, bps: int,
      fees: FeeConfig, d: Delivery)
    requires fees.treasury != router && recipient != router
    requires Deliver(s, router, sender, recipient, token, out, bps, fees, d).Ok?
    ensures var (t, _) := Deliver(s, router, sender, recipient, token, out, bps, fees, d).value;
            Surplus(t, router, token) >= Surplus(s, router, token) - out
            <==> fees.cap >= 0 && out * bps > -BPS_DIVISOR
  {
    var (fee, remainder) := CalculateFee(out, bps, fees.cap).value;
    DeliveryCost(s, router, sender, recipient, token, out, bps, fees, d);
    FeeIsPartOfAmount(out, bps, fees.cap);
    assert remainder == out - fee && fee <= out;
  }
}
