/** Payments that are swapped on the way: through one exchange, split over several, or along
    a path of tokens. What exchanges do is arbitrary, within what the ledgers let them. */
module SwapPayments {
  import opened ByteOrder
  import opened Fees
  import opened MapSum
  import opened RefundLedger
  import opened RouterCore
  import opened TokenLedger
  import opened Wrappers
  import Split

  // ---------- one exchange ----------

  datatype SwapPayment = SwapPayment(
    sender: Address, recipient: Address, dex: Address, sellToken: Token, buyToken: Token,
    amountIn: I128, minAmountOut: I128, expectedAmountOut: I128, deadline: U64)

  datatype SwapAnswers = SwapAnswers(
    signed: bool, pulls: bool, handsOver: bool, dex: SwapReply, delivery: Delivery)

  const MAX_PAIR_SLIPPAGE_BPS := 500

  function PairMaxSlippage(c: Config, sell: Token, buy: Token): Result<int, Error> {
    if (sell, buy) !in c.pairSlippageBps then Ok(c.maxSlippageBps)
    else
      var bps := c.pairSlippageBps[(sell, buy)];
      if 0 <= bps <= MAX_PAIR_SLIPPAGE_BPS then Ok(bps) else Err(InvalidSlippageConfig)
  }

  /** The least output that stays within the slippage ceiling of a quote; an overflow traps. */
  function SlippageFloor(expected: int, bps: int): Option<int> {
    var floor := expected - TruncDiv(expected * bps, BPS_DIVISOR);
    if !InI128(expected * bps) || !InI128(floor) then None
    else Some(if floor < 1 then 1 else floor)
  }

  function OutputError(c: Config, swap: SwapPayment, out: int): Option<Error> {
    if out < swap.minAmountOut then Some(SlippageExceeded)
    else if swap.expectedAmountOut <= 0 then None
    else
      match PairMaxSlippage(c, swap.sellToken, swap.buyToken)
      case Err(e) => Some(e)
      case Ok(bps) =>
        match SlippageFloor(swap.expectedAmountOut, bps)
        case None => Some(Trapped)
        case Some(floor) => if out < floor then Some(SlippageExceeded) else None
  }

  function SwapError(c: Config, router: Address, now: U64, swap: SwapPayment, a: SwapAnswers): Option<Error> {
    if !Approved(router, swap.sender, a.signed) then Some(Trapped)
    else if c.pauseLevel != Unpaused then Some(Paused)
    else if swap.sellToken == swap.buyToken || swap.minAmountOut <= 0 then Some(InvalidSwapParams)
    else if swap.deadline != 0 && now > swap.deadline then Some(SwapDeadlineExpired)
    else if swap.dex !in c.dexes then Some(DexNotRegistered)
    else if RecipientError(c, swap.sender, swap.recipient).Some? then RecipientError(c, swap.sender, swap.recipient)
    else AmountError(c, swap.amountIn)
  }

  /** Books the payment, pulls the input in, and swaps it: the state before delivery, the
      output, and the fee rate for it. */
  function SwapIn(s: State, router: Address, now: U64, fees: FeeConfig, swap: SwapPayment, a: SwapAnswers)
    : (r: Result<(State, int, int), Error>)
    ensures r.Ok? ==> r.value.0.metaNonces == s.metaNonces
  {
    if SwapError(s.config, router, now, swap, a).Some? then Err(SwapError(s.config, router, now, swap, a).value)
    else
      match AccrueUser(s, swap.sender, now, swap.amountIn)
      case Err(e) => Err(e)
      case Ok((t, volume)) =>
        if Balance(t.balances, swap.sellToken, swap.sender) < swap.amountIn then Err(InsufficientBalance)
        else
          match Transfer(t.balances, swap.sellToken, swap.sender, router, swap.amountIn, a.pulls)
          case None => Err(Trapped)
          case Some(b) =>
            match SwapLeg(b, router, swap.dex, swap.sellToken, swap.buyToken, swap.amountIn, a.handsOver, a.dex)
            case Err(e) => Err(e)
            case Ok((c, out)) =>
              if a.dex.token != swap.buyToken then Err(AssetMismatch)
              else if OutputError(s.config, swap, out).Some? then Err(OutputError(s.config, swap, out).value)
              else Ok((t.(balances := c), out, EffectiveBps(fees.bps, volume)))
  }

  function ProcessSwap(s: State, router: Address, now: U64, fees: FeeConfig, swap: SwapPayment, a: SwapAnswers)
    : (r: Result<(State, int), Error>)
    ensures r.Ok? ==> r.value.0.metaNonces == s.metaNonces
  {
    match SwapIn(s, router, now, fees, swap, a)
    case Err(e) => Err(e)
    case Ok((t, out, bps)) => Deliver(t, router, swap.sender, swap.recipient, swap.buyToken, out, bps, fees, a.delivery)
  }

  function SwapsOpenError(c: Config): Option<Error> {
    if c.frozen then Some(ContractFrozen)
    else if c.pauseLevel != Unpaused then Some(Paused)
    else if c.fees == None then Some(NotInitialized)
    else None
  }

  function RouteSwap(s: State, router: Address, now: U64, swap: SwapPayment, a: SwapAnswers)
    : (r: Result<(State, int), Error>)
    ensures r.Ok? ==> r.value.0.metaNonces == s.metaNonces
  {
    if SwapsOpenError(s.config).Some? then Err(SwapsOpenError(s.config).value)
    else ProcessSwap(s, router, now, s.config.fees.value, swap, a)
  }

  type SwapItem = (SwapPayment, SwapAnswers)

  function SwapAll(s: State, router: Address, now: U64, fees: FeeConfig, items: seq<SwapItem>, i: nat, delivered: int)
    : (r: Result<(State, int), Error>)
    ensures r.Ok? ==> r.value.0.metaNonces == s.metaNonces
    decreases |items| - i
  {
    if i >= |items| then Ok((s, delivered))
    else
      match ProcessSwap(s, router, now, fees, items[i].0, items[i].1)
      case Err(e) => Err(e)
      case Ok((t, remainder)) =>
        if !InI128(delivered + remainder) then Err(Trapped)
        else SwapAll(t, router, now, fees, items, i + 1, delivered + remainder)
  }

  function RouteSwaps(s: State, router: Address, now: U64, items: seq<SwapItem>)
    : (r: Result<(State, int), Error>)
    ensures r.Ok? ==> r.value.0.metaNonces == s.metaNonces
  {
    if SwapsOpenError(s.config).Some? then Err(SwapsOpenError(s.config).value)
    else SwapAll(s, router, now, s.config.fees.value, items, 0, 0)
  }

  // ---------- several exchanges ----------

  datatype SplitPayment = SplitPayment(
    sender: Address, recipient: Address, sellToken: Token, buyToken: Token, amountIn: I128,
    splits: seq<Split.SplitRoute>)

  datatype LegAnswer = LegAnswer(handsOver: bool, dex: SwapReply)

  datatype SplitAnswers = SplitAnswers(signed: bool, pulls: bool, legs: seq<LegAnswer>, delivery: Delivery)

  /** The answer in leg `i`; an exchange that gives none has failed. */
  function LegOf(legs: seq<LegAnswer>, i: nat): LegAnswer {
    if i < |legs| then legs[i] else LegAnswer(true, SwapFails)
  }

  /** Swaps the shares from the `i`-th on, one exchange after the other, and adds up what
      came in. */
  function SwapShares(
      b: Balances, router: Address, p: SplitPayment, shares: seq<int>, legs: seq<LegAnswer>, i: nat, total: int)
    : Result<(Balances, int), Error>
    requires |shares| == |p.splits|
    decreases |p.splits| - i
  {
    if i >= |p.splits| then Ok((b, total))
    else if i + 1 < |p.splits| && !InI128(p.amountIn * p.splits[i].weightBps) then Err(Trapped)
    else if shares[i] <= 0 then Err(InvalidSwapParams)
    else
      match SwapLeg(b, router, p.splits[i].dex, p.sellToken, p.buyToken, shares[i], LegOf(legs, i).handsOver,
          LegOf(legs, i).dex)
      case Err(e) => Err(e)
      case Ok((c, out)) =>
        if out < p.splits[i].minAmountOut then Err(SlippageExceeded)
        else if !InI128(total + out) then Err(LimitExceeded)
        else SwapShares(c, router, p, shares, legs, i + 1, total + out)
  }

  function SplitError(c: Config, router: Address, p: SplitPayment, a: SplitAnswers): Option<Error> {
    if !Approved(router, p.sender, a.signed) then Some(Trapped)
    else if p.sellToken == p.buyToken then Some(InvalidSwapParams)
    else
      match Split.CheckSplits(p.splits, c.dexes)
      case Some(InvalidSwapParams) => Some(InvalidSwapParams)
      case Some(DexNotRegistered) => Some(DexNotRegistered)
      case None =>
        if RecipientError(c, p.sender, p.recipient).Some? then RecipientError(c, p.sender, p.recipient)
        else AmountError(c, p.amountIn)
  }

  function SplitIn(s: State, router: Address, now: U64, fees: FeeConfig, p: SplitPayment, a: SplitAnswers)
    : (r: Result<(State, int, int), Error>)
    ensures r.Ok? ==> r.value.0.metaNonces == s.metaNonces
  {
    if SplitError(s.config, router, p, a).Some? then Err(SplitError(s.config, router, p, a).value)
    else
      match AccrueUser(s, p.sender, now, p.amountIn)
      case Err(e) => Err(e)
      case Ok((t, volume)) =>
        if Balance(t.balances, p.sellToken, p.sender) < p.amountIn then Err(InsufficientBalance)
        else
          match Transfer(t.balances, p.sellToken, p.sender, router, p.amountIn, a.pulls)
          case None => Err(Trapped)
          case Some(b) =>
            match SwapShares(b, router, p, Split.Shares(p.amountIn, p.splits), a.legs, 0, 0)
            case Err(e) => Err(e)
            case Ok((c, total)) => Ok((t.(balances := c), total, EffectiveBps(fees.bps, volume)))
  }

  function RouteSplit(s: State, router: Address, now: U64, p: SplitPayment, a: SplitAnswers)
    : (r: Result<(State, int), Error>)
    ensures r.Ok? ==> r.value.0.metaNonces == s.metaNonces
  {
    if SwapsOpenError(s.config).Some? then Err(SwapsOpenError(s.config).value)
    else
      match SplitIn(s, router, now, s.config.fees.value, p, a)
      case Err(e) => Err(e)
      case Ok((t, total, bps)) =>
        Deliver(t, router, p.sender, p.recipient, p.buyToken, total, bps, s.config.fees.value, a.delivery)
  }

  // ---------- a path of tokens ----------

  datatype MultihopPayment = MultihopPayment(
    sender: Address, recipient: Address, dex: Address, amountIn: I128, path: seq<Token>, floors: seq<I128>)

  /** An exchange's answer in a hop: a failure, or balances and the amounts it reports. */
  datatype HopReply = HopFails | HopReturns(after: Balances, amounts: seq<int>)

  datatype HopAnswer = HopAnswer(handsOver: bool, dex: HopReply, returnsUnused: bool)

  datatype MultihopAnswers = MultihopAnswers(
    signed: bool, kycVerified: bool, withinRate: bool, pulls: bool, hops: seq<HopAnswer>, delivery: Delivery)

  function HopOf(hops: seq<HopAnswer>, i: nat): HopAnswer {
    if i < |hops| then hops[i] else HopAnswer(true, HopFails, true)
  }

  /** The reports must match what the router measures on its own balances. */
  predicate HopHonest(amount: int, floor: int, unused: int, out: int, reports: seq<int>)
    requires |reports| == 2
  {
    0 <= reports[1] <= amount && unused == reports[1] && out == reports[0] && out >= floor && out > 0
  }

  /** One hop: hand over, swap, check the reports, and give unused input back to the sender. */
  function Hop(
      b: Balances, router: Address, sender: Address, dex: Address, tokenIn: Token, tokenOut: Token, amount: int,
      floor: int, a: HopAnswer)
    : Result<(Balances, int), Error>
  {
    match Transfer(b, tokenIn, router, dex, amount, a.handsOver)
    case None => Err(Trapped)
    case Some(c) =>
      if a.dex.HopFails? || !Carried(router, dex, c, a.dex.after) then Err(Trapped)
      else if |a.dex.amounts| != 2 then Err(InvalidSwapPath)
      else
        var unused := Balance(a.dex.after, tokenIn, router) - (Balance(b, tokenIn, router) - amount);
        var out := Balance(a.dex.after, tokenOut, router) - Balance(b, tokenOut, router);
        if !HopHonest(amount, floor, unused, out, a.dex.amounts) then Err(SlippageExceeded)
        else
          match TransferIfPositive(a.dex.after, tokenIn, router, sender, unused, a.returnsUnused)
          case None => Err(Trapped)
          case Some(d) => Ok((d, out))
  }

  /** The hops from the `i`-th on, starting with `amount` of its input token. */
  function Hops(b: Balances, router: Address, p: MultihopPayment, hops: seq<HopAnswer>, i: nat, amount: int)
    : Result<(Balances, int), Error>
    requires |p.path| == |p.floors| + 1
    decreases |p.floors| - i
  {
    if i >= |p.floors| then Ok((b, amount))
    else
      match Hop(b, router, p.sender, p.dex, p.path[i], p.path[i + 1], amount, p.floors[i], HopOf(hops, i))
      case Err(e) => Err(e)
      case Ok((c, out)) => Hops(c, router, p, hops, i + 1, out)
  }

  predicate Acyclic(path: seq<Token>) {
    forall i, j :: 0 <= i < j < |path| ==> path[i] != path[j]
  }

  predicate HopCountFits(p: MultihopPayment) {
    3 <= |p.path| <= 5 && |p.floors| == |p.path| - 1
  }

  function PathError(p: MultihopPayment): Option<Error> {
    if !HopCountFits(p) then Some(InvalidSwapPath)
    else if !Acyclic(p.path) then Some(CyclicSwapPath)
    else if exists i :: 0 <= i < |p.floors| && p.floors[i] <= 0 then Some(InvalidSwapParams)
    else None
  }

  function MultihopError(c: Config, router: Address, p: MultihopPayment, a: MultihopAnswers): (e: Option<Error>)
    ensures e == None ==> HopCountFits(p) && Acyclic(p.path) && p.sender != router && c.fees.Some?
  {
    if c.frozen then Some(ContractFrozen)
    else if c.pauseLevel == FullHalt then Some(Paused)
    else if RecipientError(c, p.sender, p.recipient).Some? then RecipientError(c, p.sender, p.recipient)
    else if PathError(p).Some? then PathError(p)
    else if p.dex !in c.dexes then Some(DexNotRegistered)
    else if AmountError(c, p.amountIn).Some? then AmountError(c, p.amountIn)
    else if KycError(c, p.amountIn, a.kycVerified).Some? then KycError(c, p.amountIn, a.kycVerified)
    else if !Approved(router, p.sender, a.signed) then Some(Trapped)
    else if !a.withinRate then Some(RateLimited)
    else if c.fees == None then Some(NotInitialized)
    else None
  }

  /** Books the payment, pulls the input in, and takes it along the path. */
  function MultihopIn(s: State, router: Address, now: U64, bps: int, p: MultihopPayment, a: MultihopAnswers)
    : (r: Result<(State, int, int), Error>)
    requires HopCountFits(p)
    ensures r.Ok? ==> r.value.0.metaNonces == s.metaNonces
  {
    match AccrueUser(s, p.sender, now, p.amountIn)
    case Err(e) => Err(e)
    case Ok((t, volume)) =>
      if Balance(t.balances, p.path[0], p.sender) < p.amountIn then Err(InsufficientBalance)
      else
        match Transfer(t.balances, p.path[0], p.sender, router, p.amountIn, a.pulls)
        case None => Err(Trapped)
        case Some(b) =>
          match Hops(b, router, p, a.hops, 0, p.amountIn)
          case Err(e) => Err(e)
          case Ok((c, out)) => Ok((t.(balances := c), out, EffectiveBps(bps, volume)))
  }

  function RouteMultihop(s: State, router: Address, now: U64, p: MultihopPayment, a: MultihopAnswers)
    : (r: Result<(State, int), Error>)
    ensures r.Ok? ==> r.value.0.metaNonces == s.metaNonces
  {
    if MultihopError(s.config, router, p, a).Some? then Err(MultihopError(s.config, router, p, a).value)
    else
      var fees := s.config.fees.value;
      match MultihopIn(s, router, now, fees.bps, p, a)
      case Err(e) => Err(e)
      case Ok((t, out, bps)) =>
        Deliver(t, router, p.sender, p.recipient, p.path[|p.path| - 1], out, bps, fees, a.delivery)
  }

  // ---------- what single and split swaps conserve ----------

  /** After a pull of `amount` and a swap of it the router has the output on top. */
  lemma TradeGains(
      start: Balances, b: Balances, router: Address, dex: Address, sell: Token, buy: Token, amount: int,
      handsOver: bool, reply: SwapReply)
    requires sell != buy && Gained(router, start, b, sell, amount)
    requires SwapLeg(b, router, dex, sell, buy, amount, handsOver, reply).Ok?
    ensures var (c, out) := SwapLeg(b, router, dex, sell, buy, amount, handsOver, reply).value;
            out >= 0 && Gained(router, start, c, buy, out)
  {
    var (c, out) := SwapLeg(b, router, dex, sell, buy, amount, handsOver, reply).value;
    SwapLegTrades(b, router, dex, sell, buy, amount, handsOver, reply);
    forall t ensures Balance(c, t, router) >= Balance(start, t, router) + if t == buy then out else 0 {
      assert Balance(b, t, router) >= Balance(start, t, router) + if t == sell then amount else 0;
    }
  }

  lemma SwapInGains(s: State, router: Address, now: U64, fees: FeeConfig, swap: SwapPayment, a: SwapAnswers)
    requires SwapIn(s, router, now, fees, swap, a).Ok?
    ensures var (t, out, bps) := SwapIn(s, router, now, fees, swap, a).value;
            && out >= 0 && Gained(router, s.balances, t.balances, swap.buyToken, out)
            && t.refunds == s.refunds && t.config == s.config
            && (fees.bps >= 0 ==> bps >= 0)
  {
    assert swap.sender != router && swap.sellToken != swap.buyToken;
    hide AccrueUser, SwapLeg, SwapError, OutputError;
    var (t, volume) := AccrueUser(s, swap.sender, now, swap.amountIn).value;
    PullGains(router, t.balances, swap.sellToken, swap.sender, swap.amountIn, a.pulls);
    var b := Transfer(t.balances, swap.sellToken, swap.sender, router, swap.amountIn, a.pulls).value;
    TradeGains(t.balances, b, router, swap.dex, swap.sellToken, swap.buyToken, swap.amountIn, a.handsOver, a.dex);
  }

  /** A swap payment conserves what the router held, whatever the exchange did. */
  lemma SwapConserves(s: State, router: Address, now: U64, fees: FeeConfig, swap: SwapPayment, a: SwapAnswers)
    requires fees.bps >= 0 && fees.cap >= 0
    ensures match ProcessSwap(s, router, now, fees, swap, a)
            case Err(_) => true
            case Ok((t, remainder)) =>
              Conserved(router, s, t, swap.sender, swap.buyToken) && remainder >= 0 && t.config == s.config
  {
    hide SwapIn, Deliver, Gained;
    if ProcessSwap(s, router, now, fees, swap, a).Ok? {
      SwapInGains(s, router, now, fees, swap, a);
      var (t, out, bps) := SwapIn(s, router, now, fees, swap, a).value;
      DeliverConserves(s.balances, t, router, swap.sender, swap.recipient, swap.buyToken, out, bps, fees, a.delivery);
    }
  }

  // ---------- a swap on an honest exchange ----------

  /** The ledgers when the exchange has the input and is about to be called. */
  function Handed(b: Balances, router: Address, swap: SwapPayment): Balances {
    Move(Move(b, swap.sellToken, swap.sender, router, swap.amountIn), swap.sellToken, router, swap.dex, swap.amountIn)
  }

  /** The ledgers after an exchange that pays `out` from its own pocket and does nothing else. */
  function Honest(b: Balances, router: Address, swap: SwapPayment, out: int): Balances {
    Move(Handed(b, router, swap), swap.buyToken, swap.dex, router, out)
  }

  lemma HonestIsCarried(b: Balances, router: Address, swap: SwapPayment, out: nat)
    requires NoDebt(b) && swap.sellToken != swap.buyToken && swap.dex != router && swap.sender != router
    requires 0 <= swap.amountIn <= Balance(b, swap.sellToken, swap.sender) && out <= Balance(b, swap.buyToken, swap.dex)
    ensures NoDebt(Honest(b, router, swap, out))
    ensures Carried(router, swap.dex, Handed(b, router, swap), Honest(b, router, swap, out))
  {
    var pulled := Move(b, swap.sellToken, swap.sender, router, swap.amountIn);
    MoveBalance(b, swap.sellToken, swap.sender, router, swap.amountIn, swap.sellToken, router);
    MoveKeepsNoDebt(b, swap.sellToken, swap.sender, router, swap.amountIn);
    assert Balance(b, swap.sellToken, router) >= 0;
    MoveKeepsNoDebt(pulled, swap.sellToken, router, swap.dex, swap.amountIn);
    var handed := Handed(b, router, swap);
    MoveKeepsNoDebt(handed, swap.buyToken, swap.dex, router, out);
    forall k | k in handed && k.1 == router ensures Get(Honest(b, router, swap, out), k) >= handed[k] {
      MoveBalance(handed, swap.buyToken, swap.dex, router, out, k.0, router);
    }
  }

  /** What an honest swap moves: input from sender to exchange; output from exchange to the
      treasury and the recipient. */
  function Flow(swap: SwapPayment, treasury: Address, out: int, fee: int, t: Token, x: Address): int {
    if t == swap.sellToken then
        (if x == swap.dex then swap.amountIn else 0) - (if x == swap.sender then swap.amountIn else 0)
    else if t == swap.buyToken then
      (if x == treasury then fee else 0)
          + (if x == swap.recipient then out - fee else 0) - (if x == swap.dex then out else 0)
    else 0
  }

  /** A swap that passes the checks, on an honest exchange whose output passes the guards,
      goes through and moves exactly that: nothing stays with the router. */
  lemma HonestSwapSettles(
      s: State, router: Address, now: U64, fees: FeeConfig, swap: SwapPayment, out: nat, a: SwapAnswers)
    requires NoDebt(s.balances) && fees.bps >= 0 && fees.cap >= 0 && swap.dex != router
    requires SwapError(s.config, router, now, swap, a) == None && OutputError(s.config, swap, out) == None
    requires swap.amountIn <= Balance(s.balances, swap.sellToken, swap.sender)
    requires out <= Balance(s.balances, swap.buyToken, swap.dex)
    requires a.pulls && a.handsOver && a.delivery == Delivery(true, true)
    requires a.dex == SwapReturns(Honest(s.balances, router, swap, out), swap.buyToken)
    requires out < I128_HALF && out * fees.bps < I128_HALF
    ensures AccrueUser(s, swap.sender, now, swap.amountIn).Ok? <==> ProcessSwap(s, router, now, fees, swap, a).Ok?
    ensures match ProcessSwap(s, router, now, fees, swap, a)
            case Err(_) => true
            case Ok((t, remainder)) =>
              && t.refunds == s.refunds && 0 <= remainder <= out
              && forall token, x :: Balance(t.balances, token, x) ==
                   Balance(s.balances, token, x) + Flow(swap, fees.treasury, out, out - remainder, token, x)
  {
    HonestSwapIn(s, router, now, fees, swap, out, a);
    hide AccrueUser, SwapIn, Flow;
    if AccrueUser(s, swap.sender, now, swap.amountIn).Ok? {
      var (t, _, bps) := SwapIn(s, router, now, fees, swap, a).value;
      HonestDelivery(s, t, router, bps, fees, swap, out, a.delivery);
    }
  }

  lemma HonestSwapIn(s: State, router: Address, now: U64, fees: FeeConfig, swap: SwapPayment, out: nat, a: SwapAnswers)
    requires NoDebt(s.balances) && fees.bps >= 0 && swap.dex != router
    requires SwapError(s.config, router, now, swap, a) == None && OutputError(s.config, swap, out) == None
    requires swap.amountIn <= Balance(s.balances, swap.sellToken, swap.sender)
    requires out <= Balance(s.balances, swap.buyToken, swap.dex)
    requires a.pulls && a.handsOver
    requires a.dex == SwapReturns(Honest(s.balances, router, swap, out), swap.buyToken)
    ensures var accrued := AccrueUser(s, swap.sender, now, swap.amountIn);
            var swapped := SwapIn(s, router, now, fees, swap, a);
            && (accrued.Ok? <==> swapped.Ok?)
            && (swapped.Ok? ==>
                  && swapped.value.0 == accrued.value.0.(balances := Honest(s.balances, router, swap, out))
                  && swapped.value.1 == out && 0 <= swapped.value.2 <= fees.bps)
  {
    assert swap.sender != router && swap.sellToken != swap.buyToken && swap.amountIn > 0;
    hide AccrueUser, SwapError, OutputError, Carried;
    var pulled := Move(s.balances, swap.sellToken, swap.sender, router, swap.amountIn);
    var handed := Handed(s.balances, router, swap);
    HonestIsCarried(s.balances, router, swap, out);
    assert Balance(s.balances, swap.sellToken, router) >= 0;
    MoveBalance(s.balances, swap.sellToken, swap.sender, router, swap.amountIn, swap.sellToken, router);
    MoveBalance(pulled, swap.sellToken, router, swap.dex, swap.amountIn, swap.buyToken, router);
    MoveBalance(handed, swap.buyToken, swap.dex, router, out, swap.buyToken, router);
  }

  lemma HonestDelivery(
      s: State, t: State, router: Address, bps: nat, fees: FeeConfig, swap: SwapPayment, out: nat, d: Delivery)
    requires NoDebt(s.balances) && t.balances == Honest(s.balances, router, swap, out) && t.refunds == s.refunds
    requires swap.sellToken != swap.buyToken && swap.dex != router && swap.sender != router
    requires fees.cap >= 0 && bps <= fees.bps && out < I128_HALF && out * fees.bps < I128_HALF
    requires d == Delivery(true, true)
    ensures match Deliver(t, router, swap.sender, swap.recipient, swap.buyToken, out, bps, fees, d)
            case Err(_) => false
            case Ok((u, remainder)) =>
              && u.refunds == s.refunds && 0 <= remainder <= out
              && forall token, x :: Balance(u.balances, token, x) ==
                   Balance(s.balances, token, x) + Flow(swap, fees.treasury, out, out - remainder, token, x)
  {
    hide Deliver, Honest, Move;
    forall token, x
      ensures Balance(t.balances, token, x) == Balance(s.balances, token, x) + Inflow(swap, router, out, token, x)
    {
      HonestBalance(s.balances, router, swap, out, token, x);
    }
    assert Balance(s.balances, swap.buyToken, router) >= 0;
    DeliverySucceeds(t, router, swap.sender, swap.recipient, swap.buyToken, out, bps, fees, d);
    DeliverPays(t, router, swap.sender, swap.recipient, swap.buyToken, out, bps, fees, d);
  }

  /** What has moved when an honest exchange returns: the output is with the router. */
  function Inflow(swap: SwapPayment, router: Address, out: int, t: Token, x: Address): int {
    if t == swap.sellToken then
        (if x == swap.dex then swap.amountIn else 0) - (if x == swap.sender then swap.amountIn else 0)
    else if t == swap.buyToken then (if x == router then out else 0) - (if x == swap.dex then out else 0)
    else 0
  }

  lemma HonestBalance(b: Balances, router: Address, swap: SwapPayment, out: int, t: Token, x: Address)
    requires swap.sellToken != swap.buyToken
    ensures Balance(Honest(b, router, swap, out), t, x) == Balance(b, t, x) + Inflow(swap, router, out, t, x)
  {
    var pulled := Move(b, swap.sellToken, swap.sender, router, swap.amountIn);
    MoveBalance(b, swap.sellToken, swap.sender, router, swap.amountIn, t, x);
    MoveBalance(pulled, swap.sellToken, router, swap.dex, swap.amountIn, t, x);
    MoveBalance(Handed(b, router, swap), swap.buyToken, swap.dex, router, out, t, x);
  }

  /** An accepted output is at least the sender's floor, and no further below the sender's
      quote than the ceiling in basis points allows. */
  lemma SwapMeetsQuote(s: State, router: Address, now: U64, fees: FeeConfig, swap: SwapPayment, a: SwapAnswers)
    ensures match SwapIn(s, router, now, fees, swap, a)
            case Err(_) => true
            case Ok((_, out, _)) =>
              && out >= swap.minAmountOut
              && (swap.expectedAmountOut > 0 ==>
                    var ceiling := PairMaxSlippage(s.config, swap.sellToken, swap.buyToken);
                    ceiling.Ok? && (ceiling.value >= 0 ==>
                      out * BPS_DIVISOR >= swap.expectedAmountOut * (BPS_DIVISOR - ceiling.value)))
  {
    hide AccrueUser, SwapLeg, SwapError;
    if SwapIn(s, router, now, fees, swap, a).Ok? && swap.expectedAmountOut > 0 {
      var bps := PairMaxSlippage(s.config, swap.sellToken, swap.buyToken).value;
      if bps >= 0 {
        FloorMeetsQuote(swap.expectedAmountOut, bps);
      }
    }
  }

  lemma FloorMeetsQuote(expected: nat, bps: nat)
    requires SlippageFloor(expected, bps).Some?
    ensures SlippageFloor(expected, bps).value * BPS_DIVISOR >= expected * (BPS_DIVISOR - bps)
  {
    ProductSign(expected, bps);
    assert expected * (BPS_DIVISOR - bps) == expected * BPS_DIVISOR - expected * bps;
  }

  ghost predicate BatchKept(s: State, t: State, router: Address) {
    SurplusKept(s, t, router) && AllPositive(t.refunds) && t.config == s.config
  }

  lemma SwapExtends(
      start: State, s: State, router: Address, now: U64, fees: FeeConfig, swap: SwapPayment, a: SwapAnswers,
      t: State, remainder: int)
    requires ProcessSwap(s, router, now, fees, swap, a) == Ok((t, remainder)) && fees.bps >= 0 && fees.cap >= 0
    requires BatchKept(start, s, router)
    ensures BatchKept(start, t, router) && remainder >= 0
  {
    SwapConserves(s, router, now, fees, swap, a);
    ConservedKeepsSurplus(router, s, t, swap.sender, swap.buyToken);
    SurplusChain(start, s, t, router);
  }

  /** A batch of swaps that goes through takes nothing from what the router held for others. */
  lemma {:induction false} SwapAllKeepsSurplus(
      start: State, s: State, router: Address, now: U64, fees: FeeConfig, items: seq<SwapItem>, i: nat, delivered: int)
    requires SwapAll(s, router, now, fees, items, i, delivered).Ok?
    requires fees.bps >= 0 && fees.cap >= 0 && BatchKept(start, s, router)
    ensures BatchKept(start, SwapAll(s, router, now, fees, items, i, delivered).value.0, router)
    ensures SwapAll(s, router, now, fees, items, i, delivered).value.1 >= delivered
    decreases |items| - i
  {
    hide ProcessSwap;
    if i < |items| {
      var first := ProcessSwap(s, router, now, fees, items[i].0, items[i].1).value;
      SwapExtends(start, s, router, now, fees, items[i].0, items[i].1, first.0, first.1);
      SwapAllKeepsSurplus(start, first.0, router, now, fees, items, i + 1, delivered + first.1);
    }
  }

  /** What is still to be swapped and what has come in move in step: the shares from the
      `i`-th on leave, the outputs come in. */
  lemma {:induction false} SharesTrade(
      start: Balances, b: Balances, router: Address, p: SplitPayment, shares: seq<int>, legs: seq<LegAnswer>,
      i: nat, total: int)
    requires |shares| == |p.splits| && i <= |shares| && p.sellToken != p.buyToken
    requires InPlay(router, start, b, p.sellToken, Split.Total(shares[i..]), p.buyToken, total)
    requires SwapShares(b, router, p, shares, legs, i, total).Ok?
    ensures var (c, out) := SwapShares(b, router, p, shares, legs, i, total).value;
            out >= total && InPlay(router, start, c, p.sellToken, 0, p.buyToken, out)
    decreases |shares| - i
  {
    if i < |shares| {
      var a := LegOf(legs, i);
      var (c, out) := SwapLeg(b, router, p.splits[i].dex, p.sellToken, p.buyToken, shares[i], a.handsOver, a.dex).value;
      SwapLegTrades(b, router, p.splits[i].dex, p.sellToken, p.buyToken, shares[i], a.handsOver, a.dex);
      assert shares[i..][0] == shares[i] && shares[i..][1..] == shares[i + 1..];
      InPlayTrade(router, start, b, c, p.sellToken, Split.Total(shares[i..]), p.buyToken, total, shares[i], out);
      SharesTrade(start, c, router, p, shares, legs, i + 1, total + out);
    }
  }

  /** On top of what it held at the start the router holds `sellAmount` of one token and
      `buyAmount` of another. */
  ghost predicate InPlay(
      router: Address, start: Balances, b: Balances, sell: Token, sellAmount: int, buy: Token, buyAmount: int)
  {
    forall t :: Balance(b, t, router) >=
                Balance(start, t, router) + (if t == sell then sellAmount else if t == buy then buyAmount else 0)
  }

  lemma InPlayTrade(
      router: Address, start: Balances, b: Balances, c: Balances, sell: Token, sellAmount: int, buy: Token,
      buyAmount: int, share: int, out: int)
    requires sell != buy && InPlay(router, start, b, sell, sellAmount, buy, buyAmount)
    requires Balance(c, buy, router) == Balance(b, buy, router) + out
    requires Balance(c, sell, router) >= Balance(b, sell, router) - share
    requires forall t :: t != sell && t != buy ==> Balance(c, t, router) >= Balance(b, t, router)
    ensures InPlay(router, start, c, sell, sellAmount - share, buy, buyAmount + out)
  {
    forall t ensures Balance(c, t, router) >= Balance(start, t, router)
                     + (if t == sell then sellAmount - share else if t == buy then buyAmount + out else 0) {
      assert Balance(b, t, router) >= Balance(start, t, router)
             + (if t == sell then sellAmount else if t == buy then buyAmount else 0);
    }
  }

  lemma SplitChecked(c: Config, router: Address, p: SplitPayment, a: SplitAnswers)
    requires SplitError(c, router, p, a) == None
    ensures p.sender != router && p.sellToken != p.buyToken && p.amountIn > 0
    ensures p.splits != [] && Split.TotalWeight(p.splits) == Split.TOTAL_WEIGHT_BPS
  {
    Split.SplitAcceptedExactly(p.splits, c.dexes);
  }

  /** All of the input goes to the exchanges and nothing else does. */
  lemma SplitInGains(s: State, router: Address, now: U64, fees: FeeConfig, p: SplitPayment, a: SplitAnswers)
    requires SplitIn(s, router, now, fees, p, a).Ok?
    ensures var (t, total, bps) := SplitIn(s, router, now, fees, p, a).value;
            && total >= 0 && Gained(router, s.balances, t.balances, p.buyToken, total)
            && t.refunds == s.refunds && t.config == s.config
            && (fees.bps >= 0 ==> bps >= 0)
  {
    assert SplitError(s.config, router, p, a) == None;
    SplitChecked(s.config, router, p, a);
    hide AccrueUser, SwapShares, SplitError, Split.CheckSplits, Split.Shares;
    var (t, volume) := AccrueUser(s, p.sender, now, p.amountIn).value;
    PullGains(router, t.balances, p.sellToken, p.sender, p.amountIn, a.pulls);
    var b := Transfer(t.balances, p.sellToken, p.sender, router, p.amountIn, a.pulls).value;
    var shares := Split.Shares(p.amountIn, p.splits);
    Split.SharesAreExactAndFair(p.amountIn, p.splits);
    assert shares[0..] == shares;
    assert InPlay(router, s.balances, b, p.sellToken, Split.Total(shares[0..]), p.buyToken, 0) by {
      forall k ensures Balance(b, k, router) >= Balance(s.balances, k, router)
                       + (if k == p.sellToken then p.amountIn else if k == p.buyToken then 0 else 0) {
        assert Balance(b, k, router) >= Balance(t.balances, k, router) + if k == p.sellToken then p.amountIn else 0;
      }
    }
    SharesTrade(s.balances, b, router, p, shares, a.legs, 0, 0);
    var (c, total) := SwapShares(b, router, p, shares, a.legs, 0, 0).value;
    forall k ensures Balance(c, k, router) >= Balance(s.balances, k, router) + if k == p.buyToken then total else 0 {
    }
  }

  /** A split payment conserves what the router held, whatever the exchanges did. */
  lemma SplitConserves(s: State, router: Address, now: U64, p: SplitPayment, a: SplitAnswers)
    requires FeesNotNegative(s.config)
    ensures match RouteSplit(s, router, now, p, a)
            case Err(_) => true
            case Ok((t, remainder)) =>
              Conserved(router, s, t, p.sender, p.buyToken) && remainder >= 0 && t.config == s.config
  {
    hide SplitIn, Deliver, Gained;
    if RouteSplit(s, router, now, p, a).Ok? {
      var fees := s.config.fees.value;
      SplitInGains(s, router, now, fees, p, a);
      var (t, total, bps) := SplitIn(s, router, now, fees, p, a).value;
      DeliverConserves(s.balances, t, router, p.sender, p.recipient, p.buyToken, total, bps, fees, a.delivery);
    }
  }

  // ---------- a split over honest exchanges ----------

  /** The sum of what account `x` gets when exchange `k` gets `values[k]`, from the `i`-th on. */
  function PaidTo(p: SplitPayment, values: seq<int>, i: nat, x: Address): int
    requires |values| == |p.splits|
    decreases |values| - i
  {
    if i >= |values| then 0 else (if p.splits[i].dex == x then values[i] else 0) + PaidTo(p, values, i + 1, x)
  }

  function SumFrom(values: seq<int>, i: nat): int
    decreases |values| - i
  {
    if i >= |values| then 0 else values[i] + SumFrom(values, i + 1)
  }

  function HonestLeg(b: Balances, router: Address, p: SplitPayment, i: nat, share: int, out: int): Balances
    requires i < |p.splits|
  {
    Move(Move(b, p.sellToken, router, p.splits[i].dex, share), p.buyToken, p.splits[i].dex, router, out)
  }

  /** From leg `i` on each exchange has its output and pays it, and the outputs reach the
      floors. */
  predicate HonestLegs(
      b: Balances, router: Address, p: SplitPayment, shares: seq<int>, outs: seq<int>, legs: seq<LegAnswer>, i: nat)
    requires |shares| == |outs| == |p.splits|
    decreases |outs| - i
  {
    i < |outs| ==>
      var after := HonestLeg(b, router, p, i, shares[i], outs[i]);
      && p.splits[i].dex != router
      && LegOf(legs, i).handsOver && LegOf(legs, i).dex.SwapReturns? && LegOf(legs, i).dex.after == after
      && p.splits[i].minAmountOut <= outs[i] <= Balance(b, p.buyToken, p.splits[i].dex) && outs[i] >= 0
      && HonestLegs(after, router, p, shares, outs, legs, i + 1)
  }

  lemma HonestLegSettles(
      b: Balances, router: Address, p: SplitPayment, leg: LegAnswer, i: nat, share: int, out: int)
    requires i < |p.splits| && p.sellToken != p.buyToken && p.splits[i].dex != router
    requires NoDebt(b) && 0 < share <= Balance(b, p.sellToken, router)
    requires leg.handsOver && leg.dex.SwapReturns? && leg.dex.after == HonestLeg(b, router, p, i, share, out)
    requires 0 <= out <= Balance(b, p.buyToken, p.splits[i].dex)
    ensures SwapLeg(b, router, p.splits[i].dex, p.sellToken, p.buyToken, share, leg.handsOver, leg.dex) ==
            Ok((HonestLeg(b, router, p, i, share, out), out))
    ensures NoDebt(HonestLeg(b, router, p, i, share, out))
    ensures forall t, x :: Balance(HonestLeg(b, router, p, i, share, out), t, x) ==
              Balance(b, t, x) + Swapped(p.sellToken, share, p.buyToken, out, router, p.splits[i].dex, t, x)
  {
    var dex := p.splits[i].dex;
    var handed := Move(b, p.sellToken, router, dex, share);
    MoveKeepsNoDebt(b, p.sellToken, router, dex, share);
    MoveBalance(b, p.sellToken, router, dex, share, p.buyToken, dex);
    MoveKeepsNoDebt(handed, p.buyToken, dex, router, out);
    forall t, x ensures Balance(HonestLeg(b, router, p, i, share, out), t, x) ==
                        Balance(b, t, x) + Swapped(p.sellToken, share, p.buyToken, out, router, dex, t, x) {
      MoveBalance(b, p.sellToken, router, dex, share, t, x);
      MoveBalance(handed, p.buyToken, dex, router, out, t, x);
    }
    forall k | k in handed && k.1 == router ensures Get(leg.dex.after, k) >= handed[k] {
      MoveBalance(handed, p.buyToken, dex, router, out, k.0, router);
    }
  }

  /** Over honest exchanges every leg succeeds, and each exchange ends up with exactly its own
      share, having paid exactly its own output to the router. */
  lemma {:induction false} HonestLegsSettle(
      b: Balances, router: Address, p: SplitPayment, shares: seq<int>, outs: seq<int>, legs: seq<LegAnswer>,
      i: nat, total: int)
    requires |shares| == |outs| == |p.splits| && i <= |outs| && p.sellToken != p.buyToken && NoDebt(b)
    requires forall k :: i <= k < |shares| ==> shares[k] > 0
    requires forall k :: i <= k < |shares| - 1 ==> InI128(p.amountIn * p.splits[k].weightBps)
    requires SumFrom(shares, i) <= Balance(b, p.sellToken, router)
    requires 0 <= total && total + SumFrom(outs, i) < I128_HALF
    requires HonestLegs(b, router, p, shares, outs, legs, i)
    ensures match SwapShares(b, router, p, shares, legs, i, total)
            case Err(_) => false
            case Ok((c, out)) =>
              && out == total + SumFrom(outs, i)
              && forall t, x :: Balance(c, t, x) == Balance(b, t, x) + SplitFlow(p, shares, outs, i, router, t, x)
    decreases |outs| - i
  {
    if i < |outs| {
      HonestLegsUnfold(b, router, p, shares, outs, legs, i);
      hide SwapLeg, HonestLeg, HonestLegs, LegOf, PaidTo;
      var after := HonestLeg(b, router, p, i, shares[i], outs[i]);
      SumFromPositive(shares, i + 1);
      HonestLegsPay(after, router, p, shares, outs, legs, i + 1);
      HonestLegSettles(b, router, p, LegOf(legs, i), i, shares[i], outs[i]);
      assert SumFrom(shares, i + 1) <= Balance(after, p.sellToken, router);
      HonestLegsSettle(after, router, p, shares, outs, legs, i + 1, total + outs[i]);
      hide SplitFlow, Swapped;
      forall t, x ensures SplitFlow(p, shares, outs, i, router, t, x) ==
                          Swapped(p.sellToken, shares[i], p.buyToken, outs[i], router, p.splits[i].dex, t, x)
                          + SplitFlow(p, shares, outs, i + 1, router, t, x) {
        SplitFlowStep(p, shares, outs, i, router, t, x);
      }
    }
  }

  lemma SplitFlowStep(p: SplitPayment, shares: seq<int>, outs: seq<int>, i: nat, router: Address, t: Token, x: Address)
    requires i < |shares| == |outs| == |p.splits| && p.sellToken != p.buyToken
    ensures SplitFlow(p, shares, outs, i, router, t, x) ==
            Swapped(p.sellToken, shares[i], p.buyToken, outs[i], router, p.splits[i].dex, t, x)
            + SplitFlow(p, shares, outs, i + 1, router, t, x)
  {
  }

  lemma HonestLegsUnfold(
      b: Balances, router: Address, p: SplitPayment, shares: seq<int>, outs: seq<int>, legs: seq<LegAnswer>, i: nat)
    requires i < |shares| == |outs| == |p.splits| && HonestLegs(b, router, p, shares, outs, legs, i)
    ensures var after := HonestLeg(b, router, p, i, shares[i], outs[i]);
            && p.splits[i].dex != router
            && LegOf(legs, i).handsOver && LegOf(legs, i).dex.SwapReturns? && LegOf(legs, i).dex.after == after
            && p.splits[i].minAmountOut <= outs[i] <= Balance(b, p.buyToken, p.splits[i].dex) && outs[i] >= 0
            && HonestLegs(after, router, p, shares, outs, legs, i + 1)
  {
  }

  /** In `sellToken` every exchange gains its shares at the router's cost; in `buyToken` the
      router gains the outputs at the exchanges' cost. */
  function SplitFlow(p: SplitPayment, shares: seq<int>, outs: seq<int>, i: nat, router: Address, t: Token, x: Address)
    : int
    requires |shares| == |outs| == |p.splits|
  {
    if t == p.sellToken then PaidTo(p, shares, i, x) - (if x == router then SumFrom(shares, i) else 0)
    else if t == p.buyToken then (if x == router then SumFrom(outs, i) else 0) - PaidTo(p, outs, i, x)
    else 0
  }

  lemma {:induction false} SumFromPositive(values: seq<int>, i: nat)
    requires forall k :: i <= k < |values| ==> values[k] >= 0
    ensures SumFrom(values, i) >= 0
    decreases |values| - i
  {
    if i < |values| {
      SumFromPositive(values, i + 1);
    }
  }

  lemma {:induction false} HonestLegsPay(
      b: Balances, router: Address, p: SplitPayment, shares: seq<int>, outs: seq<int>, legs: seq<LegAnswer>, i: nat)
    requires |shares| == |outs| == |p.splits| && HonestLegs(b, router, p, shares, outs, legs, i)
    ensures SumFrom(outs, i) >= 0
    decreases |outs| - i
  {
    if i < |outs| {
      HonestLegsPay(HonestLeg(b, router, p, i, shares[i], outs[i]), router, p, shares, outs, legs, i + 1);
    }
  }

  // ---------- what a path conserves ----------

  /** The outputs of the hops from the `i`-th on. */
  function Outputs(b: Balances, router: Address, p: MultihopPayment, hops: seq<HopAnswer>, i: nat, amount: int)
    : seq<int>
    requires |p.path| == |p.floors| + 1
    decreases |p.floors| - i
  {
    if i >= |p.floors| then []
    else
      match Hop(b, router, p.sender, p.dex, p.path[i], p.path[i + 1], amount, p.floors[i], HopOf(hops, i))
      case Err(_) => []
      case Ok((c, out)) => [out] + Outputs(c, router, p, hops, i + 1, out)
  }

  /** A hop turns the amount in play into the output; unused input does not stay. */
  lemma HopTrades(
      start: Balances, b: Balances, router: Address, sender: Address, dex: Address, tokenIn: Token, tokenOut: Token,
      amount: int, floor: int, a: HopAnswer)
    requires tokenIn != tokenOut && sender != router && Gained(router, start, b, tokenIn, amount)
    requires Hop(b, router, sender, dex, tokenIn, tokenOut, amount, floor, a).Ok?
    ensures var (c, out) := Hop(b, router, sender, dex, tokenIn, tokenOut, amount, floor, a).value;
            out >= floor && out > 0 && Gained(router, start, c, tokenOut, out)
  {
    var (d, out) := Hop(b, router, sender, dex, tokenIn, tokenOut, amount, floor, a).value;
    var handed := Transfer(b, tokenIn, router, dex, amount, a.handsOver).value;
    var after := a.dex.after;
    var unused := Balance(after, tokenIn, router) - (Balance(b, tokenIn, router) - amount);
    PushCosts(router, b, tokenIn, dex, amount, a.handsOver);
    CarriedKeepsBalance(router, dex, handed, after);
    assert Gained(router, handed, after, tokenIn, 0);
    GainedChain(router, b, handed, after, tokenIn, -amount, 0);
    forall t ensures Balance(d, t, router) >= Balance(start, t, router) + if t == tokenOut then out else 0 {
      assert Balance(b, t, router) >= Balance(start, t, router) + if t == tokenIn then amount else 0;
      assert Balance(after, t, router) >= Balance(b, t, router) + if t == tokenIn then -amount else 0;
      MoveBalance(after, tokenIn, router, sender, unused, t, router);
    }
  }

  /** What a hop leaves on the ledgers, and that the router then has the output. */
  lemma HopOnHand(
      b: Balances, router: Address, sender: Address, dex: Address, tokenIn: Token, tokenOut: Token, amount: int,
      floor: int, a: HopAnswer)
    requires tokenIn != tokenOut
    requires Hop(b, router, sender, dex, tokenIn, tokenOut, amount, floor, a).Ok?
    ensures var (d, out) := Hop(b, router, sender, dex, tokenIn, tokenOut, amount, floor, a).value;
            NoDebt(d) && Balance(d, tokenOut, router) == Balance(b, tokenOut, router) + out
  {
    var after := a.dex.after;
    var unused := Balance(after, tokenIn, router) - (Balance(b, tokenIn, router) - amount);
    if unused > 0 {
      MoveKeepsNoDebt(after, tokenIn, router, sender, unused);
      MoveBalance(after, tokenIn, router, sender, unused, tokenOut, router);
    }
  }

  /** Whatever the exchange did, an accepted hop leaves the router with exactly the amount
      handed over less of the input and the reported output more; the input that was not used
      is what the exchange reported, and the sender has it. */
  lemma HopGivesBackUnused(
      b: Balances, router: Address, sender: Address, dex: Address, tokenIn: Token, tokenOut: Token, amount: int,
      floor: int, a: HopAnswer)
    requires tokenIn != tokenOut && sender != router
    requires Hop(b, router, sender, dex, tokenIn, tokenOut, amount, floor, a).Ok?
    ensures var (c, out) := Hop(b, router, sender, dex, tokenIn, tokenOut, amount, floor, a).value;
            && a.dex.HopReturns? && |a.dex.amounts| == 2
            && var after, unused := a.dex.after, a.dex.amounts[1];
               && 0 <= unused <= amount && out == a.dex.amounts[0] && out > 0 && out >= floor
               && Balance(c, tokenIn, router) == Balance(b, tokenIn, router) - amount
               && Balance(c, tokenOut, router) == Balance(b, tokenOut, router) + out
               && forall t, x :: Balance(c, t, x) == Balance(after, t, x) +
                    if t != tokenIn then 0
                    else (if x == sender then unused else 0) - (if x == router then unused else 0)
  {
    var after, unused := a.dex.after, a.dex.amounts[1];
    var c := Hop(b, router, sender, dex, tokenIn, tokenOut, amount, floor, a).value.0;
    forall t, x ensures Balance(c, t, x) == Balance(after, t, x) +
        if t != tokenIn then 0 else (if x == sender then unused else 0) - (if x == router then unused else 0) {
      MoveBalance(after, tokenIn, router, sender, unused, t, x);
    }
  }

  /** When a hop is accepted. */
  lemma HopAcceptedExactly(
      b: Balances, router: Address, sender: Address, dex: Address, tokenIn: Token, tokenOut: Token, amount: nat,
      floor: int, a: HopAnswer)
    requires tokenIn != tokenOut && NoDebt(b) && amount <= Balance(b, tokenIn, router)
    ensures Hop(b, router, sender, dex, tokenIn, tokenOut, amount, floor, a).Ok? <==>
              && a.handsOver && a.dex.HopReturns? && |a.dex.amounts| == 2
              && Carried(router, dex, Move(b, tokenIn, router, dex, amount), a.dex.after)
              && a.dex.amounts[0] == Balance(a.dex.after, tokenOut, router) - Balance(b, tokenOut, router)
              && a.dex.amounts[1] == Balance(a.dex.after, tokenIn, router) - (Balance(b, tokenIn, router) - amount)
              && 0 <= a.dex.amounts[1] <= amount && a.dex.amounts[0] > 0 && a.dex.amounts[0] >= floor
              && (a.dex.amounts[1] > 0 ==> a.returnsUnused)
  {
    hide Move, Carried;
  }

  /** After two or more hops the router has the last output, whatever it had before. */
  lemma {:induction false} HopsOnHand(
      b: Balances, router: Address, p: MultihopPayment, hops: seq<HopAnswer>, i: nat, amount: int)
    requires |p.path| == |p.floors| + 1 && Acyclic(p.path) && i < |p.floors|
    requires NoDebt(b) || i + 1 < |p.floors|
    requires Hops(b, router, p, hops, i, amount).Ok?
    ensures var (c, out) := Hops(b, router, p, hops, i, amount).value;
            Balance(c, p.path[|p.floors|], router) >= out
    decreases |p.floors| - i
  {
    hide Hop;
    HopOnHand(b, router, p.sender, p.dex, p.path[i], p.path[i + 1], amount, p.floors[i], HopOf(hops, i));
    var hop := Hop(b, router, p.sender, p.dex, p.path[i], p.path[i + 1], amount, p.floors[i], HopOf(hops, i)).value;
    if i + 1 < |p.floors| {
      HopsOnHand(hop.0, router, p, hops, i + 1, hop.1);
    } else {
      assert Hops(hop.0, router, p, hops, i + 1, hop.1) == Ok(hop);
      assert Balance(b, p.path[i + 1], router) >= 0;
    }
  }

  /** Along any path whose neighbours differ, the amount in play is always on top of what the
      router held at the start. */
  lemma {:induction false} HopsGain(
      start: Balances, b: Balances, router: Address, p: MultihopPayment, hops: seq<HopAnswer>, i: nat, amount: int)
    requires |p.path| == |p.floors| + 1 && Acyclic(p.path) && p.sender != router && i <= |p.floors|
    requires Gained(router, start, b, p.path[i], amount)
    requires Hops(b, router, p, hops, i, amount).Ok?
    ensures var (c, out) := Hops(b, router, p, hops, i, amount).value;
            Gained(router, start, c, p.path[|p.floors|], out)
    decreases |p.floors| - i
  {
    hide Hop;
    if i < |p.floors| {
      var a := HopOf(hops, i);
      HopTrades(start, b, router, p.sender, p.dex, p.path[i], p.path[i + 1], amount, p.floors[i], a);
      var (c, out) := Hop(b, router, p.sender, p.dex, p.path[i], p.path[i + 1], amount, p.floors[i], a).value;
      HopsGain(start, c, router, p, hops, i + 1, out);
    }
  }

  lemma HopMeetsFloor(
      b: Balances, router: Address, sender: Address, dex: Address, tokenIn: Token, tokenOut: Token, amount: int,
      floor: int, a: HopAnswer)
    requires Hop(b, router, sender, dex, tokenIn, tokenOut, amount, floor, a).Ok?
    ensures Hop(b, router, sender, dex, tokenIn, tokenOut, amount, floor, a).value.1 > 0
    ensures Hop(b, router, sender, dex, tokenIn, tokenOut, amount, floor, a).value.1 >= floor
  {
  }

  /** Every output reaches its floor, and the last one is what the path yields. */
  lemma {:induction false} HopsMeetFloors(
      b: Balances, router: Address, p: MultihopPayment, hops: seq<HopAnswer>, i: nat, amount: int)
    requires |p.path| == |p.floors| + 1 && i <= |p.floors|
    requires Hops(b, router, p, hops, i, amount).Ok?
    ensures var outs := Outputs(b, router, p, hops, i, amount);
            && |outs| == |p.floors| - i
            && (forall k :: 0 <= k < |outs| ==> outs[k] > 0 && outs[k] >= p.floors[i + k])
            && Hops(b, router, p, hops, i, amount).value.1 == (if outs == [] then amount else outs[|outs| - 1])
    decreases |p.floors| - i
  {
    hide Hop;
    if i < |p.floors| {
      HopMeetsFloor(b, router, p.sender, p.dex, p.path[i], p.path[i + 1], amount, p.floors[i], HopOf(hops, i));
      var hop := Hop(b, router, p.sender, p.dex, p.path[i], p.path[i + 1], amount, p.floors[i], HopOf(hops, i));
      var (c, out) := hop.value;
      HopsMeetFloors(c, router, p, hops, i + 1, out);
      var rest := Outputs(c, router, p, hops, i + 1, out);
      var outs := Outputs(b, router, p, hops, i, amount);
      assert outs == [out] + rest && out > 0 && out >= p.floors[i];
      forall k | 0 <= k < |outs| ensures outs[k] > 0 && outs[k] >= p.floors[i + k] {
        assert k > 0 ==> outs[k] == rest[k - 1] && rest[k - 1] >= p.floors[i + 1 + (k - 1)];
      }
    }
  }

  /** The balances with the input pulled in, from which the hops start. */
  function Pulled(s: State, router: Address, p: MultihopPayment): Balances
    requires HopCountFits(p)
  {
    Move(s.balances, p.path[0], p.sender, router, p.amountIn)
  }

  /** Each output reaches its floor, and the last one is `out`. */
  ghost predicate FloorsMet(p: MultihopPayment, outs: seq<int>, out: int) {
    && |outs| == |p.floors| >= 2 && out == outs[|outs| - 1]
    && forall k :: 0 <= k < |outs| ==> outs[k] > 0 && outs[k] >= p.floors[k]
  }

  lemma MultihopInGains(s: State, router: Address, now: U64, rate: int, p: MultihopPayment, a: MultihopAnswers)
    requires HopCountFits(p) && Acyclic(p.path) && p.sender != router
    requires MultihopIn(s, router, now, rate, p, a).Ok?
    ensures var (t, out, bps) := MultihopIn(s, router, now, rate, p, a).value;
            && FloorsMet(p, Outputs(Pulled(s, router, p), router, p, a.hops, 0, p.amountIn), out)
            && Gained(router, s.balances, t.balances, p.path[|p.floors|], out)
            && Balance(t.balances, p.path[|p.floors|], router) >= out
            && t.refunds == s.refunds && t.config == s.config
            && (rate >= 0 ==> bps >= 0)
  {
    HopsOnHand(Pulled(s, router, p), router, p, a.hops, 0, p.amountIn);
    hide AccrueUser, Hops, Outputs;
    var (t, volume) := AccrueUser(s, p.sender, now, p.amountIn).value;
    PullGains(router, t.balances, p.path[0], p.sender, p.amountIn, a.pulls);
    HopsGain(s.balances, Pulled(s, router, p), router, p, a.hops, 0, p.amountIn);
    HopsMeetFloors(Pulled(s, router, p), router, p, a.hops, 0, p.amountIn);
  }

  /** A payment along a path, whatever the exchange did: every output is positive and at
      least its floor. Of the last output the treasury gets all but the remainder, and the
      remainder goes to the recipient or, exactly if it is refused there, to the sender's
      refund. And the router holds no less of any token than at the start, plus, of the last
      token, exactly what it credited. */
  lemma MultihopConserves(s: State, router: Address, now: U64, p: MultihopPayment, a: MultihopAnswers)
    requires FeesNotNegative(s.config)
    ensures match RouteMultihop(s, router, now, p, a)
            case Err(_) => true
            case Ok((t, remainder)) =>
              && HopCountFits(p)
              && var outs := Outputs(Pulled(s, router, p), router, p, a.hops, 0, p.amountIn);
                 var final := p.path[|p.path| - 1];
                 && |outs| == |p.floors| && FloorsMet(p, outs, outs[|outs| - 1])
                 && 0 <= remainder <= outs[|outs| - 1]
                 && Conserved(router, s, t, p.sender, final)
                 && t.config == s.config
                 && (var swapped := MultihopIn(s, router, now, s.config.fees.value.bps, p, a);
                     && swapped.Ok? && swapped.value.0.refunds == s.refunds
                     && CalculateFee(outs[|outs| - 1], swapped.value.2, s.config.fees.value.cap)
                        == Some((outs[|outs| - 1] - remainder, remainder))
                     && Delivered(swapped.value.0, t, router, p.sender, p.recipient, final,
                                  s.config.fees.value.treasury, outs[|outs| - 1] - remainder, remainder,
                                  a.delivery.delivers))
  {
    hide MultihopIn, MultihopError, Deliver, Delivered, Gained, Outputs, CalculateFee;
    if RouteMultihop(s, router, now, p, a).Ok? {
      assert MultihopError(s.config, router, p, a) == None;
      var fees := s.config.fees.value;
      MultihopInGains(s, router, now, fees.bps, p, a);
      var (t, out, bps) := MultihopIn(s, router, now, fees.bps, p, a).value;
      DeliverConserves(s.balances, t, router, p.sender, p.recipient, p.path[|p.path| - 1], out, bps, fees, a.delivery);
      DeliverPays(t, router, p.sender, p.recipient, p.path[|p.path| - 1], out, bps, fees, a.delivery);
    }
  }

  // ---------- a path through an honest exchange ----------

  /** The ledgers when the exchange returns from hop `i`: it has paid `out`, left `unused` of
      the input with the router, and done nothing else. */
  function HonestReply(
      b: Balances, router: Address, p: MultihopPayment, i: nat, amount: int, out: int, unused: int): Balances
    requires i + 1 < |p.path|
  {
    var paid := Move(Move(b, p.path[i], router, p.dex, amount), p.path[i + 1], p.dex, router, out);
    if unused > 0 then Move(paid, p.path[i], p.dex, router, unused) else paid
  }

  /** The ledgers after hop `i`: the unused input is with the sender. */
  function HonestHop(
      b: Balances, router: Address, p: MultihopPayment, i: nat, amount: int, out: int, unused: int): Balances
    requires i + 1 < |p.path|
  {
    var reply := HonestReply(b, router, p, i, amount, out, unused);
    if unused > 0 then Move(reply, p.path[i], router, p.sender, unused) else reply
  }

  /** From hop `i` on the exchange has the outputs, pays them, leaves what it does not use,
      and reports both; the outputs reach the floors. */
  predicate HonestFrom(
      b: Balances, router: Address, p: MultihopPayment, hops: seq<HopAnswer>, outs: seq<int>, unused: seq<int>, i: nat,
      amount: int)
    requires |p.path| == |p.floors| + 1 == |outs| + 1 == |unused| + 1
    decreases |outs| - i
  {
    i < |outs| ==>
      && HopOf(hops, i).handsOver && HopOf(hops, i).returnsUnused
      && HopOf(hops, i).dex ==
         HopReturns(HonestReply(b, router, p, i, amount, outs[i], unused[i]), [outs[i], unused[i]])
      && outs[i] > 0 && outs[i] >= p.floors[i] && outs[i] <= Balance(b, p.path[i + 1], p.dex)
      && 0 <= unused[i] <= amount
      && HonestFrom(HonestHop(b, router, p, i, amount, outs[i], unused[i]), router, p, hops, outs, unused, i + 1,
                    outs[i])
  }

  lemma HonestReplyBalance(
      b: Balances, router: Address, p: MultihopPayment, i: nat, amount: int, out: int, unused: nat, t: Token,
      x: Address)
    requires i + 1 < |p.path|
    ensures Balance(HonestReply(b, router, p, i, amount, out, unused), t, x) ==
            Balance(b, t, x) + Swapped(p.path[i], amount, p.path[i + 1], out, router, p.dex, t, x)
            - Swapped(p.path[i], unused, p.path[i + 1], 0, router, p.dex, t, x)
  {
    var handed := Move(b, p.path[i], router, p.dex, amount);
    MoveBalance(b, p.path[i], router, p.dex, amount, t, x);
    MoveBalance(handed, p.path[i + 1], p.dex, router, out, t, x);
    MoveBalance(Move(handed, p.path[i + 1], p.dex, router, out), p.path[i], p.dex, router, unused, t, x);
  }

  lemma HonestHopBalance(
      b: Balances, router: Address, p: MultihopPayment, i: nat, amount: int, out: int, unused: nat, t: Token,
      x: Address)
    requires i + 1 < |p.path|
    ensures Balance(HonestHop(b, router, p, i, amount, out, unused), t, x) ==
            Balance(b, t, x) + Swapped(p.path[i], amount, p.path[i + 1], out, router, p.dex, t, x)
            + GivenBack(p, i, unused, t, x)
  {
    HonestReplyBalance(b, router, p, i, amount, out, unused, t, x);
    MoveBalance(HonestReply(b, router, p, i, amount, out, unused), p.path[i], router, p.sender, unused, t, x);
  }

  /** Unused input of hop `i` ends with the sender and not with the exchange. */
  function GivenBack(p: MultihopPayment, i: nat, unused: int, t: Token, x: Address): int
    requires i < |p.path|
  {
    if t == p.path[i] then (if x == p.sender then unused else 0) - (if x == p.dex then unused else 0) else 0
  }

  /** The same for all hops from `i` on. */
  function GivenBackFrom(p: MultihopPayment, unused: seq<int>, i: nat, t: Token, x: Address): int
    requires |unused| < |p.path|
    decreases |unused| - i
  {
    if i >= |unused| then 0 else GivenBack(p, i, unused[i], t, x) + GivenBackFrom(p, unused, i + 1, t, x)
  }

  /** What each hop left unused reaches the sender in that hop's token; no other account but
      the exchange's is touched by it. */
  lemma {:induction false} UnusedReachesSender(p: MultihopPayment, unused: seq<int>, i: nat, k: nat)
    requires |unused| < |p.path| && Acyclic(p.path) && k < |p.path| && p.sender != p.dex
    ensures GivenBackFrom(p, unused, i, p.path[k], p.sender) == if i <= k < |unused| then unused[k] else 0
    ensures forall x :: x != p.sender && x != p.dex ==> GivenBackFrom(p, unused, i, p.path[k], x) == 0
    decreases |unused| - i
  {
    if i < |unused| {
      UnusedReachesSender(p, unused, i + 1, k);
    }
  }

  lemma HonestReplyIsCarried(
      b: Balances, router: Address, p: MultihopPayment, i: nat, amount: int, out: int, unused: int)
    requires i + 1 < |p.path| && p.path[i] != p.path[i + 1] && p.dex != router
    requires NoDebt(b) && 0 < amount <= Balance(b, p.path[i], router)
    requires 0 <= out <= Balance(b, p.path[i + 1], p.dex) && 0 <= unused <= amount
    ensures Carried(router, p.dex, Move(b, p.path[i], router, p.dex, amount),
                    HonestReply(b, router, p, i, amount, out, unused))
  {
    var tokenIn, tokenOut := p.path[i], p.path[i + 1];
    var handed := Move(b, tokenIn, router, p.dex, amount);
    var paid := Move(handed, tokenOut, p.dex, router, out);
    var reply := HonestReply(b, router, p, i, amount, out, unused);
    MoveKeepsNoDebt(b, tokenIn, router, p.dex, amount);
    MoveBalance(b, tokenIn, router, p.dex, amount, tokenOut, p.dex);
    MoveKeepsNoDebt(handed, tokenOut, p.dex, router, out);
    assert Balance(b, tokenIn, p.dex) >= 0;
    MoveBalance(b, tokenIn, router, p.dex, amount, tokenIn, p.dex);
    MoveBalance(handed, tokenOut, p.dex, router, out, tokenIn, p.dex);
    if unused > 0 {
      MoveKeepsNoDebt(paid, tokenIn, p.dex, router, unused);
    }
    hide Move;
    forall k | k in handed && k.1 == router ensures Get(reply, k) >= handed[k] {
      MoveBalance(handed, tokenOut, p.dex, router, out, k.0, router);
      MoveBalance(paid, tokenIn, p.dex, router, unused, k.0, router);
    }
  }

  lemma HonestHopSettles(
      b: Balances, router: Address, p: MultihopPayment, a: HopAnswer, i: nat, amount: int, out: int, unused: int)
    requires i + 1 < |p.path| && p.path[i] != p.path[i + 1] && p.dex != router && p.sender != router && i < |p.floors|
    requires NoDebt(b) && 0 < amount <= Balance(b, p.path[i], router)
    requires a.handsOver && a.returnsUnused
    requires a.dex == HopReturns(HonestReply(b, router, p, i, amount, out, unused), [out, unused])
    requires out > 0 && out >= p.floors[i] && out <= Balance(b, p.path[i + 1], p.dex) && 0 <= unused <= amount
    ensures Hop(b, router, p.sender, p.dex, p.path[i], p.path[i + 1], amount, p.floors[i], a) ==
            Ok((HonestHop(b, router, p, i, amount, out, unused), out))
    ensures NoDebt(HonestHop(b, router, p, i, amount, out, unused))
    ensures out <= Balance(HonestHop(b, router, p, i, amount, out, unused), p.path[i + 1], router)
  {
    var tokenIn, tokenOut := p.path[i], p.path[i + 1];
    var reply := HonestReply(b, router, p, i, amount, out, unused);
    HonestReplyIsCarried(b, router, p, i, amount, out, unused);
    assert NoDebt(reply);
    assert Balance(b, tokenOut, router) >= 0;
    HonestReplyBalance(b, router, p, i, amount, out, unused, tokenIn, router);
    HonestReplyBalance(b, router, p, i, amount, out, unused, tokenOut, router);
    if unused > 0 {
      MoveKeepsNoDebt(reply, tokenIn, router, p.sender, unused);
      MoveBalance(reply, tokenIn, router, p.sender, unused, tokenOut, router);
    }
    hide Move, Carried, HonestReply;
  }

  /** `given` goes from the router to the exchange and `got` comes back in another token. */
  function Swapped(
      tokenIn: Token, given: int, tokenOut: Token, got: int, router: Address, dex: Address, t: Token, x: Address): int
  {
    (if t == tokenIn then (if x == dex then given else 0) - (if x == router then given else 0) else 0)
    + (if t == tokenOut then (if x == router then got else 0) - (if x == dex then got else 0) else 0)
  }

  /** Along an honest path every hop succeeds; in sum only the input and the last output
      change hands between router and exchange, and the sender gets back what was not used. */
  lemma {:induction false} HonestHopsSettle(
      b: Balances, router: Address, p: MultihopPayment, hops: seq<HopAnswer>, outs: seq<int>, unused: seq<int>, i: nat,
      amount: int)
    requires |p.path| == |p.floors| + 1 == |outs| + 1 == |unused| + 1
    requires Acyclic(p.path) && p.dex != router && p.sender != router && i <= |outs|
    requires NoDebt(b) && 0 < amount <= Balance(b, p.path[i], router)
    requires HonestFrom(b, router, p, hops, outs, unused, i, amount)
    ensures var last := if i < |outs| then outs[|outs| - 1] else amount;
            match Hops(b, router, p, hops, i, amount)
            case Err(_) => false
            case Ok((c, out)) =>
              && out == last && last > 0 && NoDebt(c)
              && forall t, x :: Balance(c, t, x) ==
                   Balance(b, t, x) + Swapped(p.path[i], amount, p.path[|outs|], last, router, p.dex, t, x)
                   + GivenBackFrom(p, unused, i, t, x)
    decreases |outs| - i
  {
    if i < |outs| {
      var after := HonestHop(b, router, p, i, amount, outs[i], unused[i]);
      HonestHopSettles(b, router, p, HopOf(hops, i), i, amount, outs[i], unused[i]);
      HonestHopsSettle(after, router, p, hops, outs, unused, i + 1, outs[i]);
      hide Hop, HonestHop, HonestFrom, GivenBack;
      forall t, x ensures Balance(after, t, x) ==
                          Balance(b, t, x) + Swapped(p.path[i], amount, p.path[i + 1], outs[i], router, p.dex, t, x)
                          + GivenBack(p, i, unused[i], t, x) {
        HonestHopBalance(b, router, p, i, amount, outs[i], unused[i], t, x);
      }
    }
  }

  /** What an honest path moves: input from sender to exchange; the last output from exchange
      to the treasury and the recipient. */
  function PathFlow(p: MultihopPayment, treasury: Address, out: int, fee: int, t: Token, x: Address): int
    requires |p.path| > 0
  {
    (if t == p.path[0] then (if x == p.dex then p.amountIn else 0) - (if x == p.sender then p.amountIn else 0) else 0)
    + (if t == p.path[|p.path| - 1] then
         (if x == treasury then fee else 0)
             + (if x == p.recipient then out - fee else 0) - (if x == p.dex then out else 0)
       else 0)
  }

  /** A path payment that passes the checks, through an honest exchange, goes through for
      every path length and moves exactly that, with what each hop did not use back with the
      sender: nothing stays with the router. */
  lemma HonestPathSettles(
      s: State, router: Address, now: U64, p: MultihopPayment, outs: seq<int>, unused: seq<int>, a: MultihopAnswers)
    requires NoDebt(s.balances) && FeesNotNegative(s.config) && p.dex != router
    requires MultihopError(s.config, router, p, a) == None && p.amountIn > 0 && |outs| == |unused| == |p.floors|
    requires p.amountIn <= Balance(s.balances, p.path[0], p.sender)
    requires HonestFrom(Pulled(s, router, p), router, p, a.hops, outs, unused, 0, p.amountIn)
    requires a.pulls && a.delivery == Delivery(true, true)
    requires outs[|outs| - 1] < I128_HALF && outs[|outs| - 1] * s.config.fees.value.bps < I128_HALF
    ensures AccrueUser(s, p.sender, now, p.amountIn).Ok? <==> RouteMultihop(s, router, now, p, a).Ok?
    ensures match RouteMultihop(s, router, now, p, a)
            case Err(_) => true
            case Ok((t, remainder)) =>
              var out := outs[|outs| - 1];
              && t.refunds == s.refunds && 0 <= remainder <= out
              && forall token, x :: Balance(t.balances, token, x) ==
                   Balance(s.balances, token, x)
                       + PathFlow(p, s.config.fees.value.treasury, out, out - remainder, token, x)
                       + GivenBackFrom(p, unused, 0, token, x)
  {
    hide AccrueUser, MultihopError, MultihopIn, HonestFrom, Deliver, PathFlow, PathInflow;
    var fees := s.config.fees.value;
    HonestIn(s, router, now, p, outs, unused, a);
    if AccrueUser(s, p.sender, now, p.amountIn).Ok? {
      var (t, out, bps) := MultihopIn(s, router, now, fees.bps, p, a).value;
      PathDelivery(s.balances, t, router, p, unused, out, bps, fees, a.delivery);
    }
  }

  /** What has moved when the last hop returns: the output is with the router. */
  function PathInflow(p: MultihopPayment, router: Address, out: int, t: Token, x: Address): int
    requires |p.path| > 0
  {
    (if t == p.path[0] then (if x == p.dex then p.amountIn else 0) - (if x == p.sender then p.amountIn else 0) else 0)
    + (if t == p.path[|p.path| - 1] then (if x == router then out else 0) - (if x == p.dex then out else 0) else 0)
  }

  lemma HonestIn(
      s: State, router: Address, now: U64, p: MultihopPayment, outs: seq<int>, unused: seq<int>, a: MultihopAnswers)
    requires NoDebt(s.balances) && HopCountFits(p) && Acyclic(p.path) && p.dex != router && p.sender != router
    requires s.config.fees.Some? && s.config.fees.value.bps >= 0 && |outs| == |unused| == |p.floors|
    requires 0 < p.amountIn <= Balance(s.balances, p.path[0], p.sender) && a.pulls
    requires HonestFrom(Pulled(s, router, p), router, p, a.hops, outs, unused, 0, p.amountIn)
    ensures var accrued := AccrueUser(s, p.sender, now, p.amountIn);
            var bps := s.config.fees.value.bps;
            match MultihopIn(s, router, now, bps, p, a)
            case Err(_) => accrued.Err?
            case Ok((t, out, rate)) =>
              && accrued.Ok? && t.refunds == s.refunds && out == outs[|outs| - 1] && out > 0 && 0 <= rate <= bps
              && forall token, x :: Balance(t.balances, token, x) ==
                   Balance(s.balances, token, x) + PathInflow(p, router, out, token, x)
                   + GivenBackFrom(p, unused, 0, token, x)
  {
    hide AccrueUser, Hops, HonestFrom;
    PulledBalances(s, router, p);
    HonestHopsSettle(Pulled(s, router, p), router, p, a.hops, outs, unused, 0, p.amountIn);
  }

  lemma {:induction false} RouterGetsNothingBack(
      p: MultihopPayment, unused: seq<int>, i: nat, t: Token, router: Address)
    requires |unused| < |p.path| && p.sender != router && p.dex != router
    ensures GivenBackFrom(p, unused, i, t, router) == 0
    decreases |unused| - i
  {
    if i < |unused| {
      RouterGetsNothingBack(p, unused, i + 1, t, router);
    }
  }

  lemma DebtFree(b: Balances, token: Token, account: Address)
    requires NoDebt(b)
    ensures Balance(b, token, account) >= 0
  {
  }

  lemma PathDelivery(
      start: Balances, t: State, router: Address, p: MultihopPayment, unused: seq<int>, out: nat, bps: nat,
      fees: FeeConfig, d: Delivery)
    requires HopCountFits(p) && NoDebt(start) && p.dex != router && p.sender != router && |unused| == |p.floors|
    requires forall token, x ::
               Balance(t.balances, token, x) ==
               Balance(start, token, x) + PathInflow(p, router, out, token, x) + GivenBackFrom(p, unused, 0, token, x)
    requires fees.cap >= 0 && bps <= fees.bps && out < I128_HALF && out * fees.bps < I128_HALF
    requires d == Delivery(true, true)
    ensures match Deliver(t, router, p.sender, p.recipient, p.path[|p.path| - 1], out, bps, fees, d)
            case Err(_) => false
            case Ok((u, remainder)) =>
              && u.refunds == t.refunds && 0 <= remainder <= out
              && forall token, x :: Balance(u.balances, token, x) ==
                   Balance(start, token, x) + PathFlow(p, fees.treasury, out, out - remainder, token, x)
                   + GivenBackFrom(p, unused, 0, token, x)
  {
    var final := p.path[|p.path| - 1];
    hide Deliver, GivenBackFrom, CalculateFee, Get, PathFlow, Outflow, NoDebt;
    RouterGetsNothingBack(p, unused, 0, final, router);
    DebtFree(start, final, router);
    InflowAtRouter(p, router, out);
    hide PathInflow;
    OutputDelivered(t, router, p, out, bps, fees, d);
    var (u, remainder) := Deliver(t, router, p.sender, p.recipient, final, out, bps, fees, d).value;
    forall token, x ensures Balance(u.balances, token, x) ==
                            Balance(start, token, x) + PathFlow(p, fees.treasury, out, out - remainder, token, x)
                            + GivenBackFrom(p, unused, 0, token, x) {
      FlowsAdd(p, router, fees.treasury, out, out - remainder, token, x);
    }
  }

  lemma InflowAtRouter(p: MultihopPayment, router: Address, out: int)
    requires HopCountFits(p) && p.dex != router && p.sender != router
    ensures PathInflow(p, router, out, p.path[|p.path| - 1], router) == out
  {
  }

  lemma FlowsAdd(
      p: MultihopPayment, router: Address, treasury: Address, out: int, fee: int, t: Token, x: Address)
    requires |p.path| > 0
    ensures PathFlow(p, treasury, out, fee, t, x) ==
            PathInflow(p, router, out, t, x) + Outflow(p, router, treasury, out, fee, t, x)
  {
  }

  /** What leaves the router with the last output. */
  function Outflow(
      p: MultihopPayment, router: Address, treasury: Address, out: int, fee: int, t: Token, x: Address): int
    requires |p.path| > 0
  {
    if t != p.path[|p.path| - 1] then 0
    else
      (if x == treasury then fee else 0)
      + (if x == p.recipient then out - fee else 0) - (if x == router then out else 0)
  }

  lemma OutputDelivered(
      t: State, router: Address, p: MultihopPayment, out: nat, bps: nat, fees: FeeConfig, d: Delivery)
    requires HopCountFits(p) && Balance(t.balances, p.path[|p.path| - 1], router) >= out
    requires fees.cap >= 0 && bps <= fees.bps && out < I128_HALF && out * fees.bps < I128_HALF
    requires d == Delivery(true, true)
    ensures match Deliver(t, router, p.sender, p.recipient, p.path[|p.path| - 1], out, bps, fees, d)
            case Err(_) => false
            case Ok((u, remainder)) =>
              && u.refunds == t.refunds && 0 <= remainder <= out
              && forall token, x :: Balance(u.balances, token, x) ==
                   Balance(t.balances, token, x) + Outflow(p, router, fees.treasury, out, out - remainder, token, x)
  {
    hide Deliver, CalculateFee;
    var final := p.path[|p.path| - 1];
    DeliverySucceeds(t, router, p.sender, p.recipient, final, out, bps, fees, d);
    DeliverPays(t, router, p.sender, p.recipient, final, out, bps, fees, d);
  }

  lemma PulledBalances(s: State, router: Address, p: MultihopPayment)
    requires HopCountFits(p) && NoDebt(s.balances) && p.sender != router
    requires 0 < p.amountIn <= Balance(s.balances, p.path[0], p.sender)
    ensures NoDebt(Pulled(s, router, p)) && p.amountIn <= Balance(Pulled(s, router, p), p.path[0], router)
    ensures forall t, x :: Balance(Pulled(s, router, p), t, x) == Balance(s.balances, t, x) +
              if t != p.path[0] then 0
              else (if x == router then p.amountIn else 0) - (if x == p.sender then p.amountIn else 0)
  {
    MoveKeepsNoDebt(s.balances, p.path[0], p.sender, router, p.amountIn);
    assert Balance(s.balances, p.path[0], router) >= 0;
    forall t, x ensures Balance(Pulled(s, router, p), t, x) == Balance(s.balances, t, x) +
              if t != p.path[0] then 0
              else (if x == router then p.amountIn else 0) - (if x == p.sender then p.amountIn else 0) {
      MoveBalance(s.balances, p.path[0], p.sender, router, p.amountIn, t, x);
    }
  }

  lemma MultihopInIgnoresConfig(
      s: State, router: Address, now: U64, bps: int, p: MultihopPayment, a: MultihopAnswers, config: Config)
    requires HopCountFits(p)
    ensures match MultihopIn(s, router, now, bps, p, a)
            case Err(e) => MultihopIn(s.(config := config), router, now, bps, p, a) == Err(e)
            case Ok((t, out, rate)) =>
              MultihopIn(s.(config := config), router, now, bps, p, a) == Ok((t.(config := config), out, rate))
  {
    hide Hops, Move, UserRecord.Accrue;
  }

  /** A swap pause stops single, batched and split swaps, but a swap along a path does
      exactly what it does without a pause. */
  lemma SwapPauseSparesPaths(s: State, router: Address, now: U64, p: MultihopPayment, a: MultihopAnswers)
    requires s.config.pauseLevel == SwapsOnly && !s.config.frozen
    ensures forall swap, answers :: RouteSwap(s, router, now, swap, answers) == Err(Paused)
    ensures forall items :: RouteSwaps(s, router, now, items) == Err(Paused)
    ensures forall split, answers :: RouteSplit(s, router, now, split, answers) == Err(Paused)
    ensures var unpaused := s.config.(pauseLevel := Unpaused);
            match RouteMultihop(s, router, now, p, a)
            case Err(e) => RouteMultihop(s.(config := unpaused), router, now, p, a) == Err(e)
            case Ok((t, remainder)) =>
              RouteMultihop(s.(config := unpaused), router, now, p, a) == Ok((t.(config := unpaused), remainder))
  {
    hide MultihopIn;
    if MultihopError(s.config, router, p, a) == None {
      MultihopInIgnoresConfig(s, router, now, s.config.fees.value.bps, p, a, s.config.(pauseLevel := Unpaused));
    }
  }

  /** A state at the pause level for swaps, in which a sender and an exchange hold what a path
      of two hops needs. */
  function PausedState(sender: Address, dex: Address, treasury: Address, path: seq<Token>, amount: I128): State
    requires |path| == 3
  {
    State(map[(path[0], sender) := amount, (path[1], dex) := amount, (path[2], dex) := amount], map[], map[], map[],
          Config(Some(FeeConfig(treasury, 0, 0)), amount, 0, false, SwapsOnly, {}, {dex}, None, false, 0, map[]))
  }

  /** Both hops pay one for one, and everything is approved. */
  function PausedAnswers(start: Balances, router: Address, p: MultihopPayment): MultihopAnswers
    requires |p.path| == 3
  {
    var first := HonestHop(start, router, p, 0, p.amountIn, p.amountIn, 0);
    var second := HonestHop(first, router, p, 1, p.amountIn, p.amountIn, 0);
    var hops := [HopAnswer(true, HopReturns(first, [p.amountIn, 0]), true),
                 HopAnswer(true, HopReturns(second, [p.amountIn, 0]), true)];
    MultihopAnswers(true, true, true, true, hops, Delivery(true, true))
  }

  /** A path payment that goes through at the pause level for swaps. */
  lemma PathPassesSwapPause(router: Address, now: U64, p: MultihopPayment, treasury: Address)
    requires |p.path| == 3 && Acyclic(p.path) && p.floors == [1, 1] && 0 < p.amountIn <= UserRecord.DAILY_MAX_LIMIT
    requires p.sender != p.recipient && p.sender != p.dex && p.sender != router && p.dex != router
    ensures var s := PausedState(p.sender, p.dex, treasury, p.path, p.amountIn);
            && s.config.pauseLevel == SwapsOnly
            && RouteMultihop(s, router, now, p, PausedAnswers(Pulled(s, router, p), router, p)).Ok?
  {
    var s := PausedState(p.sender, p.dex, treasury, p.path, p.amountIn);
    var a := PausedAnswers(Pulled(s, router, p), router, p);
    var outs, unused := [p.amountIn, p.amountIn], [0, 0];
    assert AccrueUser(s, p.sender, now, p.amountIn).Ok?;
    hide AccrueUser, RouteMultihop;
    assert MultihopError(s.config, router, p, a) == None;
    hide MultihopError;
    var b := Pulled(s, router, p);
    var c := HonestHop(b, router, p, 0, p.amountIn, p.amountIn, 0);
    var d := HonestHop(c, router, p, 1, p.amountIn, p.amountIn, 0);
    MoveBalance(s.balances, p.path[0], p.sender, router, p.amountIn, p.path[1], p.dex);
    MoveBalance(s.balances, p.path[0], p.sender, router, p.amountIn, p.path[2], p.dex);
    HonestHopBalance(b, router, p, 0, p.amountIn, p.amountIn, 0, p.path[2], p.dex);
    hide Move, HonestHop, HonestReply, Pulled;
    assert HonestFrom(d, router, p, a.hops, outs, unused, 2, p.amountIn);
    assert HonestFrom(c, router, p, a.hops, outs, unused, 1, p.amountIn);
    assert HonestFrom(b, router, p, a.hops, outs, unused, 0, p.amountIn);
    HonestPathSettles(s, router, now, p, outs, unused, a);
  }
}
