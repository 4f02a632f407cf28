/** What an accepted payment has passed and what it costs, without the functions that compute
    it: the checks, the rate for the sender's volume, the fee, and who gets what. */
module PaymentLaws {
  import opened ByteOrder
  import opened DirectPayments
  import opened Fees
  import opened RefundLedger
  import opened RouterCore
  import opened SwapPayments
  import opened TokenLedger
  import opened Wrappers
  import RawSwaps
  import Split
  import UserRecord

  /** The sender's lifetime volume as a reader sees it. */
  function VolumeOf(s: State, user: Address, now: U64): int {
    UserRecord.Load(EntriesOf(s, user), now).volume
  }

  /** The amount times the rate, or the largest amount where that overflows. */
  function DirectProduct(amount: nat, rate: nat): int {
    if amount * rate < I128_HALF then amount * rate else I128_HALF - 1
  }

  /** The amount times the rate, or the amount where that overflows. */
  function MetaProduct(amount: nat, rate: nat): int {
    if amount * rate < I128_HALF then amount * rate else amount
  }

  lemma AccruedVolume(s: State, user: Address, now: U64, amount: I128)
    requires AccrueUser(s, user, now, amount).Ok?
    ensures AccrueUser(s, user, now, amount).value.1 == VolumeOf(s, user, now)
  {
    hide UserRecord.Load, UserRecord.Book;
  }

  // ---------- direct and relayed payments ----------

  /** From `s` to `t` the sender paid `amount`: `fee` to the treasury and the rest to the
      recipient; or, if the token refuses the recipient, to the router, which owes it to the
      sender. Nothing else moved and nobody else's refund changed. */
  ghost predicate Paid(s: State, t: State, router: Address, p: Payment, treasury: Address, fee: int, delivers: bool) {
    var remainder := p.amount - fee;
    if delivers || remainder == 0 then
      && t.refunds == s.refunds
      && PaidBoth(s.balances, t.balances, p.token, p.sender, treasury, fee, p.recipient, remainder)
    else
      && t.refunds == s.refunds[(p.sender, p.token) := RefundOf(s.refunds, p.sender, p.token) + remainder]
      && PaidBoth(s.balances, t.balances, p.token, p.sender, treasury, fee, router, remainder)
  }

  /** What the other contracts have to do for a payment with this fee. */
  predicate Carries(s: State, p: Payment, fee: int, a: Answers) {
    && Balance(s.balances, p.token, p.sender) >= p.amount
    && (fee > 0 ==> a.feeMoves)
    && (p.amount > fee ==>
          a.delivers || (a.holds && RefundOf(s.refunds, p.sender, p.token) + p.amount - fee < I128_HALF))
  }

  lemma RefundNotNegative(r: Refunds, user: Address, token: Token)
    requires AllPositive(r)
    ensures RefundOf(r, user, token) >= 0
  {
  }

  /** The transfers that a payment makes. */
  lemma PayMoves(s: State, router: Address, treasury: Address, p: Payment, fee: nat, a: Answers)
    requires fee <= p.amount <= Balance(s.balances, p.token, p.sender) && AllPositive(s.refunds)
    ensures Pay(s, router, treasury, p, fee, a).Ok? <==> Carries(s, p, fee, a)
    ensures match Pay(s, router, treasury, p, fee, a)
            case Err(_) => true
            case Ok(t) =>
              var remainder := p.amount - fee;
              var delivered := a.delivers || remainder == 0;
              var b := if fee > 0 then Move(s.balances, p.token, p.sender, treasury, fee) else s.balances;
              && t.balances == (if remainder == 0 then b
                                else Move(b, p.token, p.sender, if delivered then p.recipient else router, remainder))
              && t.refunds == (if delivered then s.refunds
                               else s.refunds[(p.sender, p.token) :=
                                                RefundOf(s.refunds, p.sender, p.token) + remainder])
  {
    MoveBalance(s.balances, p.token, p.sender, treasury, fee, p.token, p.sender);
    RefundNotNegative(s.refunds, p.sender, p.token);
    hide Move, Balance, RefundOf;
  }

  lemma PayExactly(s: State, router: Address, treasury: Address, p: Payment, fee: nat, a: Answers)
    requires fee <= p.amount <= Balance(s.balances, p.token, p.sender) && AllPositive(s.refunds)
    ensures Pay(s, router, treasury, p, fee, a).Ok? <==> Carries(s, p, fee, a)
    ensures Pay(s, router, treasury, p, fee, a).Ok? ==>
              Paid(s, Pay(s, router, treasury, p, fee, a).value, router, p, treasury, fee, a.delivers)
  {
    hide Pay, Carries, PaidBoth, Move, Balance, RefundOf;
    PayMoves(s, router, treasury, p, fee, a);
    var remainder := p.amount - fee;
    TwoTransfers(s.balances, p.token, p.sender, treasury, fee, p.recipient, remainder);
    TwoTransfers(s.balances, p.token, p.sender, treasury, fee, router, remainder);
  }

  /** What the checks are for: sender and recipient differ, the recipient is not on the
      blacklist, and the amount is positive and within bounds. */
  predicate Admissible(c: Config, sender: Address, recipient: Address, amount: int) {
    && sender != recipient && recipient !in c.blacklist
    && 0 < amount <= c.maxAmount && c.minLimit <= amount
  }

  /** A large amount needs a configured oracle that vouches for the sender. */
  predicate Vouched(c: Config, amount: int, kycVerified: bool) {
    c.kycThreshold.Some? && amount > c.kycThreshold.value ==> c.hasKycOracle && kycVerified
  }

  /** The rate for the sender and the fee for a payment of this product. */
  ghost predicate IsDue(s: State, now: U64, p: Payment, rate: nat, product: int, fee: int) {
    s.config.fees.Some? && p.amount > 0 ==>
      && IsRate(rate, s.config.fees.value.bps, VolumeOf(s, p.sender, now))
      && IsFee(fee, p.amount, product, s.config.fees.value.cap)
  }

  /** The sender's record, as booked. */
  function Booked(s: State, now: U64, sender: Address, amount: I128)
    : Result<(UserRecord.Entries, I128), UserRecord.Error>
  {
    UserRecord.Accrue(EntriesOf(s, sender), now, amount)
  }

  /** The core of a payment: booked and carried, it takes the amount from the sender, of it
      the fee at the rate for the volume before it. */
  lemma ProcessSettles(
      s: State, router: Address, now: U64, fees: FeeConfig, p: Payment, a: Answers, rate: nat, fee: int)
    requires fees.bps >= 0 && fees.cap >= 0 && AllPositive(s.refunds) && p.amount > 0
    requires IsRate(rate, fees.bps, VolumeOf(s, p.sender, now))
    requires IsFee(fee, p.amount, DirectProduct(p.amount, rate), fees.cap)
    ensures Process(s, router, now, fees, p, a).Ok? <==> Booked(s, now, p.sender, p.amount).Ok? && Carries(s, p, fee, a)
    ensures match Process(s, router, now, fees, p, a)
            case Err(_) => true
            case Ok(t) =>
              && t == s.(balances := t.balances, refunds := t.refunds, records := t.records)
              && t.records == s.records[p.sender := Booked(s, now, p.sender, p.amount).value.0]
              && 0 <= fee <= p.amount
              && Paid(s, t, router, p, fees.treasury, fee, a.delivers)
  {
    hide Pay, Paid, Carries, UserRecord.Accrue, UserRecord.Load, DirectFee, IsFee, IsRate;
    if Booked(s, now, p.sender, p.amount).Ok? {
      var (t, volume) := AccrueUser(s, p.sender, now, p.amount).value;
      AccruedVolume(s, p.sender, now, p.amount);
      EffectiveBpsIsRate(fees.bps, volume, rate);
      DirectFeeIsFee(p.amount, rate, fees.cap, fee);
      FeesArePartOfAmount(p.amount, rate, fees.cap);
      PaySettles(t, s, router, fees.treasury, p, fee, a);
    }
  }

  /** A payment is accepted exactly if the contract is open, the payment admissible and
      approved, within the rate limit and the daily limit, and the token carries it. Then the
      sender pays the amount, of it the fee at the rate for the volume before it. */
  lemma PaymentSettles(s: State, router: Address, now: U64, p: Payment, a: Answers, rate: nat, fee: int)
    requires FeesNotNegative(s.config) && AllPositive(s.refunds)
    requires IsDue(s, now, p, rate, if p.amount > 0 then DirectProduct(p.amount, rate) else 0, fee)
    ensures RoutePayment(s, router, now, p, a).Ok? <==>
              && !s.config.frozen && s.config.pauseLevel != FullHalt && s.config.fees.Some?
              && Admissible(s.config, p.sender, p.recipient, p.amount) && Vouched(s.config, p.amount, a.kycVerified)
              && a.signed && p.sender != router && a.withinRate
              && Booked(s, now, p.sender, p.amount).Ok? && Carries(s, p, fee, a)
    ensures match RoutePayment(s, router, now, p, a)
            case Err(_) => true
            case Ok(t) =>
              && t == s.(balances := t.balances, refunds := t.refunds, records := t.records)
              && t.records == s.records[p.sender := Booked(s, now, p.sender, p.amount).value.0]
              && 0 <= fee <= p.amount
              && Paid(s, t, router, p, s.config.fees.value.treasury, fee, a.delivers)
  {
    hide Process, Paid, Carries, UserRecord.Accrue, UserRecord.Load, IsFee, IsRate;
    if s.config.fees.Some? && p.amount > 0 {
      ProcessSettles(s, router, now, s.config.fees.value, p, a, rate, fee);
    }
  }

  lemma PaySettles(t: State, s: State, router: Address, treasury: Address, p: Payment, fee: nat, a: Answers)
    requires t == s.(records := t.records, metaNonces := t.metaNonces) && AllPositive(s.refunds) && fee <= p.amount
    ensures Carries(s, p, fee, a) ==> Balance(t.balances, p.token, p.sender) >= p.amount
    ensures Balance(t.balances, p.token, p.sender) >= p.amount ==>
              (Pay(t, router, treasury, p, fee, a).Ok? <==> Carries(s, p, fee, a))
    ensures match Pay(t, router, treasury, p, fee, a)
            case Err(_) => true
            case Ok(u) =>
              && u == t.(balances := u.balances, refunds := u.refunds)
              && (Balance(t.balances, p.token, p.sender) >= p.amount ==>
                    Paid(s, u, router, p, treasury, fee, a.delivers))
  {
    PayFrame(t, router, treasury, p, fee, a);
    hide Pay, PaidBoth;
    if Balance(t.balances, p.token, p.sender) >= p.amount {
      PayExactly(t, router, treasury, p, fee, a);
    }
  }

  lemma PayFrame(s: State, router: Address, treasury: Address, p: Payment, fee: int, a: Answers)
    ensures match Pay(s, router, treasury, p, fee, a)
            case Err(_) => true
            case Ok(t) => t == s.(balances := t.balances, refunds := t.refunds)
  {
    hide Move;
  }

  /** The same for relayed payments, with deadline, nonce, signature and allowance in place of
      the sender's approval; the nonce goes up by one. */
  lemma MetaSettles(
      s: State, router: Address, now: U64, p: Payment, nonce: U64, deadline: U64, signatureValid: bool, a: Answers,
      rate: nat, fee: int)
    requires FeesNotNegative(s.config) && AllPositive(s.refunds)
    requires IsDue(s, now, p, rate, if p.amount > 0 then MetaProduct(p.amount, rate) else 0, fee)
    ensures RoutePaymentMeta(s, router, now, p, nonce, deadline, signatureValid, a).Ok? <==>
              && !s.config.frozen && s.config.pauseLevel != FullHalt && s.config.fees.Some?
              && now <= deadline && nonce == MetaNonceOf(s, p.sender) && signatureValid
              && nonce < 0xFFFF_FFFF_FFFF_FFFF
              && Admissible(s.config, p.sender, p.recipient, p.amount) && Vouched(s.config, p.amount, a.kycVerified)
              && p.sender != router && a.allowance >= p.amount
              && Booked(s, now, p.sender, p.amount).Ok? && Carries(s, p, fee, a)
    ensures match RoutePaymentMeta(s, router, now, p, nonce, deadline, signatureValid, a)
            case Err(_) => true
            case Ok(t) =>
              && t == s.(balances := t.balances, refunds := t.refunds, records := t.records, metaNonces := t.metaNonces)
              && t.records == s.records[p.sender := Booked(s, now, p.sender, p.amount).value.0]
              && t.metaNonces == s.metaNonces[p.sender := nonce + 1]
              && 0 <= fee <= p.amount
              && Paid(s, t, router, p, s.config.fees.value.treasury, fee, a.delivers)
  {
    hide Pay, Paid, Carries, UserRecord.Accrue, UserRecord.Load, MetaFee, IsFee, IsRate;
    if s.config.fees.Some? && p.amount > 0 && Booked(s, now, p.sender, p.amount).Ok? && nonce < 0xFFFF_FFFF_FFFF_FFFF {
      var u := s.(metaNonces := s.metaNonces[p.sender := nonce + 1]);
      var (t, volume) := AccrueUser(u, p.sender, now, p.amount).value;
      AccruedVolume(u, p.sender, now, p.amount);
      EffectiveBpsIsRate(s.config.fees.value.bps, volume, rate);
      MetaFeeIsFee(p.amount, rate, s.config.fees.value.cap, fee);
      FeesArePartOfAmount(p.amount, rate, s.config.fees.value.cap);
      PaySettles(t, s, router, s.config.fees.value.treasury, p, fee, a);
    }
  }

  // ---------- batches of payments, and refunds ----------

  /** An item is admissible, vouched for, and within the rate limit. */
  predicate ItemPasses(c: Config, item: Item) {
    && Admissible(c, item.0.sender, item.0.recipient, item.0.amount)
    && Vouched(c, item.0.amount, item.1.kycVerified) && item.1.withinRate
  }

  /** Item `k` is the sender's first in the batch from the `i`-th on. */
  ghost predicate IsFirstOf(items: seq<Item>, i: nat, k: int) {
    i <= k < |items| && forall j :: i <= j < k ==> items[j].0.sender != items[k].0.sender
  }

  /** Every sender not seen before approves its own first item. */
  ghost predicate FirstsApprove(items: seq<Item>, router: Address, i: nat, seen: set<Address>) {
    forall k :: IsFirstOf(items, i, k) && items[k].0.sender !in seen ==>
      items[k].1.signed && items[k].0.sender != router
  }

  lemma FirstsUnfold(items: seq<Item>, router: Address, i: nat, seen: set<Address>)
    requires i < |items|
    ensures FirstsApprove(items, router, i, seen) <==>
              && (items[i].0.sender in seen || (items[i].1.signed && items[i].0.sender != router))
              && FirstsApprove(items, router, i + 1, seen + {items[i].0.sender})
  {
    assert IsFirstOf(items, i, i);
    forall k | i + 1 <= k < |items| && items[k].0.sender != items[i].0.sender
      ensures IsFirstOf(items, i, k) <==> IsFirstOf(items, i + 1, k)
    {
    }
    forall k | i + 1 <= k && IsFirstOf(items, i, k) ensures items[k].0.sender != items[i].0.sender {
    }
  }

  lemma ItemChecked(c: Config, item: Item)
    ensures PaymentError(c, item.0, item.1) == None && item.1.withinRate <==> ItemPasses(c, item)
  {
  }

  /** The checks of a batch pass exactly if every item does and every sender not seen before
      approves its own first item. */
  lemma {:induction false} BatchChecksExactly(
      c: Config, router: Address, items: seq<Item>, i: nat, seen: set<Address>)
    ensures BatchError(c, router, items, i, seen) == None <==>
              (forall k :: i <= k < |items| ==> ItemPasses(c, items[k])) && FirstsApprove(items, router, i, seen)
    decreases |items| - i
  {
    hide ItemPasses, PaymentError, FirstsApprove;
    if i < |items| {
      var (p, a) := items[i];
      ItemChecked(c, items[i]);
      FirstsUnfold(items, router, i, seen);
      BatchChecksExactly(c, router, items, i + 1, seen + {p.sender});
    } else {
      NoFirsts(items, router, i, seen);
    }
  }

  lemma NoFirsts(items: seq<Item>, router: Address, i: nat, seen: set<Address>)
    requires i >= |items|
    ensures FirstsApprove(items, router, i, seen)
  {
  }

  /** The payments of a batch from the `i`-th on, routed one by one as one transaction. */
  function RouteEach(s: State, router: Address, now: U64, items: seq<Item>, i: nat): Result<State, Error>
    decreases |items| - i
  {
    if i >= |items| then Ok(s)
    else
      match RoutePayment(s, router, now, items[i].0, items[i].1)
      case Err(e) => Err(e)
      case Ok(t) => RouteEach(t, router, now, items, i + 1)
  }

  lemma ProcessKeepsConfig(s: State, router: Address, now: U64, fees: FeeConfig, p: Payment, a: Answers)
    requires Process(s, router, now, fees, p, a).Ok?
    ensures Process(s, router, now, fees, p, a).value.config == s.config
  {
    hide Pay, UserRecord.Accrue, DirectFee;
    var (t, volume) := AccrueUser(s, p.sender, now, p.amount).value;
    PayFrame(t, router, fees.treasury, p, DirectFee(p.amount, EffectiveBps(fees.bps, volume), fees.cap), a);
  }

  lemma {:induction false} EachIsBatch(
      s: State, router: Address, now: U64, items: seq<Item>, i: nat, seen: set<Address>)
    requires OpenError(s.config) == None && s.config.fees.Some?
    requires forall k :: i <= k < |items| ==> items[k].1.signed
    requires router !in seen
    ensures RouteEach(s, router, now, items, i).Ok? <==>
              && BatchError(s.config, router, items, i, seen) == None
              && ProcessAll(s, router, now, s.config.fees.value, items, i).Ok?
    ensures RouteEach(s, router, now, items, i).Ok? ==>
              RouteEach(s, router, now, items, i) == ProcessAll(s, router, now, s.config.fees.value, items, i)
    decreases |items| - i
  {
    if i < |items| {
      var (p, a) := items[i];
      var fees := s.config.fees.value;
      hide Process, PaymentError;
      if p.sender != router && Process(s, router, now, fees, p, a).Ok? {
        var t := Process(s, router, now, fees, p, a).value;
        ProcessKeepsConfig(s, router, now, fees, p, a);
        EachIsBatch(t, router, now, items, i + 1, seen + {p.sender});
      }
    }
  }

  /** A batch whose senders all approve is accepted exactly if its payments, one by one as one
      transaction, are, and both end in the same state. */
  lemma BatchIsOneByOne(s: State, router: Address, now: U64, items: seq<Item>)
    requires items != [] && forall k :: 0 <= k < |items| ==> items[k].1.signed
    ensures RoutePayments(s, router, now, items).Ok? <==> RouteEach(s, router, now, items, 0).Ok?
    ensures RoutePayments(s, router, now, items).Ok? ==>
              RoutePayments(s, router, now, items) == RouteEach(s, router, now, items, 0)
  {
    if OpenError(s.config) == None && s.config.fees.Some? {
      EachIsBatch(s, router, now, items, 0, {});
    }
  }

  /** A withdrawal needs the user's approval and a positive amount within the refund; it moves
      the amount from the router to the user, lowers the refund by it, and nothing else. */
  lemma WithdrawalSettles(
      s: State, router: Address, user: Address, token: Token, amount: I128, signed: bool, moves: bool)
    requires AllPositive(s.refunds)
    ensures DirectPayments.WithdrawRefund(s, router, user, token, amount, signed, moves).Ok? <==>
              && signed && user != router && moves
              && 0 < amount <= RefundOf(s.refunds, user, token) && amount <= Balance(s.balances, token, router)
    ensures match DirectPayments.WithdrawRefund(s, router, user, token, amount, signed, moves)
            case Err(_) => true
            case Ok(t) =>
              && t == s.(balances := t.balances, refunds := t.refunds)
              && PaidBoth(s.balances, t.balances, token, router, user, amount, user, 0)
              && (forall u, k :: RefundOf(t.refunds, u, k) ==
                    RefundOf(s.refunds, u, k) - if u == user && k == token then amount else 0)
  {
    if DirectPayments.WithdrawRefund(s, router, user, token, amount, signed, moves).Ok? {
      TwoTransfers(s.balances, token, router, user, amount, user, 0);
    }
  }

  /** A claim is the withdrawal of the whole refund, and reports it. */
  lemma ClaimIsWithdrawal(s: State, router: Address, user: Address, token: Token, signed: bool, moves: bool)
    requires AllPositive(s.refunds)
    ensures var refund := RefundOf(s.refunds, user, token);
            match DirectPayments.ClaimAllRefunds(s, router, user, token, signed, moves)
            case Err(_) =>
              refund < I128_HALF ==>
                DirectPayments.WithdrawRefund(s, router, user, token, refund, signed, moves).Err?
            case Ok((t, paid)) =>
              && paid == refund < I128_HALF
              && DirectPayments.WithdrawRefund(s, router, user, token, refund, signed, moves) == Ok(t)
  {
  }

  // ---------- swaps ----------

  lemma FeeIsNat(fee: int, amount: nat, product: int, cap: nat)
    requires IsFee(fee, amount, product, cap) && product >= 0
    ensures 0 <= fee <= amount
  {
    assert FeeAllowed(0, amount, product, cap);
  }

  /** What it takes to deliver an output: the product with the rate does not overflow, the
      token takes the fee, and the remainder is taken or can be owed. */
  predicate Deliverable(s: State, sender: Address, token: Token, out: int, rate: int, fee: int, d: Delivery) {
    && out * rate < I128_HALF && out - fee < I128_HALF && (fee > 0 ==> d.feeMoves)
    && (out > fee && !d.delivers ==> RefundOf(s.refunds, sender, token) + out - fee < I128_HALF)
  }

  /** An output that the router has is delivered exactly if it is deliverable. The fee is the
      largest one allowed, and the rest is the remainder. */
  lemma DeliversExactly(
      s: State, router: Address, sender: Address, recipient: Address, token: Token, out: nat, rate: nat,
      fees: FeeConfig, d: Delivery, fee: int)
    requires Balance(s.balances, token, router) >= out && fees.cap >= 0 && AllPositive(s.refunds)
    requires IsFee(fee, out, out * rate, fees.cap)
    ensures Deliver(s, router, sender, recipient, token, out, rate, fees, d).Ok? <==>
              Deliverable(s, sender, token, out, rate, fee, d)
    ensures match Deliver(s, router, sender, recipient, token, out, rate, fees, d)
            case Err(_) => true
            case Ok((t, remainder)) =>
              && 0 <= fee <= out && remainder == out - fee
              && t == s.(balances := t.balances, refunds := t.refunds)
              && Delivered(s, t, router, sender, recipient, token, fees.treasury, fee, remainder, d.delivers)
  {
    CalculatedFeeIsFee(out, rate, fees.cap, fee);
    ProductSign(out, rate);
    FeeIsNat(fee, out, out * rate, fees.cap);
    hide CalculateFee, IsFee, Delivered;
    MoveBalance(s.balances, token, router, fees.treasury, fee, token, router);
    hide Move;
    if Deliver(s, router, sender, recipient, token, out, rate, fees, d).Ok? {
      DeliverPays(s, router, sender, recipient, token, out, rate, fees, d);
    }
  }

  /** An output passes exactly if it is at least the sender's floor and, where the sender gave
      a quote, at least one and no further below the quote than the ceiling allows. The
      ceiling is that of the pair, up to five percent, or else the general one. */
  lemma OutputPassesExactly(c: Config, swap: SwapPayment, out: int)
    requires c.maxSlippageBps >= 0
    ensures OutputError(c, swap, out) == None <==>
              && out >= swap.minAmountOut
              && (swap.expectedAmountOut > 0 ==>
                    var pair := (swap.sellToken, swap.buyToken);
                    var ceiling := if pair in c.pairSlippageBps then c.pairSlippageBps[pair] else c.maxSlippageBps;
                    && (pair in c.pairSlippageBps ==> 0 <= ceiling <= 500)
                    && swap.expectedAmountOut * ceiling < I128_HALF
                    && out >= 1
                    && 10_000 * out >= swap.expectedAmountOut * (10_000 - ceiling))
  {
    if swap.expectedAmountOut > 0 {
      var pair := (swap.sellToken, swap.buyToken);
      var ceiling := if pair in c.pairSlippageBps then c.pairSlippageBps[pair] else c.maxSlippageBps;
      if ceiling >= 0 {
        FloorExactly(swap.expectedAmountOut, ceiling, out);
      }
    }
  }

  lemma FloorExactly(expected: nat, bps: nat, out: int)
    requires 0 < expected < I128_HALF
    ensures expected * bps >= 0
    ensures match SlippageFloor(expected, bps)
            case None => expected * bps >= I128_HALF
            case Some(floor) =>
              && expected * bps < I128_HALF
              && (out >= floor <==> out >= 1 && 10_000 * out >= expected * (10_000 - bps))
  {
    ProductSign(expected, bps);
    assert expected * (10_000 - bps) == 10_000 * expected - expected * bps;
  }

  /** What the router measures on its own balance of the bought token. */
  function Measured(s: State, router: Address, swap: SwapPayment, a: SwapAnswers): int {
    if a.dex.SwapReturns?
    then Balance(a.dex.after, swap.buyToken, router) - Balance(s.balances, swap.buyToken, router)
    else 0
  }

  /** The contract takes swaps, and this one is admissible, approved, in time, and on a
      registered exchange. */
  predicate SwapOpen(c: Config, router: Address, now: U64, swap: SwapPayment, a: SwapAnswers) {
    && a.signed && swap.sender != router && c.pauseLevel == Unpaused
    && swap.sellToken != swap.buyToken && swap.minAmountOut > 0
    && (swap.deadline == 0 || now <= swap.deadline) && swap.dex in c.dexes
    && Admissible(c, swap.sender, swap.recipient, swap.amountIn)
  }

  /** The sender has the input, the token moves it to the router and on to the exchange, and
      the exchange returns with nothing taken from the router and the right token named. */
  predicate SwapCarries(s: State, router: Address, swap: SwapPayment, a: SwapAnswers) {
    && Balance(s.balances, swap.sellToken, swap.sender) >= swap.amountIn && a.pulls && a.handsOver
    && a.dex.SwapReturns? && a.dex.token == swap.buyToken
    && Carried(router, swap.dex, Handed(s.balances, router, swap), a.dex.after)
  }

  lemma SwapInExactly(
      s: State, router: Address, now: U64, fees: FeeConfig, swap: SwapPayment, a: SwapAnswers, rate: int)
    requires NoDebt(s.balances) && fees.bps >= 0 && IsRate(rate, fees.bps, VolumeOf(s, swap.sender, now))
    ensures SwapIn(s, router, now, fees, swap, a).Ok? <==>
              && SwapOpen(s.config, router, now, swap, a) && Booked(s, now, swap.sender, swap.amountIn).Ok?
              && SwapCarries(s, router, swap, a) && OutputError(s.config, swap, Measured(s, router, swap, a)) == None
    ensures match SwapIn(s, router, now, fees, swap, a)
            case Err(_) => true
            case Ok((t, out, bps)) =>
              && out == Measured(s, router, swap, a) && bps == rate && out >= 0
              && t == s.(balances := a.dex.after,
                         records := s.records[swap.sender := Booked(s, now, swap.sender, swap.amountIn).value.0])
              && Balance(t.balances, swap.buyToken, router) >= out
  {
    hide OutputError, UserRecord.Accrue, UserRecord.Load, IsRate;
    assert SwapError(s.config, router, now, swap, a) == None <==> SwapOpen(s.config, router, now, swap, a);
    if SwapOpen(s.config, router, now, swap, a) && Booked(s, now, swap.sender, swap.amountIn).Ok? {
      hide SwapOpen, SwapError;
      AccruedVolume(s, swap.sender, now, swap.amountIn);
      EffectiveBpsIsRate(fees.bps, VolumeOf(s, swap.sender, now), rate);
      SwapLegExactly(s, router, swap, a);
      hide Carried, Move, SwapLeg;
    }
  }

  /** Once the input is pulled, the exchange is called with it. */
  lemma SwapLegExactly(s: State, router: Address, swap: SwapPayment, a: SwapAnswers)
    requires NoDebt(s.balances) && swap.sender != router && swap.sellToken != swap.buyToken && swap.amountIn > 0
    ensures var b := Move(s.balances, swap.sellToken, swap.sender, router, swap.amountIn);
            var leg := SwapLeg(b, router, swap.dex, swap.sellToken, swap.buyToken, swap.amountIn, a.handsOver, a.dex);
            && (leg.Ok? <==> a.handsOver && a.dex.SwapReturns?
                             && Carried(router, swap.dex, Handed(s.balances, router, swap), a.dex.after))
            && (leg.Ok? ==> leg.value == (a.dex.after, Measured(s, router, swap, a)) && leg.value.1 >= 0
                            && Balance(a.dex.after, swap.buyToken, router) >= leg.value.1)
  {
    var b := Move(s.balances, swap.sellToken, swap.sender, router, swap.amountIn);
    assert Balance(s.balances, swap.sellToken, router) >= 0 && Balance(s.balances, swap.buyToken, router) >= 0;
    MoveBalance(s.balances, swap.sellToken, swap.sender, router, swap.amountIn, swap.sellToken, router);
    MoveBalance(s.balances, swap.sellToken, swap.sender, router, swap.amountIn, swap.buyToken, router);
    hide Move, Carried;
    var leg := SwapLeg(b, router, swap.dex, swap.sellToken, swap.buyToken, swap.amountIn, a.handsOver, a.dex);
    if leg.Ok? {
      SwapLegTrades(b, router, swap.dex, swap.sellToken, swap.buyToken, swap.amountIn, a.handsOver, a.dex);
    }
  }

  /** A swap payment is accepted exactly if it is open, booked, carried, its measured output
      passes and can be delivered. Then of that output the treasury gets the fee at the rate
      for the sender's volume, and the rest is delivered or owed. */
  lemma SwapSettles(s: State, router: Address, now: U64, swap: SwapPayment, a: SwapAnswers, rate: nat, fee: int)
    requires FeesNotNegative(s.config) && AllPositive(s.refunds) && NoDebt(s.balances)
    requires s.config.fees.Some? ==>
               var out := Measured(s, router, swap, a);
               && IsRate(rate, s.config.fees.value.bps, VolumeOf(s, swap.sender, now))
               && IsFee(fee, out, out * rate, s.config.fees.value.cap)
    ensures var out := Measured(s, router, swap, a);
            RouteSwap(s, router, now, swap, a).Ok? <==>
              && !s.config.frozen && s.config.fees.Some? && SwapOpen(s.config, router, now, swap, a)
              && Booked(s, now, swap.sender, swap.amountIn).Ok?
              && SwapCarries(s, router, swap, a) && OutputError(s.config, swap, out) == None
              && Deliverable(s, swap.sender, swap.buyToken, out, rate, fee, a.delivery)
    ensures match RouteSwap(s, router, now, swap, a)
            case Err(_) => true
            case Ok((t, remainder)) =>
              && 0 <= fee && remainder == Measured(s, router, swap, a) - fee >= 0
              && t == s.(balances := t.balances, refunds := t.refunds, records := t.records)
              && t.records == s.records[swap.sender := Booked(s, now, swap.sender, swap.amountIn).value.0]
              && Delivered(s.(balances := a.dex.after), t, router, swap.sender, swap.recipient, swap.buyToken,
                           s.config.fees.value.treasury, fee, remainder, a.delivery.delivers)
  {
    hide SwapIn, Deliver, Delivered, Deliverable, UserRecord.Accrue, UserRecord.Load, IsRate, IsFee, OutputError,
        Carried, Measured, Handed;
    if !s.config.frozen && s.config.fees.Some? {
      var fees := s.config.fees.value;
      SwapInExactly(s, router, now, fees, swap, a, rate);
      if SwapIn(s, router, now, fees, swap, a).Ok? {
        var (t, out, _) := SwapIn(s, router, now, fees, swap, a).value;
        DeliversExactly(t, router, swap.sender, swap.recipient, swap.buyToken, out, rate, fees, a.delivery, fee);
        SameDeliverable(s, t, swap.sender, swap.buyToken, out, rate, fee, a.delivery);
        if RouteSwap(s, router, now, swap, a).Ok? {
          SameDelivered(t, s.(balances := a.dex.after), RouteSwap(s, router, now, swap, a).value.0, router, swap.sender,
                        swap.recipient, swap.buyToken, fees.treasury, fee, out - fee, a.delivery.delivers);
        }
      }
    }
  }

  /** The swaps of a batch from the `i`-th on, routed one by one as one transaction, with the
      sum of what they deliver. */
  function SwapEach(s: State, router: Address, now: U64, items: seq<SwapItem>, i: nat): Result<(State, int), Error>
    decreases |items| - i
  {
    if i >= |items| then Ok((s, 0))
    else
      match RouteSwap(s, router, now, items[i].0, items[i].1)
      case Err(e) => Err(e)
      case Ok((t, delivered)) =>
        match SwapEach(t, router, now, items, i + 1)
        case Err(e) => Err(e)
        case Ok((u, rest)) => Ok((u, delivered + rest))
  }

  lemma OpenSwapIsProcessed(s: State, router: Address, now: U64, swap: SwapPayment, a: SwapAnswers)
    requires SwapsOpenError(s.config) == None && FeesNotNegative(s.config)
    ensures var r := ProcessSwap(s, router, now, s.config.fees.value, swap, a);
            RouteSwap(s, router, now, swap, a) == r && (r.Ok? ==> r.value.0.config == s.config && r.value.1 >= 0)
  {
    hide ProcessSwap, Conserved;
    SwapConserves(s, router, now, s.config.fees.value, swap, a);
  }

  lemma {:induction false} EachIsSwapBatch(
      s: State, router: Address, now: U64, items: seq<SwapItem>, i: nat, before: nat)
    requires SwapsOpenError(s.config) == None && FeesNotNegative(s.config) && before < I128_HALF
    ensures var each := SwapEach(s, router, now, items, i);
            var all := SwapAll(s, router, now, s.config.fees.value, items, i, before);
            && (each.Ok? ==> each.value.1 >= 0)
            && (all.Ok? <==> each.Ok? && before + each.value.1 < I128_HALF)
            && (all.Ok? ==> all.value == (each.value.0, before + each.value.1))
    decreases |items| - i
  {
    hide ProcessSwap, RouteSwap;
    if i < |items| {
      var (swap, a) := items[i];
      var fees := s.config.fees.value;
      OpenSwapIsProcessed(s, router, now, swap, a);
      var first := ProcessSwap(s, router, now, fees, swap, a);
      if first.Ok? {
        var (t, delivered) := first.value;
        EachIsSwapBatch(t, router, now, items, i + 1, if before + delivered < I128_HALF then before + delivered else 0);
      }
    }
  }

  /** A batch of swaps is accepted exactly if its swaps, one by one as one transaction, are and
      what they deliver adds up within range; both end in the same state, and the sum is
      reported. */
  lemma SwapBatchIsOneByOne(s: State, router: Address, now: U64, items: seq<SwapItem>)
    requires items != [] && FeesNotNegative(s.config)
    ensures var each := SwapEach(s, router, now, items, 0);
            && (RouteSwaps(s, router, now, items).Ok? <==> each.Ok? && each.value.1 < I128_HALF)
            && (RouteSwaps(s, router, now, items).Ok? ==> RouteSwaps(s, router, now, items) == each)
  {
    hide ProcessSwap, SwapAll;
    if SwapsOpenError(s.config) == None {
      EachIsSwapBatch(s, router, now, items, 0, 0);
    }
  }

  // ---------- splits and paths ----------

  /** The outputs of the legs from the `i`-th on. */
  function LegOutputs(
      b: Balances, router: Address, p: SplitPayment, shares: seq<int>, legs: seq<LegAnswer>, i: nat): seq<int>
    requires |shares| == |p.splits|
    decreases |p.splits| - i
  {
    if i >= |p.splits| then []
    else
      match SwapLeg(b, router, p.splits[i].dex, p.sellToken, p.buyToken, shares[i], LegOf(legs, i).handsOver,
          LegOf(legs, i).dex)
      case Err(_) => []
      case Ok((c, out)) => [out] + LegOutputs(c, router, p, shares, legs, i + 1)
  }

  /** Each leg of an accepted split has a positive share, computed without overflow, and what
      the legs add up to is in range. */
  lemma {:induction false} LegsAreInRange(
      b: Balances, router: Address, p: SplitPayment, shares: seq<int>, legs: seq<LegAnswer>, i: nat, total: int)
    requires |shares| == |p.splits| && i <= |shares|
    requires SwapShares(b, router, p, shares, legs, i, total).Ok?
    ensures forall k :: i <= k < |shares| ==> shares[k] > 0
    ensures forall k :: i <= k < |shares| - 1 ==> InI128(p.amountIn * p.splits[k].weightBps)
    ensures i < |shares| ==> InI128(SwapShares(b, router, p, shares, legs, i, total).value.1)
    decreases |shares| - i
  {
    hide SwapLeg;
    if i < |shares| {
      var a := LegOf(legs, i);
      var (c, out) := SwapLeg(b, router, p.splits[i].dex, p.sellToken, p.buyToken, shares[i], a.handsOver, a.dex).value;
      LegsAreInRange(c, router, p, shares, legs, i + 1, total + out);
    }
  }

  /** Each leg of an accepted split reaches its own floor, and what they add up to is exactly
      what the router measures from the first to the last. */
  lemma {:induction false} LegsMeetFloors(
      b: Balances, router: Address, p: SplitPayment, shares: seq<int>, legs: seq<LegAnswer>, i: nat, total: int)
    requires |shares| == |p.splits| && i <= |shares| && p.sellToken != p.buyToken
    requires SwapShares(b, router, p, shares, legs, i, total).Ok?
    ensures var (c, out) := SwapShares(b, router, p, shares, legs, i, total).value;
            var outs := LegOutputs(b, router, p, shares, legs, i);
            && |outs| == |p.splits| - i && out == total + Split.Total(outs) && out >= total
            && out - total == Balance(c, p.buyToken, router) - Balance(b, p.buyToken, router)
            && (forall k :: 0 <= k < |outs| ==> outs[k] >= p.splits[i + k].minAmountOut)
    decreases |shares| - i
  {
    if i < |shares| {
      var a := LegOf(legs, i);
      var (c, out) := SwapLeg(b, router, p.splits[i].dex, p.sellToken, p.buyToken, shares[i], a.handsOver, a.dex).value;
      SwapLegTrades(b, router, p.splits[i].dex, p.sellToken, p.buyToken, shares[i], a.handsOver, a.dex);
      hide SwapLeg;
      LegsMeetFloors(c, router, p, shares, legs, i + 1, total + out);
      var rest := LegOutputs(c, router, p, shares, legs, i + 1);
      var outs := LegOutputs(b, router, p, shares, legs, i);
      assert outs == [out] + rest && outs[1..] == rest;
      forall k | 0 <= k < |outs| ensures outs[k] >= p.splits[i + k].minAmountOut {
        assert k > 0 ==> outs[k] == rest[k - 1] && rest[k - 1] >= p.splits[i + 1 + (k - 1)].minAmountOut;
      }
    }
  }

  /** The contract takes swaps, and this one is admissible, approved, and over routes that
      are accepted. */
  ghost predicate SplitOpen(c: Config, router: Address, p: SplitPayment, a: SplitAnswers) {
    && !c.frozen && c.pauseLevel == Unpaused && c.fees.Some?
    && a.signed && p.sender != router && p.sellToken != p.buyToken
    && Split.CheckSplits(p.splits, c.dexes) == None
    && Admissible(c, p.sender, p.recipient, p.amountIn)
  }

  /** The ledgers from which the legs of a split start. */
  function SplitPulled(s: State, router: Address, p: SplitPayment): Balances {
    Move(s.balances, p.sellToken, p.sender, router, p.amountIn)
  }

  lemma SplitInShape(s: State, router: Address, now: U64, p: SplitPayment, a: SplitAnswers, rate: int)
    requires RouteSplit(s, router, now, p, a).Ok? && NoDebt(s.balances) && FeesNotNegative(s.config)
    requires IsRate(rate, s.config.fees.value.bps, VolumeOf(s, p.sender, now))
    ensures SplitOpen(s.config, router, p, a) && Booked(s, now, p.sender, p.amountIn).Ok?
    ensures Balance(s.balances, p.sellToken, p.sender) >= p.amountIn && a.pulls
    ensures SplitIn(s, router, now, s.config.fees.value, p, a).Ok?
    ensures var (t, total, bps) := SplitIn(s, router, now, s.config.fees.value, p, a).value;
            var outs := LegOutputs(SplitPulled(s, router, p), router, p, Split.Shares(p.amountIn, p.splits), a.legs, 0);
            && bps == rate && 0 <= total < I128_HALF && |outs| == |p.splits| && total == Split.Total(outs)
            && t == s.(balances := t.balances,
                       records := s.records[p.sender := Booked(s, now, p.sender, p.amountIn).value.0])
            && Balance(t.balances, p.buyToken, router) == Balance(s.balances, p.buyToken, router) + total
            && (forall k :: 0 <= k < |outs| ==> outs[k] >= p.splits[k].minAmountOut)
    ensures forall k :: 0 <= k < |p.splits| ==> Split.Shares(p.amountIn, p.splits)[k] > 0
  {
    hide UserRecord.Accrue, UserRecord.Load, SwapShares, LegOutputs, Move, IsRate, Split.CheckSplits, Deliver;
    AccruedVolume(s, p.sender, now, p.amountIn);
    EffectiveBpsIsRate(s.config.fees.value.bps, VolumeOf(s, p.sender, now), rate);
    LegsAreInRange(SplitPulled(s, router, p), router, p, Split.Shares(p.amountIn, p.splits), a.legs, 0, 0);
    LegsMeetFloors(SplitPulled(s, router, p), router, p, Split.Shares(p.amountIn, p.splits), a.legs, 0, 0);
    MoveBalance(s.balances, p.sellToken, p.sender, router, p.amountIn, p.buyToken, router);
  }

  /** An accepted split passed the checks, reached the floor of every leg, and delivers what
      the legs made together, less the fee on it at the rate for the sender's volume. */
  lemma SplitSettles(s: State, router: Address, now: U64, p: SplitPayment, a: SplitAnswers, rate: nat, fee: int)
    requires FeesNotNegative(s.config) && AllPositive(s.refunds) && NoDebt(s.balances)
    requires RouteSplit(s, router, now, p, a).Ok? && s.config.fees.Some?
    requires IsRate(rate, s.config.fees.value.bps, VolumeOf(s, p.sender, now))
    requires var shares := Split.Shares(p.amountIn, p.splits);
             var outs := LegOutputs(SplitPulled(s, router, p), router, p, shares, a.legs, 0);
             IsFee(fee, Split.Total(outs), Split.Total(outs) * rate, s.config.fees.value.cap)
    ensures SplitOpen(s.config, router, p, a) && Booked(s, now, p.sender, p.amountIn).Ok?
    ensures Balance(s.balances, p.sellToken, p.sender) >= p.amountIn && a.pulls
    ensures forall k :: 0 <= k < |p.splits| ==> Split.Shares(p.amountIn, p.splits)[k] > 0
    ensures SplitIn(s, router, now, s.config.fees.value, p, a).Ok?
    ensures var (t, remainder) := RouteSplit(s, router, now, p, a).value;
            var swapped := SplitIn(s, router, now, s.config.fees.value, p, a).value.0;
            var outs := LegOutputs(SplitPulled(s, router, p), router, p, Split.Shares(p.amountIn, p.splits), a.legs, 0);
            && |outs| == |p.splits| && (forall k :: 0 <= k < |outs| ==> outs[k] >= p.splits[k].minAmountOut)
            && 0 <= fee && remainder == Split.Total(outs) - fee >= 0 && Split.Total(outs) < I128_HALF
            && swapped.refunds == s.refunds
            && Balance(swapped.balances, p.buyToken, router) ==
               Balance(s.balances, p.buyToken, router) + Split.Total(outs)
            && t == s.(balances := t.balances, refunds := t.refunds, records := t.records)
            && t.records == s.records[p.sender := Booked(s, now, p.sender, p.amountIn).value.0]
            && Delivered(swapped, t, router, p.sender, p.recipient, p.buyToken, s.config.fees.value.treasury, fee,
                         remainder, a.delivery.delivers)
  {
    SplitInShape(s, router, now, p, a, rate);
    hide SplitIn, SplitOpen, Deliver, Delivered, UserRecord.Accrue, UserRecord.Load, IsRate, IsFee, LegOutputs;
    var fees := s.config.fees.value;
    var (t, total, _) := SplitIn(s, router, now, fees, p, a).value;
    assert Balance(s.balances, p.buyToken, router) >= 0;
    DeliversExactly(t, router, p.sender, p.recipient, p.buyToken, total, rate, fees, a.delivery, fee);
  }

  /** The contract is not halted, and the payment is admissible, vouched for, approved, within
      the rate limit, on a registered exchange, and along three to five different tokens with
      a positive floor for each hop. */
  ghost predicate PathOpen(c: Config, router: Address, p: MultihopPayment, a: MultihopAnswers) {
    && !c.frozen && c.pauseLevel != FullHalt && c.fees.Some?
    && 3 <= |p.path| <= 5 && |p.floors| == |p.path| - 1
    && (forall i, j :: 0 <= i < j < |p.path| ==> p.path[i] != p.path[j])
    && (forall i :: 0 <= i < |p.floors| ==> p.floors[i] > 0)
    && p.dex in c.dexes && a.signed && p.sender != router && a.withinRate
    && Admissible(c, p.sender, p.recipient, p.amountIn) && Vouched(c, p.amountIn, a.kycVerified)
  }

  lemma PathOpensExactly(c: Config, router: Address, p: MultihopPayment, a: MultihopAnswers)
    ensures MultihopError(c, router, p, a) == None <==> PathOpen(c, router, p, a)
  {
  }

  lemma MultihopInShape(s: State, router: Address, now: U64, p: MultihopPayment, a: MultihopAnswers, rate: int)
    requires RouteMultihop(s, router, now, p, a).Ok? && FeesNotNegative(s.config)
    requires IsRate(rate, s.config.fees.value.bps, VolumeOf(s, p.sender, now))
    ensures HopCountFits(p) && Booked(s, now, p.sender, p.amountIn).Ok?
    ensures Balance(s.balances, p.path[0], p.sender) >= p.amountIn && a.pulls
    ensures MultihopIn(s, router, now, s.config.fees.value.bps, p, a).Ok?
    ensures var (t, out, bps) := MultihopIn(s, router, now, s.config.fees.value.bps, p, a).value;
            && Hops(Pulled(s, router, p), router, p, a.hops, 0, p.amountIn) == Ok((t.balances, out)) && bps == rate
            && t == s.(balances := t.balances,
                       records := s.records[p.sender := Booked(s, now, p.sender, p.amountIn).value.0])
  {
    hide UserRecord.Accrue, UserRecord.Load, Hops, Move, IsRate, MultihopError, Deliver;
    AccruedVolume(s, p.sender, now, p.amountIn);
    EffectiveBpsIsRate(s.config.fees.value.bps, VolumeOf(s, p.sender, now), rate);
  }

  /** An accepted path payment passed the checks and delivers the output of its last hop, less
      the fee on it at the rate for the sender's volume. */
  lemma PathSettles(s: State, router: Address, now: U64, p: MultihopPayment, a: MultihopAnswers, rate: nat, fee: int)
    requires FeesNotNegative(s.config) && AllPositive(s.refunds)
    requires RouteMultihop(s, router, now, p, a).Ok? && s.config.fees.Some? && HopCountFits(p)
    requires IsRate(rate, s.config.fees.value.bps, VolumeOf(s, p.sender, now))
    requires match Hops(Pulled(s, router, p), router, p, a.hops, 0, p.amountIn)
             case Err(_) => false
             case Ok((_, out)) => IsFee(fee, out, out * rate, s.config.fees.value.cap)
    ensures PathOpen(s.config, router, p, a) && Booked(s, now, p.sender, p.amountIn).Ok?
    ensures Balance(s.balances, p.path[0], p.sender) >= p.amountIn && a.pulls
    ensures var (t, remainder) := RouteMultihop(s, router, now, p, a).value;
            var (b, out) := Hops(Pulled(s, router, p), router, p, a.hops, 0, p.amountIn).value;
            && out > 0 && 0 <= fee && remainder == out - fee >= 0
            && t == s.(balances := t.balances, refunds := t.refunds, records := t.records)
            && t.records == s.records[p.sender := Booked(s, now, p.sender, p.amountIn).value.0]
            && Delivered(s.(balances := b), t, router, p.sender, p.recipient, p.path[|p.path| - 1],
                         s.config.fees.value.treasury, fee, remainder, a.delivery.delivers)
  {
    hide MultihopIn, MultihopError, PathOpen, Deliver, Delivered, UserRecord.Accrue, UserRecord.Load, IsRate, IsFee,
        Hops, Outputs, Gained, Acyclic;
    assert MultihopError(s.config, router, p, a) == None;
    PathOpensExactly(s.config, router, p, a);
    MultihopInShape(s, router, now, p, a, rate);
    var fees := s.config.fees.value;
    MultihopInGains(s, router, now, fees.bps, p, a);
    var (t, out, _) := MultihopIn(s, router, now, fees.bps, p, a).value;
    var final := p.path[|p.path| - 1];
    DeliversExactly(t, router, p.sender, p.recipient, final, out, rate, fees, a.delivery, fee);
    SameDelivered(t, s.(balances := t.balances), RouteMultihop(s, router, now, p, a).value.0, router, p.sender,
                  p.recipient, final, fees.treasury, fee, out - fee, a.delivery.delivers);
  }

  lemma SameDeliverable(
      s: State, t: State, sender: Address, token: Token, out: int, rate: int, fee: int, d: Delivery)
    requires s.refunds == t.refunds
    ensures Deliverable(s, sender, token, out, rate, fee, d) == Deliverable(t, sender, token, out, rate, fee, d)
  {
  }

  /** A delivery is the same whatever else the state holds. */
  lemma SameDelivered(
      s: State, u: State, t: State, router: Address, sender: Address, recipient: Address, token: Token,
      treasury: Address, fee: int, remainder: int, delivers: bool)
    requires s.balances == u.balances && s.refunds == u.refunds
    ensures Delivered(s, t, router, sender, recipient, token, treasury, fee, remainder, delivers) ==
            Delivered(u, t, router, sender, recipient, token, treasury, fee, remainder, delivers)
  {
  }

  // ---------- raw swaps ----------

  /** The contract is not halted, and the payment is admissible, vouched for, approved, and
      along a path from its input to its output token with a positive floor. */
  predicate RawOpen(c: Config, router: Address, p: RawSwaps.RawPayment, a: RawSwaps.RawAnswers) {
    && !c.frozen && c.pauseLevel != FullHalt && c.fees.Some?
    && |p.path| >= 1 && p.path[0] == p.tokenIn && p.path[|p.path| - 1] == p.tokenOut && p.minAmountOut > 0
    && a.signed && p.sender != router
    && Admissible(c, p.sender, p.recipient, p.amountIn) && Vouched(c, p.amountIn, a.kycVerified)
  }

  /** The input reaches the adapter, which reports an output of at least the floor and an
      unused input that the router has and the token moves. */
  predicate RawCarries(b: Balances, router: Address, p: RawSwaps.RawPayment, a: RawSwaps.RawAnswers) {
    && a.handsOver && 0 <= p.amountIn <= Balance(b, p.tokenIn, p.sender)
    && a.adapter.RawReturns? && |a.adapter.amounts| == 2
    && Carried(router, p.adapter, Move(b, p.tokenIn, p.sender, p.adapter, p.amountIn), a.adapter.after)
    && a.adapter.amounts[0] >= p.minAmountOut && a.adapter.amounts[0] > 0
    && 0 <= a.adapter.amounts[1]
    && (a.adapter.amounts[1] > 0 ==>
          a.returnsUnused && a.adapter.amounts[1] <= Balance(a.adapter.after, p.tokenIn, router))
  }

  lemma RawInExactly(b: Balances, router: Address, p: RawSwaps.RawPayment, a: RawSwaps.RawAnswers)
    requires p.sender != router
    ensures RawSwaps.RawIn(b, router, p, a).Ok? <==> RawCarries(b, router, p, a)
    ensures match RawSwaps.RawIn(b, router, p, a)
            case Err(_) => true
            case Ok((c, received)) =>
              var unused := a.adapter.amounts[1];
              && received == a.adapter.amounts[0]
              && forall t, x :: Balance(c, t, x) == Balance(a.adapter.after, t, x) +
                   if t != p.tokenIn then 0
                   else (if x == p.sender then unused else 0) - (if x == router then unused else 0)
  {
    if RawSwaps.RawIn(b, router, p, a).Ok? {
      var after, unused := a.adapter.after, a.adapter.amounts[1];
      forall t, x ensures Balance(RawSwaps.RawIn(b, router, p, a).value.0, t, x) == Balance(after, t, x) +
          if t != p.tokenIn then 0 else (if x == p.sender then unused else 0) - (if x == router then unused else 0) {
        MoveBalance(after, p.tokenIn, router, p.sender, unused, t, x);
      }
    }
  }

  /** A raw swap is accepted exactly if it is open, carried, and its reported output can be
      paid by the sender; and that payment then settles like any other. */
  lemma RawSettles(
      s: State, router: Address, now: U64, p: RawSwaps.RawPayment, a: RawSwaps.RawAnswers, rate: nat, fee: int)
    requires FeesNotNegative(s.config) && AllPositive(s.refunds)
    requires s.config.fees.Some? && RawCarries(s.balances, router, p, a) ==>
               && IsRate(rate, s.config.fees.value.bps, VolumeOf(s, p.sender, now))
               && IsFee(fee, a.adapter.amounts[0], DirectProduct(a.adapter.amounts[0], rate), s.config.fees.value.cap)
    ensures RawSwaps.RouteRaw(s, router, now, p, a).Ok? ==>
              RawOpen(s.config, router, p, a) && RawCarries(s.balances, router, p, a)
    ensures RawOpen(s.config, router, p, a) && RawCarries(s.balances, router, p, a) ==>
              RawSwaps.RawIn(s.balances, router, p, a).Ok?
    ensures RawOpen(s.config, router, p, a) && RawCarries(s.balances, router, p, a) ==>
              var u := s.(balances := RawSwaps.RawIn(s.balances, router, p, a).value.0);
              var payment := Payment(p.sender, p.recipient, p.tokenOut, a.adapter.amounts[0]);
              && (RawSwaps.RouteRaw(s, router, now, p, a).Ok? <==>
                    Booked(s, now, p.sender, payment.amount).Ok? && Carries(u, payment, fee, a.payment))
              && (RawSwaps.RouteRaw(s, router, now, p, a).Ok? ==>
                    var t := RawSwaps.RouteRaw(s, router, now, p, a).value;
                    && t == s.(balances := t.balances, refunds := t.refunds, records := t.records)
                    && t.records == s.records[p.sender := Booked(s, now, p.sender, payment.amount).value.0]
                    && 0 <= fee <= payment.amount
                    && Paid(u, t, router, payment, s.config.fees.value.treasury, fee, a.payment.delivers))
  {
    assert RawSwaps.RawError(s.config, router, p, a) == None <==> RawOpen(s.config, router, p, a);
    hide RawSwaps.RawIn, RawSwaps.RawError, Process, Paid, Carries, UserRecord.Accrue, UserRecord.Load, IsFee, IsRate,
        Carried, Move;
    if RawOpen(s.config, router, p, a) {
      RawInExactly(s.balances, router, p, a);
      if RawCarries(s.balances, router, p, a) {
        var u := s.(balances := RawSwaps.RawIn(s.balances, router, p, a).value.0);
        var payment := Payment(p.sender, p.recipient, p.tokenOut, a.adapter.amounts[0]);
        ProcessSettles(u, router, now, s.config.fees.value, payment, a.payment, rate, fee);
      }
    }
  }
}
