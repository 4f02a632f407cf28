/** The payment router over whole runs: it can always pay what it owes in refunds; and the
    router itself, an object whose stored fields the payment operations update. */
module PaymentRouter {
  import opened ByteOrder
  import opened DirectPayments
  import opened Fees
  import opened RawSwaps
  import opened RefundLedger
  import opened RouterCore
  import opened SwapPayments
  import opened TokenLedger
  import opened Wrappers
  import Split
  import UserRecord

  // ---------- runs ----------

  /** The payment operations; a change of settings or of sender records by an entry point
      that moves no tokens; and anything else that happens to the ledgers. */
  datatype Op =
    | OpPay(p: Payment, a: Answers)
    | OpBatch(items: seq<Item>)
    | OpMeta(p: Payment, nonce: U64, deadline: U64, signatureValid: bool, a: Answers)
    | OpSwap(swap: SwapPayment, swapAnswers: SwapAnswers)
    | OpSwaps(swaps: seq<SwapItem>)
    | OpSplit(split: SplitPayment, splitAnswers: SplitAnswers)
    | OpMultihop(path: MultihopPayment, pathAnswers: MultihopAnswers)
    | OpRaw(raw: RawPayment, rawAnswers: RawAnswers)
    | OpWithdraw(user: Address, token: Token, amount: I128, signed: bool, moves: bool)
    | OpClaim(user: Address, token: Token, signed: bool, moves: bool)
    | OpConfigure(config: Config, records: map<Address, UserRecord.Entries>)
    | OpWorld(after: Balances)

  function StateOf(r: Result<(State, int), Error>): Result<State, Error> {
    match r
    case Ok((t, _)) => Ok(t)
    case Err(e) => Err(e)
  }

  function Apply(s: State, router: Address, now: U64, op: Op): Result<State, Error> {
    match op
    case OpPay(p, a) => RoutePayment(s, router, now, p, a)
    case OpBatch(items) => RoutePayments(s, router, now, items)
    case OpMeta(p, nonce, deadline, signatureValid, a) =>
      RoutePaymentMeta(s, router, now, p, nonce, deadline, signatureValid, a)
    case OpSwap(swap, a) => StateOf(RouteSwap(s, router, now, swap, a))
    case OpSwaps(items) => StateOf(RouteSwaps(s, router, now, items))
    case OpSplit(split, a) => StateOf(RouteSplit(s, router, now, split, a))
    case OpMultihop(path, a) => StateOf(RouteMultihop(s, router, now, path, a))
    case OpRaw(raw, a) => RouteRaw(s, router, now, raw, a)
    case OpWithdraw(user, token, amount, signed, moves) =>
      DirectPayments.WithdrawRefund(s, router, user, token, amount, signed, moves)
    case OpClaim(user, token, signed, moves) =>
      StateOf(DirectPayments.ClaimAllRefunds(s, router, user, token, signed, moves))
    case OpConfigure(config, records) => Ok(s.(config := config, records := records))
    case OpWorld(after) => if Unauthorized(router, s.balances, after) then Ok(s.(balances := after)) else Err(Trapped)
  }

  /** A failed call changes nothing. */
  function Step(s: State, router: Address, now: U64, op: Op): State {
    match Apply(s, router, now, op)
    case Ok(t) => t
    case Err(_) => s
  }

  function Run(s: State, router: Address, calls: seq<(U64, Op)>): State
    decreases |calls|
  {
    if calls == [] then s else Run(Step(s, router, calls[0].0, calls[0].1), router, calls[1..])
  }

  predicate KeepsFees(op: Op) {
    op.OpConfigure? ==> FeesNotNegative(op.config)
  }

  /** Settings stay without negative fees, and in an accepted raw swap the adapter's report is
      backed. */
  predicate IsSound(s: State, router: Address, now: U64, op: Op) {
    && KeepsFees(op)
    && (op.OpRaw? && Apply(s, router, now, op).Ok? ==> IsBacked(s.balances, router, op.raw, op.rawAnswers))
  }

  ghost predicate AllSound(s: State, router: Address, calls: seq<(U64, Op)>)
    decreases |calls|
  {
    calls == [] ||
    (&& IsSound(s, router, calls[0].0, calls[0].1)
     && AllSound(Step(s, router, calls[0].0, calls[0].1), router, calls[1..]))
  }

  /** What holds between the start of a run and any later state. */
  ghost predicate Kept(start: State, t: State, router: Address) {
    SurplusKept(start, t, router) && AllPositive(t.refunds) && FeesNotNegative(t.config)
  }

  lemma KeptByConserved(start: State, s: State, t: State, router: Address, user: Address, token: Token)
    requires Kept(start, s, router) && Conserved(router, s, t, user, token) && t.config == s.config
    ensures Kept(start, t, router)
  {
    ConservedKeepsSurplus(router, s, t, user, token);
    SurplusChain(start, s, t, router);
  }

  lemma DirectKept(start: State, s: State, router: Address, now: U64, op: Op, t: State)
    requires op.OpPay? || op.OpBatch? || op.OpMeta?
    requires Kept(start, s, router) && Apply(s, router, now, op) == Ok(t)
    ensures Kept(start, t, router)
  {
    match op {
      case OpPay(p, a) =>
        ProcessConserves(s, router, now, s.config.fees.value, p, a);
        KeptByConserved(start, s, t, router, p.sender, p.token);
      case OpMeta(p, nonce, deadline, signatureValid, a) =>
        MetaConserves(s, router, now, p, nonce, deadline, signatureValid, a);
        KeptByConserved(start, s, t, router, p.sender, p.token);
      case OpBatch(items) =>
        BatchSendersAreOthers(s.config, router, items, 0, {});
        ProcessAllKeepsSurplus(s, router, now, s.config.fees.value, items, 0);
        SurplusChain(start, s, t, router);
    }
  }

  lemma SwapKept(start: State, s: State, router: Address, now: U64, op: Op, t: State)
    requires op.OpSwap? || op.OpSwaps? || op.OpSplit? || op.OpMultihop?
    requires Kept(start, s, router) && Apply(s, router, now, op) == Ok(t)
    ensures Kept(start, t, router)
  {
    hide ProcessSwap, SwapAll, SplitIn, MultihopIn, MultihopError, Deliver, Hops, Outputs, FloorsMet;
    match op {
      case OpSwap(swap, a) =>
        SwapConserves(s, router, now, s.config.fees.value, swap, a);
        KeptByConserved(start, s, t, router, swap.sender, swap.buyToken);
      case OpSwaps(items) =>
        assert BatchKept(s, s, router);
        SwapAllKeepsSurplus(s, s, router, now, s.config.fees.value, items, 0, 0);
        SurplusChain(start, s, t, router);
      case OpSplit(split, a) =>
        SplitConserves(s, router, now, split, a);
        KeptByConserved(start, s, t, router, split.sender, split.buyToken);
      case OpMultihop(path, a) =>
        MultihopConserves(s, router, now, path, a);
        KeptByConserved(start, s, t, router, path.sender, path.path[|path.path| - 1]);
    }
  }

  lemma OtherKept(start: State, s: State, router: Address, now: U64, op: Op, t: State)
    requires op.OpWithdraw? || op.OpClaim? || op.OpConfigure? || op.OpWorld?
    requires Kept(start, s, router) && Apply(s, router, now, op) == Ok(t) && KeepsFees(op)
    ensures Kept(start, t, router)
  {
    match op {
      case OpWithdraw(user, token, amount, signed, moves) =>
        WithdrawKeepsSurplus(s, router, user, token, amount, signed, moves);
      case OpClaim(user, token, signed, moves) =>
        WithdrawKeepsSurplus(s, router, user, token, RefundOf(s.refunds, user, token), signed, moves);
      case OpConfigure(_, _) =>
        assert SurplusKept(s, t, router);
      case OpWorld(after) =>
        forall token ensures Surplus(t, router, token) >= Surplus(s, router, token) {
          UnauthorizedKeepsBalance(router, s.balances, after, token);
        }
    }
    SurplusChain(start, s, t, router);
  }

  lemma RawKept(start: State, s: State, router: Address, now: U64, op: Op, t: State)
    requires op.OpRaw? && IsSound(s, router, now, op)
    requires Kept(start, s, router) && Apply(s, router, now, op) == Ok(t)
    ensures Kept(start, t, router)
  {
    hide RouteRaw, IsBacked;
    BackedRawKeepsSurplus(s, router, now, op.raw, op.rawAnswers);
    SurplusChain(start, s, t, router);
  }

  lemma StepKept(start: State, s: State, router: Address, now: U64, op: Op)
    requires Kept(start, s, router) && IsSound(s, router, now, op)
    ensures Kept(start, Step(s, router, now, op), router)
  {
    hide Apply, Kept;
    match Apply(s, router, now, op) {
      case Err(_) =>
      case Ok(t) =>
        match op {
          case OpPay(_, _) => DirectKept(start, s, router, now, op, t);
          case OpBatch(_) => DirectKept(start, s, router, now, op, t);
          case OpMeta(_, _, _, _, _) => DirectKept(start, s, router, now, op, t);
          case OpSwap(_, _) => SwapKept(start, s, router, now, op, t);
          case OpSwaps(_) => SwapKept(start, s, router, now, op, t);
          case OpSplit(_, _) => SwapKept(start, s, router, now, op, t);
          case OpMultihop(_, _) => SwapKept(start, s, router, now, op, t);
          case OpRaw(_, _) => RawKept(start, s, router, now, op, t);
          case _ => OtherKept(start, s, router, now, op, t);
        }
    }
  }

  /** Over every sound run, whatever the exchanges, recipients and tokens do, the router's
      surplus of holdings over refunds owed does not fall in any token. */
  lemma {:induction false} RunKeepsSurplus(start: State, s: State, router: Address, calls: seq<(U64, Op)>)
    requires Kept(start, s, router) && AllSound(s, router, calls)
    ensures Kept(start, Run(s, router, calls), router)
    decreases |calls|
  {
    hide Step, Kept, IsSound;
    if calls != [] {
      StepKept(start, s, router, calls[0].0, calls[0].1);
      RunKeepsSurplus(start, Step(s, router, calls[0].0, calls[0].1), router, calls[1..]);
    }
  }

  /** In every state reached by a sound run the router holds, of each token, at least the sum of all
      refunds in it; so each user can withdraw its refund in full from a token that accepts
      the transfer. */
  lemma RouterStaysSolvent(
      router: Address, balances: Balances, config: Config, calls: seq<(U64, Op)>, user: Address, token: Token,
      amount: I128)
    requires NoDebt(balances) && FeesNotNegative(config)
    requires AllSound(State(balances, map[], map[], map[], config), router, calls)
    ensures var s := Run(State(balances, map[], map[], map[], config), router, calls);
            && Solvent(s, router)
            && (user != router ==>
                  (0 < amount <= RefundOf(s.refunds, user, token) <==>
                   DirectPayments.WithdrawRefund(s, router, user, token, amount, true, true).Ok?))
  {
    var start := State(balances, map[], map[], map[], config);
    hide Step, IsSound;
    var s := Run(start, router, calls);
    assert SurplusKept(start, start, router);
    RunKeepsSurplus(start, start, router, calls);
    forall t ensures Surplus(s, router, t) >= 0 {
      assert OfToken(start.refunds, t) == map[];
      assert Surplus(start, router, t) >= 0;
    }
    if user != router {
      RefundsAreWithdrawable(s, router, user, token, amount);
    }
  }

  // ---------- relayed signatures over runs ----------

  /** Only an accepted relayed payment moves a nonce: its sender's, and up by one. */
  lemma StepMovesNonce(s: State, router: Address, now: U64, op: Op, user: Address)
    ensures MetaNonceOf(Step(s, router, now, op), user) ==
            MetaNonceOf(s, user) + if op.OpMeta? && op.p.sender == user && Apply(s, router, now, op).Ok? then 1 else 0
  {
    hide Process, ProcessAll, ProcessOnAllowance, RoutePayment, RoutePayments, RouteSwap, RouteSwaps, RouteSplit,
        RouteMultihop, RouteRaw;
  }

  lemma {:induction false} NoncesNeverFall(s: State, router: Address, calls: seq<(U64, Op)>, user: Address)
    ensures MetaNonceOf(Run(s, router, calls), user) >= MetaNonceOf(s, user)
    decreases |calls|
  {
    hide Step;
    if calls != [] {
      StepMovesNonce(s, router, calls[0].0, calls[0].1, user);
      NoncesNeverFall(Step(s, router, calls[0].0, calls[0].1), router, calls[1..], user);
    }
  }

  /** A relayed payment is accepted only at the sender's current nonce, and nothing signed
      for that nonce is accepted again, whatever happens in between. */
  lemma SignedNonceWorksOnce(
      s: State, router: Address, now: U64, op: Op, calls: seq<(U64, Op)>, later: U64, again: Op)
    requires op.OpMeta? && again.OpMeta? && again.p.sender == op.p.sender && again.nonce == op.nonce
    ensures Apply(s, router, now, op).Ok? ==> op.nonce == MetaNonceOf(s, op.p.sender)
    ensures Apply(s, router, now, op).Ok? ==>
        Apply(Run(Step(s, router, now, op), router, calls), router, later, again).Err?
  {
    hide Step, ProcessOnAllowance;
    StepMovesNonce(s, router, now, op, op.p.sender);
    NoncesNeverFall(Step(s, router, now, op), router, calls, op.p.sender);
  }

  // ---------- the contract on stored fields ----------

  /** What a step inside a call did; after a failure the caller of the contract will have
      every write discarded, so the state does not matter. */
  ghost predicate Reached(expected: Result<State, Error>, after: State, r: Result<(), Error>) {
    match expected
    case Ok(t) => r == Ok(()) && after == t
    case Err(e) => r == Err(e)
  }

  ghost predicate Yielded(expected: Result<(State, int), Error>, after: State, r: Result<int, Error>) {
    match expected
    case Ok((t, value)) => r == Ok(value) && after == t
    case Err(e) => r == Err(e)
  }

  /** A whole call that returns an amount; a failed one changed nothing. */
  ghost predicate Returned(expected: Result<(State, int), Error>, before: State, after: State, r: Result<int, Error>) {
    Yielded(expected, after, r) && (expected.Err? ==> after == before)
  }

  class Router {
    const address: Address
    var balances: Balances
    var refunds: Refunds
    var records: map<Address, UserRecord.Entries>
    var metaNonces: map<Address, U64>
    var config: Config

    function Now(): State
      reads this
    {
      State(balances, refunds, records, metaNonces, config)
    }

    constructor (address: Address, balances: Balances, config: Config)
      ensures this.address == address && Now() == State(balances, map[], map[], map[], config)
    {
      this.address, this.balances, this.config := address, balances, config;
      refunds, records, metaNonces := map[], map[], map[];
    }

    /** The host discards the writes of a failed call. */
    method Restore(saved: State)
      modifies this
      ensures Now() == saved
    {
      balances, refunds, records := saved.balances, saved.refunds, saved.records;
      metaNonces, config := saved.metaNonces, saved.config;
    }

    method TryTransfer(token: Token, from: Address, to: Address, amount: int, accepted: bool) returns (moved: bool)
      modifies this`balances
      ensures moved <==> Transfer(old(balances), token, from, to, amount, accepted).Some?
      ensures balances ==
              if moved then Transfer(old(balances), token, from, to, amount, accepted).value else old(balances)
    {
      if !accepted || amount < 0 || Balance(balances, token, from) < amount {
        return false;
      }
      balances := Move(balances, token, from, to, amount);
      return true;
    }

    method CreditRefundBalance(user: Address, token: Token, amount: int) returns (credited: bool)
      modifies this`refunds
      ensures credited <==> Credit(old(refunds), user, token, amount).Some?
      ensures refunds == if credited then Credit(old(refunds), user, token, amount).value else old(refunds)
    {
      var current := if (user, token) in refunds then refunds[(user, token)] else 0;
      if !InI128(current + amount) {
        return false;
      }
      refunds := refunds[(user, token) := current + amount];
      return true;
    }

    method AccrueUserRecord(user: Address, now: U64, amount: I128) returns (r: Result<int, Error>)
      modifies this`records
      ensures Yielded(AccrueUser(old(Now()), user, now, amount), Now(), r)
    {
      hide UserRecord.Accrue;
      var accrued := UserRecord.Accrue(EntriesOf(Now(), user), now, amount);
      match accrued {
        case Err(ClockTrap) => return Err(Trapped);
        case Err(LimitExceeded) => return Err(LimitExceeded);
        case Ok((entries, volume)) =>
          records := records[user := entries];
          return Ok(volume);
      }
    }

    // ---------- direct payments ----------

    method PayOut(treasury: Address, p: Payment, fee: int, a: Answers) returns (r: Result<(), Error>)
      modifies this
      ensures Reached(Pay(old(Now()), address, treasury, p, fee, a), Now(), r)
    {
      var remainder := p.amount - fee;
      if !InI128(remainder) {
        return Err(Trapped);
      }
      if fee > 0 {
        var feeMoved := TryTransfer(p.token, p.sender, treasury, fee, a.feeMoves);
        if !feeMoved {
          return Err(LimitExceeded);
        }
      }
      if remainder > 0 {
        var delivered := TryTransfer(p.token, p.sender, p.recipient, remainder, a.delivers);
        if !delivered {
          var held := TryTransfer(p.token, p.sender, address, remainder, a.holds);
          if !held {
            return Err(LimitExceeded);
          }
          var credited := CreditRefundBalance(p.sender, p.token, remainder);
          if !credited {
            return Err(Trapped);
          }
        }
      }
      return Ok(());
    }

    method ProcessSinglePayment(now: U64, fees: FeeConfig, p: Payment, a: Answers) returns (r: Result<(), Error>)
      modifies this
      ensures Reached(Process(old(Now()), address, now, fees, p, a), Now(), r)
    {
      hide AccrueUser, Pay, DirectFee;
      var volume := AccrueUserRecord(p.sender, now, p.amount);
      if volume.Err? {
        return Err(volume.error);
      }
      if Balance(balances, p.token, p.sender) < p.amount {
        return Err(InsufficientBalance);
      }
      var fee := DirectFee(p.amount, EffectiveBps(fees.bps, volume.value), fees.cap);
      r := PayOut(fees.treasury, p, fee, a);
    }

    method ProcessSinglePaymentNoAuth(now: U64, fees: FeeConfig, p: Payment, a: Answers) returns (r: Result<(), Error>)
      modifies this
      ensures Reached(ProcessOnAllowance(old(Now()), address, now, fees, p, a), Now(), r)
    {
      hide AccrueUser, Pay, MetaFee;
      var invalid := PaymentError(config, p, a);
      if invalid.Some? {
        return Err(invalid.value);
      }
      var volume := AccrueUserRecord(p.sender, now, p.amount);
      if volume.Err? {
        return Err(volume.error);
      }
      if Balance(balances, p.token, p.sender) < p.amount || AllowanceOf(address, p.sender, a.allowance) < p.amount {
        return Err(InsufficientBalance);
      }
      var fee := MetaFee(p.amount, EffectiveBps(fees.bps, volume.value), fees.cap);
      r := PayOut(fees.treasury, p, fee, a);
    }

    method RoutePayment(now: U64, p: Payment, a: Answers) returns (r: Result<(), Error>)
      modifies this
      ensures Performed(DirectPayments.RoutePayment(old(Now()), address, now, p, a), old(Now()), Now(), r)
    {
      hide Process;
      if config.frozen {
        return Err(ContractFrozen);
      }
      if config.pauseLevel == FullHalt {
        return Err(Paused);
      }
      if p.sender == p.recipient {
        return Err(InvalidRecipient);
      }
      if p.recipient in config.blacklist {
        return Err(Blacklisted);
      }
      if p.amount <= 0 || p.amount > config.maxAmount || p.amount < config.minLimit {
        return Err(LimitExceeded);
      }
      var kyc := KycError(config, p.amount, a.kycVerified);
      if kyc.Some? {
        return Err(kyc.value);
      }
      if !Approved(address, p.sender, a.signed) {
        return Err(Trapped);
      }
      if !a.withinRate {
        return Err(RateLimited);
      }
      if config.fees == None {
        return Err(NotInitialized);
      }
      var saved := Now();
      r := ProcessSinglePayment(now, config.fees.value, p, a);
      if r.Err? {
        Restore(saved);
      }
    }

    /** Checks every item before anything moves; each sender approves once. */
    method CheckBatch(items: seq<Item>) returns (invalid: Option<Error>)
      ensures invalid == BatchError(config, address, items, 0, {})
    {
      hide PaymentError;
      var seen: seq<Address> := [];
      ghost var seenSet: set<Address> := {};
      var i := 0;
      while i < |items|
        invariant 0 <= i <= |items|
        invariant forall x :: x in seen <==> x in seenSet
        invariant BatchError(config, address, items, i, seenSet) == BatchError(config, address, items, 0, {})
      {
        var (p, a) := items[i];
        var error := PaymentError(config, p, a);
        if error.Some? {
          return error;
        }
        if !a.withinRate {
          return Some(RateLimited);
        }
        var isNew := NotSeen(seen, p.sender);
        if isNew {
          if !Approved(address, p.sender, a.signed) {
            return Some(Trapped);
          }
          seen := seen + [p.sender];
        }
        seenSet := seenSet + {p.sender};
        i := i + 1;
      }
      return None;
    }

    method RoutePayments(now: U64, items: seq<Item>) returns (r: Result<(), Error>)
      modifies this
      ensures Performed(DirectPayments.RoutePayments(old(Now()), address, now, items), old(Now()), Now(), r)
    {
      hide Process, BatchError;
      if config.frozen {
        return Err(ContractFrozen);
      }
      if config.pauseLevel == FullHalt {
        return Err(Paused);
      }
      var invalid := CheckBatch(items);
      if invalid.Some? {
        return Err(invalid.value);
      }
      if config.fees == None {
        return Err(NotInitialized);
      }
      var saved := Now();
      var fees := config.fees.value;
      var i := 0;
      while i < |items|
        invariant 0 <= i <= |items|
        invariant ProcessAll(Now(), address, now, fees, items, i) == ProcessAll(saved, address, now, fees, items, 0)
      {
        r := ProcessSinglePayment(now, fees, items[i].0, items[i].1);
        if r.Err? {
          Restore(saved);
          return;
        }
        i := i + 1;
      }
      return Ok(());
    }

    method NotSeen(seen: seq<Address>, sender: Address) returns (isNew: bool)
      ensures isNew <==> sender !in seen
    {
      var i := 0;
      while i < |seen|
        invariant 0 <= i <= |seen|
        invariant sender !in seen[..i]
      {
        if seen[i] == sender {
          return false;
        }
        i := i + 1;
      }
      assert seen[..i] == seen;
      return true;
    }

    method RoutePaymentMeta(now: U64, p: Payment, nonce: U64, deadline: U64, signatureValid: bool, a: Answers)
      returns (r: Result<(), Error>)
      modifies this
      ensures Performed(DirectPayments.RoutePaymentMeta(
                          old(Now()), address, now, p, nonce, deadline, signatureValid, a),
                        old(Now()), Now(), r)
    {
      hide ProcessOnAllowance;
      if config.frozen {
        return Err(ContractFrozen);
      }
      if config.pauseLevel == FullHalt {
        return Err(Paused);
      }
      if config.fees == None {
        return Err(NotInitialized);
      }
      if now > deadline {
        return Err(DeadlineExpired);
      }
      var stored := if p.sender in metaNonces then metaNonces[p.sender] else 0;
      if stored != nonce {
        return Err(InvalidNonce);
      }
      if !signatureValid || nonce + 1 >= UserRecord.U64_LIMIT {
        return Err(Trapped);
      }
      var saved := Now();
      metaNonces := metaNonces[p.sender := nonce + 1];
      r := ProcessSinglePaymentNoAuth(now, config.fees.value, p, a);
      if r.Err? {
        Restore(saved);
      }
    }

    // ---------- refunds ----------

    method WithdrawRefund(user: Address, token: Token, amount: I128, signed: bool, moves: bool)
      returns (r: Result<(), Error>)
      modifies this
      ensures Performed(DirectPayments.WithdrawRefund(old(Now()), address, user, token, amount, signed, moves),
                        old(Now()), Now(), r)
    {
      if !Approved(address, user, signed) {
        return Err(Trapped);
      }
      var current := if (user, token) in refunds then refunds[(user, token)] else 0;
      if amount <= 0 || amount > current {
        return Err(NoRefundAvailable);
      }
      var saved := Now();
      if current - amount > 0 {
        refunds := refunds[(user, token) := current - amount];
      } else {
        refunds := refunds - {(user, token)};
      }
      var moved := TryTransfer(token, address, user, amount, moves);
      if !moved {
        Restore(saved);
        return Err(Trapped);
      }
      return Ok(());
    }

    method ClaimAllRefunds(user: Address, token: Token, signed: bool, moves: bool) returns (r: Result<int, Error>)
      modifies this
      ensures Returned(DirectPayments.ClaimAllRefunds(old(Now()), address, user, token, signed, moves),
                       old(Now()), Now(), r)
    {
      if !Approved(address, user, signed) {
        return Err(Trapped);
      }
      var current := if (user, token) in refunds then refunds[(user, token)] else 0;
      if current <= 0 {
        return Err(NoRefundAvailable);
      }
      if !InI128(current) {
        return Err(Trapped);
      }
      var withdrawn := WithdrawRefund(user, token, current, signed, moves);
      if withdrawn.Err? {
        return Err(withdrawn.error);
      }
      return Ok(current);
    }

    // ---------- swaps ----------

    /** Takes the fee, then sends the remainder on or credits it to the sender. */
    method CollectAndDeliver(
        sender: Address, recipient: Address, token: Token, out: int, bps: int, fees: FeeConfig, d: Delivery)
      returns (r: Result<int, Error>)
      modifies this
      ensures Yielded(Deliver(old(Now()), address, sender, recipient, token, out, bps, fees, d), Now(), r)
    {
      hide CalculateFee;
      var split := CalculateFee(out, bps, fees.cap);
      if split == None {
        return Err(Trapped);
      }
      var (fee, remainder) := split.value;
      if fee > 0 {
        var feeMoved := TryTransfer(token, address, fees.treasury, fee, d.feeMoves);
        if !feeMoved {
          return Err(Trapped);
        }
      }
      if remainder > 0 {
        var delivered := TryTransfer(token, address, recipient, remainder, d.delivers);
        if !delivered {
          var credited := CreditRefundBalance(sender, token, remainder);
          if !credited {
            return Err(Trapped);
          }
        }
      }
      return Ok(remainder);
    }

    /** Hands over the input and calls the exchange; the output is the change of the router's
        own balance. */
    method SwapThrough(dex: Address, sell: Token, buy: Token, amount: int, handsOver: bool, reply: SwapReply)
      returns (r: Result<int, Error>)
      modifies this`balances
      ensures match SwapLeg(old(balances), address, dex, sell, buy, amount, handsOver, reply)
              case Ok((b, out)) => r == Ok(out) && balances == b && reply.SwapReturns?
              case Err(e) => r == Err(e)
    {
      var before := Balance(balances, buy, address);
      var handed := TryTransfer(sell, address, dex, amount, handsOver);
      if !handed {
        return Err(Trapped);
      }
      if reply.SwapFails? || !Carried(address, dex, balances, reply.after) {
        return Err(SwapFailed);
      }
      balances := reply.after;
      return Ok(Balance(balances, buy, address) - before);
    }

    method ProcessSingleSwapPayment(now: U64, fees: FeeConfig, swap: SwapPayment, a: SwapAnswers)
      returns (r: Result<int, Error>)
      modifies this
      ensures Yielded(ProcessSwap(old(Now()), address, now, fees, swap, a), Now(), r)
    {
      hide AccrueUser, SwapLeg, Deliver, OutputError, SwapError;
      var invalid := SwapError(config, address, now, swap, a);
      if invalid.Some? {
        return Err(invalid.value);
      }
      var volume := AccrueUserRecord(swap.sender, now, swap.amountIn);
      if volume.Err? {
        return Err(volume.error);
      }
      if Balance(balances, swap.sellToken, swap.sender) < swap.amountIn {
        return Err(InsufficientBalance);
      }
      var pulled := TryTransfer(swap.sellToken, swap.sender, address, swap.amountIn, a.pulls);
      if !pulled {
        return Err(Trapped);
      }
      var out := SwapThrough(swap.dex, swap.sellToken, swap.buyToken, swap.amountIn, a.handsOver, a.dex);
      if out.Err? {
        return Err(out.error);
      }
      if a.dex.token != swap.buyToken {
        return Err(AssetMismatch);
      }
      var rejected := OutputError(config, swap, out.value);
      if rejected.Some? {
        return Err(rejected.value);
      }
      var bps := EffectiveBps(fees.bps, volume.value);
      r := CollectAndDeliver(swap.sender, swap.recipient, swap.buyToken, out.value, bps, fees, a.delivery);
    }

    method RoutePaymentWithSwap(now: U64, swap: SwapPayment, a: SwapAnswers) returns (r: Result<int, Error>)
      modifies this
      ensures Returned(RouteSwap(old(Now()), address, now, swap, a), old(Now()), Now(), r)
    {
      hide ProcessSwap;
      var closed := SwapsOpenError(config);
      if closed.Some? {
        return Err(closed.value);
      }
      var saved := Now();
      r := ProcessSingleSwapPayment(now, config.fees.value, swap, a);
      if r.Err? {
        Restore(saved);
      }
    }

    method RoutePaymentsWithSwap(now: U64, items: seq<SwapItem>) returns (r: Result<int, Error>)
      modifies this
      ensures Returned(RouteSwaps(old(Now()), address, now, items), old(Now()), Now(), r)
    {
      hide ProcessSwap;
      var closed := SwapsOpenError(config);
      if closed.Some? {
        return Err(closed.value);
      }
      var saved := Now();
      var fees := config.fees.value;
      var totalDelivered := 0;
      var i := 0;
      while i < |items|
        invariant 0 <= i <= |items|
        invariant SwapAll(Now(), address, now, fees, items, i, totalDelivered) ==
            SwapAll(saved, address, now, fees, items, 0, 0)
      {
        var delivered := ProcessSingleSwapPayment(now, fees, items[i].0, items[i].1);
        if delivered.Err? {
          Restore(saved);
          return Err(delivered.error);
        }
        if !InI128(totalDelivered + delivered.value) {
          Restore(saved);
          return Err(Trapped);
        }
        totalDelivered := totalDelivered + delivered.value;
        i := i + 1;
      }
      return Ok(totalDelivered);
    }

    // ---------- split swaps ----------

    /** Checks the routes one by one and adds up their weights. */
    method CheckWeights(splits: seq<Split.SplitRoute>) returns (invalid: Option<Split.Error>)
      ensures invalid == Split.CheckSplits(splits, config.dexes)
    {
      if splits == [] {
        return Some(Split.InvalidSwapParams);
      }
      var totalWeight: Split.Weight := 0;
      var i := 0;
      while i < |splits|
        invariant 0 <= i <= |splits|
        invariant Split.AddWeights(splits, config.dexes, i, totalWeight) == Split.AddWeights(splits, config.dexes, 0, 0)
      {
        if splits[i].weightBps == 0 || splits[i].minAmountOut <= 0 {
          return Some(Split.InvalidSwapParams);
        }
        if splits[i].dex !in config.dexes {
          return Some(Split.DexNotRegistered);
        }
        if totalWeight + splits[i].weightBps > Split.U32_MAX {
          return Some(Split.InvalidSwapParams);
        }
        totalWeight := totalWeight + splits[i].weightBps;
        i := i + 1;
      }
      return if totalWeight == Split.TOTAL_WEIGHT_BPS then None else Some(Split.InvalidSwapParams);
    }

    /** Swaps each route's share: the last route gets what the others left. */
    method SwapEachShare(p: SplitPayment, legs: seq<LegAnswer>) returns (r: Result<int, Error>)
      requires p.amountIn >= 0
      modifies this`balances
      ensures match SwapShares(old(balances), address, p, Split.Shares(p.amountIn, p.splits), legs, 0, 0)
              case Ok((b, total)) => r == Ok(total) && balances == b
              case Err(e) => r == Err(e)
    {
      hide SwapLeg;
      ghost var shares := Split.Shares(p.amountIn, p.splits);
      ghost var start := balances;
      var totalOut, sharedOut := 0, 0;
      var i := 0;
      assert p.splits[0..] == p.splits && shares[0..] == shares;
      while i < |p.splits|
        invariant 0 <= i <= |p.splits| == |shares|
        invariant Split.SharesFrom(p.amountIn, p.splits[i..], sharedOut) == shares[i..]
        invariant SwapShares(balances, address, p, shares, legs, i, totalOut) ==
            SwapShares(start, address, p, shares, legs, 0, 0)
      {
        var route := p.splits[i];
        assert p.splits[i..][0] == route && p.splits[i..][1..] == p.splits[i + 1..];
        assert shares[i..][0] == shares[i] && shares[i..][1..] == shares[i + 1..];
        var isLast := i + 1 == |p.splits|;
        if !isLast && !InI128(p.amountIn * route.weightBps) {
          return Err(Trapped);
        }
        var share := if isLast then p.amountIn - sharedOut else p.amountIn * route.weightBps / Split.TOTAL_WEIGHT_BPS;
        assert share == shares[i];
        sharedOut := sharedOut + share;
        if share <= 0 {
          return Err(InvalidSwapParams);
        }
        var leg := if i < |legs| then legs[i] else LegAnswer(true, SwapFails);
        var out := SwapThrough(route.dex, p.sellToken, p.buyToken, share, leg.handsOver, leg.dex);
        if out.Err? {
          return Err(out.error);
        }
        if out.value < route.minAmountOut {
          return Err(SlippageExceeded);
        }
        if !InI128(totalOut + out.value) {
          return Err(LimitExceeded);
        }
        totalOut := totalOut + out.value;
        i := i + 1;
      }
      return Ok(totalOut);
    }

    method RouteSplitPaymentWithSwap(now: U64, p: SplitPayment, a: SplitAnswers) returns (r: Result<int, Error>)
      modifies this
      ensures Returned(RouteSplit(old(Now()), address, now, p, a), old(Now()), Now(), r)
    {
      hide SplitIn, Deliver;
      var closed := SwapsOpenError(config);
      if closed.Some? {
        return Err(closed.value);
      }
      var saved := Now();
      var fees := config.fees.value;
      var swapped := ProcessSplit(now, fees, p, a);
      if swapped.Err? {
        Restore(saved);
        return Err(swapped.error);
      }
      r := CollectAndDeliver(p.sender, p.recipient, p.buyToken, swapped.value.0, swapped.value.1, fees, a.delivery);
      if r.Err? {
        Restore(saved);
      }
    }

    /** The output of all routes, and the fee rate for it. */
    method ProcessSplit(now: U64, fees: FeeConfig, p: SplitPayment, a: SplitAnswers)
      returns (r: Result<(int, int), Error>)
      modifies this
      ensures match SplitIn(old(Now()), address, now, fees, p, a)
              case Ok((t, total, bps)) => r == Ok((total, bps)) && Now() == t
              case Err(e) => r == Err(e)
    {
      hide AccrueUser, SwapShares, Split.CheckSplits, Split.Shares;
      if !Approved(address, p.sender, a.signed) {
        return Err(Trapped);
      }
      if p.sellToken == p.buyToken {
        return Err(InvalidSwapParams);
      }
      var invalid := CheckWeights(p.splits);
      if invalid.Some? {
        return Err(if invalid.value == Split.DexNotRegistered then DexNotRegistered else InvalidSwapParams);
      }
      if p.sender == p.recipient {
        return Err(InvalidRecipient);
      }
      if p.recipient in config.blacklist {
        return Err(Blacklisted);
      }
      if p.amountIn <= 0 || p.amountIn > config.maxAmount || p.amountIn < config.minLimit {
        return Err(LimitExceeded);
      }
      var volume := AccrueUserRecord(p.sender, now, p.amountIn);
      if volume.Err? {
        return Err(volume.error);
      }
      if Balance(balances, p.sellToken, p.sender) < p.amountIn {
        return Err(InsufficientBalance);
      }
      var pulled := TryTransfer(p.sellToken, p.sender, address, p.amountIn, a.pulls);
      if !pulled {
        return Err(Trapped);
      }
      var total := SwapEachShare(p, a.legs);
      if total.Err? {
        return Err(total.error);
      }
      return Ok((total.value, EffectiveBps(fees.bps, volume.value)));
    }

    // ---------- swaps along a path ----------

    /** Compares every token of a path with every later one. */
    method RepeatsToken(path: seq<Token>) returns (repeats: bool)
      ensures repeats <==> !Acyclic(path)
    {
      var i := 0;
      while i < |path|
        invariant 0 <= i <= |path|
        invariant forall m, n :: 0 <= m < i && m < n < |path| ==> path[m] != path[n]
      {
        var j := i + 1;
        while j < |path|
          invariant i < j <= |path|
          invariant forall n :: i < n < j ==> path[i] != path[n]
        {
          if path[j] == path[i] {
            return true;
          }
          j := j + 1;
        }
        i := i + 1;
      }
      return false;
    }

    method CheckPath(p: MultihopPayment) returns (invalid: Option<Error>)
      ensures invalid == PathError(p)
    {
      var hopCount := if |p.path| == 0 then 0 else |p.path| - 1;
      if hopCount < 2 || hopCount > 4 || |p.floors| != hopCount {
        return Some(InvalidSwapPath);
      }
      var repeats := RepeatsToken(p.path);
      if repeats {
        return Some(CyclicSwapPath);
      }
      var i := 0;
      while i < |p.floors|
        invariant 0 <= i <= |p.floors|
        invariant forall k :: 0 <= k < i ==> p.floors[k] > 0
      {
        if p.floors[i] <= 0 {
          return Some(InvalidSwapParams);
        }
        i := i + 1;
      }
      return None;
    }

    method SwapHop(
        sender: Address, dex: Address, tokenIn: Token, tokenOut: Token, amount: int, floor: int, a: HopAnswer)
      returns (r: Result<int, Error>)
      modifies this`balances
      ensures match Hop(old(balances), address, sender, dex, tokenIn, tokenOut, amount, floor, a)
              case Ok((b, out)) => r == Ok(out) && balances == b
              case Err(e) => r == Err(e)
    {
      var inputBefore := Balance(balances, tokenIn, address);
      var outputBefore := Balance(balances, tokenOut, address);
      var handed := TryTransfer(tokenIn, address, dex, amount, a.handsOver);
      if !handed || a.dex.HopFails? || !Carried(address, dex, balances, a.dex.after) {
        return Err(Trapped);
      }
      balances := a.dex.after;
      if |a.dex.amounts| != 2 {
        return Err(InvalidSwapPath);
      }
      var actualUnused := Balance(balances, tokenIn, address) - (inputBefore - amount);
      var actualOut := Balance(balances, tokenOut, address) - outputBefore;
      if !HopHonest(amount, floor, actualUnused, actualOut, a.dex.amounts) {
        return Err(SlippageExceeded);
      }
      if actualUnused > 0 {
        var returned := TryTransfer(tokenIn, address, sender, actualUnused, a.returnsUnused);
        if !returned {
          return Err(Trapped);
        }
      }
      return Ok(actualOut);
    }

    method SwapAlong(p: MultihopPayment, hops: seq<HopAnswer>) returns (r: Result<int, Error>)
      requires |p.path| == |p.floors| + 1
      modifies this`balances
      ensures match Hops(old(balances), address, p, hops, 0, p.amountIn)
              case Ok((b, out)) => r == Ok(out) && balances == b
              case Err(e) => r == Err(e)
    {
      hide Hop;
      ghost var start := balances;
      var currentAmount := p.amountIn;
      var i := 0;
      while i < |p.floors|
        invariant 0 <= i <= |p.floors|
        invariant Hops(balances, address, p, hops, i, currentAmount) == Hops(start, address, p, hops, 0, p.amountIn)
      {
        var out := SwapHop(p.sender, p.dex, p.path[i], p.path[i + 1], currentAmount, p.floors[i], HopOf(hops, i));
        if out.Err? {
          return Err(out.error);
        }
        currentAmount := out.value;
        i := i + 1;
      }
      return Ok(currentAmount);
    }

    method CheckMultihop(p: MultihopPayment, a: MultihopAnswers) returns (invalid: Option<Error>)
      ensures invalid == MultihopError(config, address, p, a)
    {
      hide PathError;
      if config.frozen {
        return Some(ContractFrozen);
      }
      if config.pauseLevel == FullHalt {
        return Some(Paused);
      }
      if p.sender == p.recipient {
        return Some(InvalidRecipient);
      }
      if p.recipient in config.blacklist {
        return Some(Blacklisted);
      }
      var badPath := CheckPath(p);
      if badPath.Some? {
        return badPath;
      }
      if p.dex !in config.dexes {
        return Some(DexNotRegistered);
      }
      if p.amountIn <= 0 || p.amountIn > config.maxAmount || p.amountIn < config.minLimit {
        return Some(LimitExceeded);
      }
      var kyc := KycError(config, p.amountIn, a.kycVerified);
      if kyc.Some? {
        return kyc;
      }
      if !Approved(address, p.sender, a.signed) {
        return Some(Trapped);
      }
      if !a.withinRate {
        return Some(RateLimited);
      }
      return if config.fees == None then Some(NotInitialized) else None;
    }

    method ProcessMultihop(now: U64, rate: int, p: MultihopPayment, a: MultihopAnswers)
      returns (r: Result<(int, int), Error>)
      requires HopCountFits(p)
      modifies this
      ensures match MultihopIn(old(Now()), address, now, rate, p, a)
              case Ok((t, out, bps)) => r == Ok((out, bps)) && Now() == t
              case Err(e) => r == Err(e)
    {
      hide AccrueUser, Hops;
      var volume := AccrueUserRecord(p.sender, now, p.amountIn);
      if volume.Err? {
        return Err(volume.error);
      }
      if Balance(balances, p.path[0], p.sender) < p.amountIn {
        return Err(InsufficientBalance);
      }
      var pulled := TryTransfer(p.path[0], p.sender, address, p.amountIn, a.pulls);
      if !pulled {
        return Err(Trapped);
      }
      var out := SwapAlong(p, a.hops);
      if out.Err? {
        return Err(out.error);
      }
      return Ok((out.value, EffectiveBps(rate, volume.value)));
    }

    method RouteMultihopSwap(now: U64, p: MultihopPayment, a: MultihopAnswers) returns (r: Result<int, Error>)
      modifies this
      ensures Returned(RouteMultihop(old(Now()), address, now, p, a), old(Now()), Now(), r)
    {
      hide MultihopIn, MultihopError, Deliver;
      var invalid := CheckMultihop(p, a);
      if invalid.Some? {
        return Err(invalid.value);
      }
      var saved := Now();
      var fees := config.fees.value;
      var swapped := ProcessMultihop(now, fees.bps, p, a);
      if swapped.Err? {
        Restore(saved);
        return Err(swapped.error);
      }
      var finalToken := p.path[|p.path| - 1];
      r := CollectAndDeliver(p.sender, p.recipient, finalToken, swapped.value.0, swapped.value.1, fees, a.delivery);
      if r.Err? {
        Restore(saved);
      }
    }

    // ---------- swap payments through a named adapter ----------

    method CheckRaw(p: RawPayment, a: RawAnswers) returns (invalid: Option<Error>)
      ensures invalid == RawError(config, address, p, a)
    {
      if config.frozen {
        return Some(ContractFrozen);
      }
      if config.pauseLevel == FullHalt {
        return Some(Paused);
      }
      if p.sender == p.recipient {
        return Some(InvalidRecipient);
      }
      if p.recipient in config.blacklist {
        return Some(Blacklisted);
      }
      if p.path == [] || p.path[0] != p.tokenIn || p.path[|p.path| - 1] != p.tokenOut {
        return Some(InvalidSwapPath);
      }
      if p.minAmountOut <= 0 {
        return Some(InvalidSwapParams);
      }
      if p.amountIn <= 0 || p.amountIn > config.maxAmount || p.amountIn < config.minLimit {
        return Some(LimitExceeded);
      }
      var kyc := KycError(config, p.amountIn, a.kycVerified);
      if kyc.Some? {
        return kyc;
      }
      if !Approved(address, p.sender, a.signed) {
        return Some(Trapped);
      }
      if config.fees == None {
        return Some(NotInitialized);
      }
      return None;
    }

    /** Input to the adapter, the swap, and the reported unused input back to the sender. */
    method SwapThroughAdapter(p: RawPayment, a: RawAnswers) returns (r: Result<I128, Error>)
      modifies this`balances
      ensures match RawIn(old(balances), address, p, a)
              case Ok((b, received)) => r == Ok(received) && balances == b
              case Err(e) => r == Err(e)
    {
      var handed := TryTransfer(p.tokenIn, p.sender, p.adapter, p.amountIn, a.handsOver);
      if !handed || a.adapter.RawFails? || !Carried(address, p.adapter, balances, a.adapter.after) {
        return Err(Trapped);
      }
      balances := a.adapter.after;
      if |a.adapter.amounts| != 2 {
        return Err(InvalidSwapPath);
      }
      var amountReceived, unusedInput := a.adapter.amounts[0], a.adapter.amounts[1];
      if amountReceived < p.minAmountOut || amountReceived <= 0 || unusedInput < 0 {
        return Err(SlippageExceeded);
      }
      if unusedInput > 0 {
        var returned := TryTransfer(p.tokenIn, address, p.sender, unusedInput, a.returnsUnused);
        if !returned {
          return Err(Trapped);
        }
      }
      return Ok(amountReceived);
    }

    method RoutePaymentWithSwapRaw(now: U64, p: RawPayment, a: RawAnswers) returns (r: Result<(), Error>)
      modifies this
      ensures Performed(RouteRaw(old(Now()), address, now, p, a), old(Now()), Now(), r)
    {
      hide RawError, RawIn, Process;
      var invalid := CheckRaw(p, a);
      if invalid.Some? {
        return Err(invalid.value);
      }
      var saved := Now();
      var fees := config.fees.value;
      var received := SwapThroughAdapter(p, a);
      if received.Err? {
        Restore(saved);
        return Err(received.error);
      }
      r := ProcessSinglePayment(now, fees, Payment(p.sender, p.recipient, p.tokenOut, received.value), a.payment);
      if r.Err? {
        Restore(saved);
      }
    }
  }
}
