/** The payment proxy: spending budgets of session keys and the per-account nonces of signed
    payment intents, single, forwarded or in a failure-tolerant batch. */
module PaymentProxy {
  import opened ByteOrder
  import opened Wrappers

  const U64_MAX: int := 0xFFFF_FFFF_FFFF_FFFF

  datatype Error =
    | NotInitialized | NotAuthorized | InvalidSessionAllowance | SessionExpired | SessionAllowanceExceeded
    | UnsupportedSessionCall | InvalidNonce | DeadlineExpired | InvalidSignature | SignatureTrapped | LogicTrapped

  datatype SessionAllowance = SessionAllowance(remaining: int, validUntil: int)

  datatype State = State(
    logic: Option<Address>,
    sessions: map<Address, SessionAllowance>,
    nonces: map<Address, nat>)

  /** Spending that a forwarded call asks for on behalf of `sender`. */
  datatype Charge = Charge(sender: Address, amount: int)

  /** The forwarded calls by what their arguments decode to: seven that the proxy looks into,
      the router's three other payment routes, and the rest. */
  datatype LogicCall =
    | RoutePayment(payment: Charge)
    | RoutePayments(payments: seq<Charge>)
    | RoutePaymentMeta(payment: Charge)
    | RoutePaymentWithSwapRaw(payment: Charge)
    | RoutePaymentWithSwap(payment: Charge)
    | RoutePaymentsWithSwap(payments: seq<Charge>)
    | WithdrawRefund(payment: Charge)
    | Undecodable  // one of the calls above with arguments that do not decode
    | RouteSplitPaymentWithSwap(payment: Charge)
    | RouteMultihopSwap(payment: Charge)
    | RoutePaymentWithQuote(payment: Charge)
    | OtherFunction  // no payment route, or arguments that only the logic contract refuses

  function Charges(call: LogicCall): Option<seq<Charge>> {
    match call
    case RoutePayment(c) => Some([c])
    case RoutePayments(cs) => Some(cs)
    case RoutePaymentMeta(c) => Some([c])
    case RoutePaymentWithSwapRaw(c) => Some([c])
    case RoutePaymentWithSwap(c) => Some([c])
    case RoutePaymentsWithSwap(cs) => Some(cs)
    case WithdrawRefund(c) => Some([c])
    case Undecodable => None
    case RouteSplitPaymentWithSwap(_) => Some([])
    case RouteMultihopSwap(_) => Some([])
    case RoutePaymentWithQuote(_) => Some([])
    case OtherFunction => Some([])
  }

  /** A signed intent; whether the signature verifies is decided outside. */
  datatype Intent = Intent(from: Address, nonce: nat, deadline: int, signatureValid: bool)

  // ---------- session budgets ----------

  function Authorize(
    s: State, now: int, signed: bool, key: Address, spendingLimit: int, validUntil: int): Result<State, Error>
  {
    if !signed then Err(NotAuthorized)
    else if spendingLimit <= 0 || validUntil <= now then Err(InvalidSessionAllowance)
    else Ok(s.(sessions := s.sessions[key := SessionAllowance(spendingLimit, validUntil)]))
  }

  function ChargeOne(s: State, now: int, c: Charge): Result<State, Error> {
    if c.sender !in s.sessions then Ok(s)
    else
      var allowance := s.sessions[c.sender];
      if now >= allowance.validUntil then Err(SessionExpired)
      else if c.amount <= 0 || c.amount > allowance.remaining then Err(SessionAllowanceExceeded)
      else Ok(s.(sessions := s.sessions[c.sender := allowance.(remaining := allowance.remaining - c.amount)]))
  }

  function ChargeAll(s: State, now: int, cs: seq<Charge>): Result<State, Error>
    decreases |cs|
  {
    if cs == [] then Ok(s)
    else
      match ChargeOne(s, now, cs[0])
      case Err(e) => Err(e)
      case Ok(t) => ChargeAll(t, now, cs[1..])
  }

  function Forward(s: State, now: int, call: LogicCall, logicTraps: bool): Result<State, Error> {
    if s.logic == None then Err(NotInitialized)
    else if Charges(call) == None then Err(UnsupportedSessionCall)
    else
      match ChargeAll(s, now, Charges(call).value)
      case Err(e) => Err(e)
      case Ok(t) => if logicTraps then Err(LogicTrapped) else Ok(t)
  }

  // ---------- intents ----------

  function NonceOf(s: State, account: Address): nat {
    if account in s.nonces then s.nonces[account] else 0
  }

  function ExecuteIntent(s: State, now: int, intent: Intent): Result<State, Error> {
    if now > intent.deadline then Err(DeadlineExpired)
    else if intent.nonce != NonceOf(s, intent.from) then Err(InvalidNonce)
    else if !intent.signatureValid then Err(InvalidSignature)
    else if intent.nonce + 1 > U64_MAX then Err(InvalidNonce)
    else Ok(s.(nonces := s.nonces[intent.from := intent.nonce + 1]))
  }

  function ForwardWithMeta(s: State, now: int, intent: Intent, call: LogicCall, logicTraps: bool)
    : Result<State, Error>
  {
    match ExecuteIntent(s, now, intent)
    case Err(e) => Err(e)
    case Ok(t) => Forward(t, now, call, logicTraps)
  }

  /** A batch applies what it can and reports, call by call, whether it could. */
  function Batch(s: State, now: int, calls: seq<Intent>): (State, seq<bool>)
    decreases |calls|
  {
    if calls == [] then (s, [])
    else
      match ExecuteIntent(s, now, calls[0])
      case Ok(t) =>
        var (u, results) := Batch(t, now, calls[1..]);
        (u, [true] + results)
      case Err(_) =>
        var (u, results) := Batch(s, now, calls[1..]);
        (u, [false] + results)
  }

  /** The same as deployed: there a bad signature does not come back as an error but traps,
      and takes the whole batch with it. */
  function DeployedBatch(s: State, now: int, calls: seq<Intent>): Result<(State, seq<bool>), Error>
    decreases |calls|
  {
    if calls == [] then Ok((s, []))
    else
      var r := ExecuteIntent(s, now, calls[0]);
      if r == Err(InvalidSignature) then Err(SignatureTrapped)
      else
        match DeployedBatch(if r.Ok? then r.value else s, now, calls[1..])
        case Err(e) => Err(e)
        case Ok((u, results)) => Ok((u, [r.Ok?] + results))
  }

  /** A batch in the deployed build, or in the one that takes a bad signature as an error. */
  function TolerantBatch(s: State, now: int, calls: seq<Intent>, deployed: bool): Result<(State, seq<bool>), Error> {
    if deployed then DeployedBatch(s, now, calls) else Ok(Batch(s, now, calls))
  }

  // ---------- budgets: one call ----------

  /** What the charges take from one key. */
  function Total(cs: seq<Charge>, key: Address): int {
    if cs == [] then 0 else (if cs[0].sender == key then cs[0].amount else 0) + Total(cs[1..], key)
  }

  ghost predicate Positive(cs: seq<Charge>, key: Address) {
    forall i :: 0 <= i < |cs| && cs[i].sender == key ==> cs[i].amount > 0
  }

  /** The items for `key` are positive and fit, together, into a budget that has not expired. */
  ghost predicate Affordable(s: State, now: int, cs: seq<Charge>, key: Address)
    requires key in s.sessions
  {
    && Positive(cs, key)
    && Total(cs, key) <= s.sessions[key].remaining
    && ((exists i :: 0 <= i < |cs| && cs[i].sender == key) ==> now < s.sessions[key].validUntil)
  }

  lemma {:induction false} TotalNonNegative(cs: seq<Charge>, key: Address)
    requires Positive(cs, key)
    ensures Total(cs, key) >= 0
  {
    if cs != [] {
      assert Positive(cs[1..], key) by {
        forall i | 0 <= i < |cs[1..]| && cs[1..][i].sender == key ensures cs[1..][i].amount > 0 {
          assert cs[i + 1] == cs[1..][i];
        }
      }
      TotalNonNegative(cs[1..], key);
    }
  }

  /** What an accepted list of charges does to one key. */
  ghost predicate Spent(s: State, t: State, cs: seq<Charge>, key: Address) {
    && (key in s.sessions <==> key in t.sessions)
    && (key in s.sessions ==>
          && t.sessions[key].validUntil == s.sessions[key].validUntil
          && t.sessions[key].remaining == s.sessions[key].remaining - Total(cs, key))
  }

  /** An accepted list of charges costs every key exactly its total and touches nothing else. */
  lemma {:induction false} ChargeAllSpends(s: State, now: int, cs: seq<Charge>, key: Address)
    requires ChargeAll(s, now, cs).Ok?
    ensures var t := ChargeAll(s, now, cs).value;
            Spent(s, t, cs, key) && t.nonces == s.nonces && t.logic == s.logic
    decreases |cs|
  {
    if cs != [] {
      ChargeAllSpends(ChargeOne(s, now, cs[0]).value, now, cs[1..], key);
    }
  }

  lemma AffordableSplits(s: State, now: int, cs: seq<Charge>, key: Address)
    requires cs != [] && key in s.sessions && ChargeOne(s, now, cs[0]).Ok?
    ensures key in ChargeOne(s, now, cs[0]).value.sessions
    ensures Affordable(s, now, cs, key) <==> Affordable(ChargeOne(s, now, cs[0]).value, now, cs[1..], key)
  {
    var t := ChargeOne(s, now, cs[0]).value;
    assert cs == [cs[0]] + cs[1..];
    assert forall i :: 0 <= i < |cs[1..]| ==> cs[1..][i] == cs[i + 1];
    assert forall i :: 1 <= i < |cs| ==> cs[i] == cs[1..][i - 1];
    if Affordable(s, now, cs, key) {
      assert Affordable(t, now, cs[1..], key);
    }
    if Affordable(t, now, cs[1..], key) {
      assert Positive(cs, key);
    }
  }

  ghost predicate NoOverdraft(s: State) {
    forall key :: key in s.sessions ==> s.sessions[key].remaining >= 0
  }

  lemma RefusedIsUnaffordable(s: State, now: int, cs: seq<Charge>)
    requires cs != [] && ChargeOne(s, now, cs[0]).Err?
    ensures cs[0].sender in s.sessions && !Affordable(s, now, cs, cs[0].sender)
  {
    var key := cs[0].sender;
    if Positive(cs, key) {
      assert forall i :: 0 <= i < |cs[1..]| ==> cs[1..][i] == cs[i + 1];
      assert Positive(cs[1..], key);
      TotalNonNegative(cs[1..], key);
    }
  }

  /** A list of charges, several for the same key included, is accepted exactly when every
      session key can afford its share. */
  lemma {:induction false} AcceptedExactlyIfAffordable(s: State, now: int, cs: seq<Charge>)
    requires NoOverdraft(s)
    ensures ChargeAll(s, now, cs).Ok? <==> forall key :: key in s.sessions ==> Affordable(s, now, cs, key)
    decreases |cs|
  {
    if cs == [] {
    } else if ChargeOne(s, now, cs[0]).Err? {
      RefusedIsUnaffordable(s, now, cs);
    } else {
      var t := ChargeOne(s, now, cs[0]).value;
      assert t.sessions.Keys == s.sessions.Keys;
      AcceptedExactlyIfAffordable(t, now, cs[1..]);
      forall key | key in s.sessions {
        AffordableSplits(s, now, cs, key);
      }
    }
  }

  // ---------- runs ----------

  datatype Op =
    | OpAuthorize(signed: bool, key: Address, spendingLimit: int, validUntil: int)
    | OpForward(call: LogicCall, logicTraps: bool)
    | OpExecute(intent: Intent)
    | OpForwardWithMeta(intent: Intent, call: LogicCall, logicTraps: bool)
    | OpBatch(intents: seq<Intent>, deployed: bool)

  function Apply(s: State, now: int, op: Op): Result<State, Error> {
    match op
    case OpAuthorize(signed, key, limit, validUntil) => Authorize(s, now, signed, key, limit, validUntil)
    case OpForward(call, traps) => Forward(s, now, call, traps)
    case OpExecute(intent) => ExecuteIntent(s, now, intent)
    case OpForwardWithMeta(intent, call, traps) => ForwardWithMeta(s, now, intent, call, traps)
    case OpBatch(intents, deployed) =>
      match TolerantBatch(s, now, intents, deployed)
      case Ok((t, _)) => Ok(t)
      case Err(e) => Err(e)
  }

  function Step(s: State, now: int, op: Op): State {
    match Apply(s, now, op) case Ok(t) => t case Err(_) => s
  }

  function Run(s: State, calls: seq<(int, Op)>): State
    decreases |calls|
  {
    if calls == [] then s else Run(Step(s, calls[0].0, calls[0].1), calls[1..])
  }

  /** What one accepted operation charges to a key. */
  function Charged(s: State, now: int, op: Op, key: Address): int {
    if Apply(s, now, op).Err? then 0
    else if op.OpForward? || op.OpForwardWithMeta? then Total(Charges(op.call).value, key)
    else 0
  }

  function TotalCharged(s: State, calls: seq<(int, Op)>, key: Address): int
    decreases |calls|
  {
    if calls == [] then 0
    else Charged(s, calls[0].0, calls[0].1, key) + TotalCharged(Step(s, calls[0].0, calls[0].1), calls[1..], key)
  }

  /** When its turn comes, the call is in time and at its account's nonce, so that its
      signature is looked at. */
  predicate ReachesSignature(s: State, now: int, calls: seq<Intent>, i: nat)
    requires i < |calls|
  {
    now <= calls[i].deadline && calls[i].nonce == NonceOf(Batch(s, now, calls[..i]).0, calls[i].from)
  }

  ghost predicate SignaturesHold(s: State, now: int, calls: seq<Intent>) {
    forall i :: 0 <= i < |calls| && ReachesSignature(s, now, calls, i) ==> calls[i].signatureValid
  }

  lemma ReachesLater(s: State, now: int, calls: seq<Intent>, i: nat)
    requires i < |calls| - 1
    ensures var r := ExecuteIntent(s, now, calls[0]);
            ReachesSignature(s, now, calls, i + 1) <==>
            ReachesSignature(if r.Ok? then r.value else s, now, calls[1..], i)
  {
    assert calls[..i + 1][0] == calls[0] && calls[..i + 1][1..] == calls[1..][..i];
  }

  /** As deployed, a batch completes exactly if every call whose signature is looked at has a
      valid one, and then it does and reports what the tolerant batch does. */
  lemma {:induction false} DeployedBatchExactly(s: State, now: int, calls: seq<Intent>)
    ensures DeployedBatch(s, now, calls).Ok? <==> SignaturesHold(s, now, calls)
    ensures DeployedBatch(s, now, calls).Ok? ==> DeployedBatch(s, now, calls) == Ok(Batch(s, now, calls))
    decreases |calls|
  {
    if calls != [] {
      var r := ExecuteIntent(s, now, calls[0]);
      var t := if r.Ok? then r.value else s;
      assert calls[..0] == [];
      assert ReachesSignature(s, now, calls, 0) && !calls[0].signatureValid <==> r == Err(InvalidSignature);
      DeployedBatchExactly(t, now, calls[1..]);
      forall i | 0 <= i < |calls| - 1
        ensures ReachesSignature(s, now, calls, i + 1) <==> ReachesSignature(t, now, calls[1..], i)
      {
        ReachesLater(s, now, calls, i);
      }
      if SignaturesHold(s, now, calls) {
        forall i | 0 <= i < |calls[1..]| && ReachesSignature(t, now, calls[1..], i)
          ensures calls[1..][i].signatureValid
        {
          assert ReachesSignature(s, now, calls, i + 1);
        }
      }
      if r != Err(InvalidSignature) && SignaturesHold(t, now, calls[1..]) {
        forall i | 0 <= i < |calls| && ReachesSignature(s, now, calls, i) ensures calls[i].signatureValid {
          if i > 0 {
            assert calls[i] == calls[1..][i - 1] && ReachesSignature(t, now, calls[1..], i - 1);
          }
        }
      }
    }
  }

  lemma {:induction false} BatchKeepsSessions(s: State, now: int, calls: seq<Intent>)
    ensures Batch(s, now, calls).0.sessions == s.sessions
    decreases |calls|
  {
    if calls != [] {
      match ExecuteIntent(s, now, calls[0]) {
        case Ok(t) => BatchKeepsSessions(t, now, calls[1..]);
        case Err(_) => BatchKeepsSessions(s, now, calls[1..]);
      }
    }
  }

  lemma ForwardSpends(s: State, now: int, call: LogicCall, traps: bool, key: Address)
    requires Forward(s, now, call, traps).Ok?
    ensures Spent(s, Forward(s, now, call, traps).value, Charges(call).value, key)
    ensures NoOverdraft(s) ==> NoOverdraft(Forward(s, now, call, traps).value)
    ensures Forward(s, now, call, traps).value.nonces == s.nonces
  {
    var cs := Charges(call).value;
    var t := ChargeAll(s, now, cs).value;
    ChargeAllSpends(s, now, cs, key);
    if NoOverdraft(s) {
      AcceptedExactlyIfAffordable(s, now, cs);
      forall k | k in t.sessions ensures t.sessions[k].remaining >= 0 {
        ChargeAllSpends(s, now, cs, k);
      }
    }
  }

  predicate Regrants(op: Op, key: Address) {
    op.OpAuthorize? && op.key == key
  }

  lemma StepBudget(s: State, now: int, op: Op, key: Address)
    requires NoOverdraft(s)
    ensures NoOverdraft(Step(s, now, op))
    ensures key in s.sessions ==> key in Step(s, now, op).sessions
    ensures key in s.sessions && !Regrants(op, key) ==>
              Step(s, now, op).sessions[key].remaining == s.sessions[key].remaining - Charged(s, now, op, key)
  {
    if Apply(s, now, op).Ok? {
      match op {
        case OpForward(call, traps) =>
          ForwardSpends(s, now, call, traps, key);
        case OpForwardWithMeta(intent, call, traps) =>
          ForwardSpends(ExecuteIntent(s, now, intent).value, now, call, traps, key);
        case OpBatch(intents, _) =>
          DeployedBatchExactly(s, now, intents);
          BatchKeepsSessions(s, now, intents);
        case _ =>
      }
    }
  }

  /** Between two grants, what was charged to a session key plus what remains is what it
      started with, and no key is ever overdrawn. */
  lemma {:induction false} BudgetConserved(s: State, calls: seq<(int, Op)>, key: Address)
    requires NoOverdraft(s) && key in s.sessions
    requires forall i :: 0 <= i < |calls| ==> !Regrants(calls[i].1, key)
    ensures NoOverdraft(Run(s, calls)) && key in Run(s, calls).sessions
    ensures TotalCharged(s, calls, key) + Run(s, calls).sessions[key].remaining == s.sessions[key].remaining
    decreases |calls|
  {
    if calls != [] {
      StepBudget(s, calls[0].0, calls[0].1, key);
      BudgetConserved(Step(s, calls[0].0, calls[0].1), calls[1..], key);
    }
  }

  /** A fresh grant of `limit` is charged at most `limit` until the next one. */
  lemma GrantBoundsSpending(s: State, now: int, signed: bool, key: Address, limit: int, validUntil: int,
                            calls: seq<(int, Op)>)
    requires NoOverdraft(s) && Authorize(s, now, signed, key, limit, validUntil).Ok?
    requires forall i :: 0 <= i < |calls| ==> !Regrants(calls[i].1, key)
    ensures TotalCharged(Authorize(s, now, signed, key, limit, validUntil).value, calls, key) <= limit
  {
    BudgetConserved(Authorize(s, now, signed, key, limit, validUntil).value, calls, key);
  }

  // ---------- what passes, and what of it is charged ----------

  datatype Route =
    | Direct | DirectBatch | Meta | RawSwap | Swap | SwapBatch | Refund | SplitSwap | MultihopSwap | Quote

  function RouteOf(call: LogicCall): Option<Route> {
    match call
    case RoutePayment(_) => Some(Direct)
    case RoutePayments(_) => Some(DirectBatch)
    case RoutePaymentMeta(_) => Some(Meta)
    case RoutePaymentWithSwapRaw(_) => Some(RawSwap)
    case RoutePaymentWithSwap(_) => Some(Swap)
    case RoutePaymentsWithSwap(_) => Some(SwapBatch)
    case WithdrawRefund(_) => Some(Refund)
    case RouteSplitPaymentWithSwap(_) => Some(SplitSwap)
    case RouteMultihopSwap(_) => Some(MultihopSwap)
    case RoutePaymentWithQuote(_) => Some(Quote)
    case _ => None
  }

  /** The payments that a call asks for. */
  function Payments(call: LogicCall): seq<Charge> {
    if RouteOf(call) == None then []
    else if call.RoutePayments? || call.RoutePaymentsWithSwap? then call.payments
    else [call.payment]
  }

  /** The routes that allowances count. */
  predicate IsCounted(route: Route) {
    route !in {SplitSwap, MultihopSwap, Quote}
  }

  predicate Forwards(s: State, now: int, op: Op) {
    (op.OpForward? || op.OpForwardWithMeta?) && Apply(s, now, op).Ok?
  }

  /** What one accepted operation lets through for a key. */
  function Passed(s: State, now: int, op: Op, key: Address): int {
    if Forwards(s, now, op) then Total(Payments(op.call), key) else 0
  }

  function TotalPassed(s: State, calls: seq<(int, Op)>, key: Address): int
    decreases |calls|
  {
    if calls == [] then 0
    else Passed(s, calls[0].0, calls[0].1, key) + TotalPassed(Step(s, calls[0].0, calls[0].1), calls[1..], key)
  }

  /** The part of it that takes an uncounted route. */
  function Uncounted(s: State, now: int, op: Op, key: Address): int {
    if Forwards(s, now, op) && RouteOf(op.call).Some? && !IsCounted(RouteOf(op.call).value)
    then Total(Payments(op.call), key)
    else 0
  }

  function TotalUncounted(s: State, calls: seq<(int, Op)>, key: Address): int
    decreases |calls|
  {
    if calls == [] then 0
    else Uncounted(s, calls[0].0, calls[0].1, key) + TotalUncounted(Step(s, calls[0].0, calls[0].1), calls[1..], key)
  }

  /** What passes for a key in an accepted payment lowers the key's allowance exactly if the
      route is a counted one; otherwise the allowance stays as it is. */
  lemma LowersAllowanceExactlyIfCounted(s: State, now: int, op: Op, key: Address)
    requires NoOverdraft(s) && key in s.sessions && Forwards(s, now, op) && Passed(s, now, op, key) != 0
    ensures var t := Step(s, now, op);
            && RouteOf(op.call).Some? && key in t.sessions
            && (t.sessions[key].remaining == s.sessions[key].remaining - Passed(s, now, op, key)
                <==> IsCounted(RouteOf(op.call).value))
            && (!IsCounted(RouteOf(op.call).value) ==> t.sessions[key] == s.sessions[key])
  {
    var t := if op.OpForward? then s else ExecuteIntent(s, now, op.intent).value;
    ForwardSpends(t, now, op.call, op.logicTraps, key);
  }

  /** On an uncounted route it makes no difference whether the allowance is spent, expired or
      has never been granted. */
  lemma UncountedIgnoresAllowances(
      s: State, now: int, call: LogicCall, traps: bool, sessions: map<Address, SessionAllowance>)
    requires RouteOf(call).Some? && !IsCounted(RouteOf(call).value)
    ensures Forward(s, now, call, traps).Ok? <==> Forward(s.(sessions := sessions), now, call, traps).Ok?
    ensures Forward(s, now, call, traps).Ok? ==> Forward(s, now, call, traps) == Ok(s)
  {
  }

  lemma PassedSplits(s: State, now: int, op: Op, key: Address)
    ensures Passed(s, now, op, key) == Charged(s, now, op, key) + Uncounted(s, now, op, key)
  {
  }

  /** Over every run, what passed for a key is what was charged to it and what took uncounted
      routes. */
  lemma {:induction false} PassedIsChargedOrUncounted(s: State, calls: seq<(int, Op)>, key: Address)
    ensures TotalPassed(s, calls, key) == TotalCharged(s, calls, key) + TotalUncounted(s, calls, key)
    decreases |calls|
  {
    if calls != [] {
      PassedSplits(s, calls[0].0, calls[0].1, key);
      PassedIsChargedOrUncounted(Step(s, calls[0].0, calls[0].1), calls[1..], key);
    }
  }

  /** So a grant bounds what passes exactly as long as the uncounted routes take no more than
      what it has left. */
  lemma GrantBoundsPassedExactly(
      s: State, now: int, signed: bool, key: Address, limit: int, validUntil: int, calls: seq<(int, Op)>)
    requires NoOverdraft(s) && Authorize(s, now, signed, key, limit, validUntil).Ok?
    requires forall i :: 0 <= i < |calls| ==> !Regrants(calls[i].1, key)
    ensures var t := Authorize(s, now, signed, key, limit, validUntil).value;
            && key in Run(t, calls).sessions
            && (TotalPassed(t, calls, key) <= limit <==>
                TotalUncounted(t, calls, key) <= Run(t, calls).sessions[key].remaining)
  {
    var t := Authorize(s, now, signed, key, limit, validUntil).value;
    BudgetConserved(t, calls, key);
    PassedIsChargedOrUncounted(t, calls, key);
  }

  /** A run without another grant for the key, in which its payments take only these routes. */
  ghost predicate KeepsTo(calls: seq<(int, Op)>, key: Address, routes: set<Route>) {
    forall i :: 0 <= i < |calls| ==>
      && !Regrants(calls[i].1, key)
      && (calls[i].1.OpForward? || calls[i].1.OpForwardWithMeta? ==> CallKeepsTo(calls[i].1.call, key, routes))
  }

  predicate CallKeepsTo(call: LogicCall, key: Address, routes: set<Route>) {
    RouteOf(call).Some? && Total(Payments(call), key) != 0 ==> RouteOf(call).value in routes
  }

  lemma {:induction false} CountedRoutesOnly(s: State, calls: seq<(int, Op)>, key: Address, routes: set<Route>)
    requires KeepsTo(calls, key, routes) && forall route :: route in routes ==> IsCounted(route)
    ensures TotalUncounted(s, calls, key) == 0
    decreases |calls|
  {
    if calls != [] {
      assert forall i :: 0 <= i < |calls[1..]| ==> calls[1..][i] == calls[i + 1];
      CountedRoutesOnly(Step(s, calls[0].0, calls[0].1), calls[1..], key, routes);
    }
  }

  /** A payment on an uncounted route. */
  function UncountedCall(route: Route, c: Charge): LogicCall
    requires !IsCounted(route)
  {
    match route
    case SplitSwap => RouteSplitPaymentWithSwap(c)
    case MultihopSwap => RouteMultihopSwap(c)
    case Quote => RoutePaymentWithQuote(c)
  }

  /** Over every run on a set of routes a grant bounds what passes exactly if allowances
      count each of these routes. */
  lemma GrantBoundsRoutesExactly(
      s: State, now: int, signed: bool, key: Address, limit: int, validUntil: int, routes: set<Route>)
    requires NoOverdraft(s) && s.logic.Some? && Authorize(s, now, signed, key, limit, validUntil).Ok?
    ensures var t := Authorize(s, now, signed, key, limit, validUntil).value;
            (forall calls :: KeepsTo(calls, key, routes) ==> TotalPassed(t, calls, key) <= limit)
            <==> forall route :: route in routes ==> IsCounted(route)
  {
    var t := Authorize(s, now, signed, key, limit, validUntil).value;
    if forall route :: route in routes ==> IsCounted(route) {
      forall calls | KeepsTo(calls, key, routes) ensures TotalPassed(t, calls, key) <= limit {
        CountedRoutesOnly(t, calls, key, routes);
        BudgetConserved(t, calls, key);
        PassedIsChargedOrUncounted(t, calls, key);
      }
    } else {
      var route :| route in routes && !IsCounted(route);
      var c := Charge(key, limit + 1);
      var calls := [(now, OpForward(UncountedCall(route, c), false))];
      assert [c][1..] == [] && Total([c], key) == limit + 1;
      RunOne(t, calls, key);
      assert KeepsTo(calls, key, routes) && TotalPassed(t, calls, key) == limit + 1;
    }
  }

  /** A run from a new proxy: a grant, a payment that spends all of it, and then a path
      payment of any amount, which goes through and is not charged. */
  lemma SpentKeyStillPasses(logic: Address, key: Address, limit: int, amount: int, calls: seq<(int, Op)>)
    requires limit > 0 && |calls| == 3
    requires calls[0] == (0, OpAuthorize(true, key, limit, 1))
    requires calls[1] == (0, OpForward(RoutePayment(Charge(key, limit)), false))
    requires calls[2] == (0, OpForward(RouteMultihopSwap(Charge(key, amount)), false))
    ensures var s := State(Some(logic), map[], map[]);
            && Run(s, calls).sessions == map[key := SessionAllowance(0, 1)]
            && TotalPassed(s, calls, key) == limit + amount && TotalCharged(s, calls, key) == limit
  {
    var s := State(Some(logic), map[], map[]);
    var s1 := Step(s, 0, calls[0].1);
    assert s1 == State(Some(logic), map[key := SessionAllowance(limit, 1)], map[]);
    var one := [Charge(key, limit)];
    assert one[1..] == [] && Total(one, key) == limit;
    assert ChargeAll(s1, 0, one) == ChargeOne(s1, 0, one[0]);
    var s2 := Step(s1, 0, calls[1].1);
    assert s2.sessions == map[key := SessionAllowance(0, 1)];
    assert [Charge(key, amount)][1..] == [] && Total([Charge(key, amount)], key) == amount;
    assert Step(s2, 0, calls[2].1) == s2 && Passed(s2, 0, calls[2].1, key) == amount;
    var rest := calls[1..];
    assert rest[0] == calls[1] && rest[1..][0] == calls[2] && rest[1..][1..] == [];
    RunOne(s2, rest[1..], key);
    RunOne(s1, rest, key);
    RunOne(s, calls, key);
  }

  lemma RunOne(s: State, calls: seq<(int, Op)>, key: Address)
    requires calls != []
    ensures var (now, op) := calls[0];
            && Run(s, calls) == Run(Step(s, now, op), calls[1..])
            && TotalPassed(s, calls, key) == Passed(s, now, op, key) + TotalPassed(Step(s, now, op), calls[1..], key)
            && TotalCharged(s, calls, key) == Charged(s, now, op, key) + TotalCharged(Step(s, now, op), calls[1..], key)
  {
  }

  // ---------- what is accepted ----------

  /** A grant needs the key's own signature, a positive limit and an expiry in the future, and
      stores exactly these for that key. */
  lemma GrantsExactly(s: State, now: int, signed: bool, key: Address, limit: int, validUntil: int)
    ensures Authorize(s, now, signed, key, limit, validUntil).Ok? <==> signed && limit > 0 && now < validUntil
    ensures Authorize(s, now, signed, key, limit, validUntil).Ok? ==>
              Authorize(s, now, signed, key, limit, validUntil).value ==
              s.(sessions := s.sessions[key := SessionAllowance(limit, validUntil)])
  {
  }

  /** An intent is accepted exactly in time, at the account's nonce, with a valid signature,
      and short of the largest nonce; it moves that nonce by one and nothing else. */
  lemma IntentAcceptedExactly(s: State, now: int, intent: Intent)
    ensures ExecuteIntent(s, now, intent).Ok? <==>
              && now <= intent.deadline && intent.nonce == NonceOf(s, intent.from) && intent.signatureValid
              && intent.nonce < 0xFFFF_FFFF_FFFF_FFFF
    ensures ExecuteIntent(s, now, intent).Ok? ==>
              var t := ExecuteIntent(s, now, intent).value;
              && t.sessions == s.sessions && t.logic == s.logic
              && forall account :: NonceOf(t, account) == NonceOf(s, account) + if account == intent.from then 1 else 0
  {
  }

  /** A call is forwarded exactly if there is a logic contract, the arguments of a counted call
      decode, each session key affords its charges, and the logic contract does not trap. */
  lemma ForwardedExactly(s: State, now: int, call: LogicCall, traps: bool)
    requires NoOverdraft(s)
    ensures Forward(s, now, call, traps).Ok? <==>
              && s.logic.Some? && call != Undecodable && !traps
              && (RouteOf(call).Some? && IsCounted(RouteOf(call).value) ==>
                    forall key :: key in s.sessions ==> Affordable(s, now, Payments(call), key))
  {
    if call != Undecodable {
      AcceptedExactlyIfAffordable(s, now, Charges(call).value);
      if RouteOf(call) == None || !IsCounted(RouteOf(call).value) {
        assert Charges(call) == Some([]);
      }
    }
  }

  /** Every error of the proxy tells the truth. */
  lemma ErrorsAreTrue(s: State, now: int, intent: Intent, call: LogicCall, traps: bool, c: Charge)
    ensures match ExecuteIntent(s, now, intent)
            case Ok(_) => true
            case Err(DeadlineExpired) => now > intent.deadline
            case Err(InvalidNonce) =>
              intent.nonce != NonceOf(s, intent.from) || intent.nonce >= 0xFFFF_FFFF_FFFF_FFFF
            case Err(InvalidSignature) => !intent.signatureValid
            case Err(_) => false
    ensures match ChargeOne(s, now, c)
            case Ok(_) => true
            case Err(SessionExpired) => c.sender in s.sessions && s.sessions[c.sender].validUntil <= now
            case Err(SessionAllowanceExceeded) =>
              c.sender in s.sessions && (c.amount <= 0 || c.amount > s.sessions[c.sender].remaining)
            case Err(_) => false
    ensures match Forward(s, now, call, traps)
            case Ok(_) => true
            case Err(NotInitialized) => s.logic == None
            case Err(UnsupportedSessionCall) => call == Undecodable
            case Err(LogicTrapped) => traps
            case Err(e) => Charges(call).Some? && ChargeAll(s, now, Charges(call).value) == Err(e)
  {
    if Charges(call).Some? {
      ChargeErrorsAreTrue(s, now, Charges(call).value);
    }
  }

  lemma {:induction false} ChargeErrorsAreTrue(s: State, now: int, cs: seq<Charge>)
    ensures ChargeAll(s, now, cs).Err? ==> ChargeAll(s, now, cs).error in {SessionExpired, SessionAllowanceExceeded}
    decreases |cs|
  {
    if cs != [] && ChargeOne(s, now, cs[0]).Ok? {
      ChargeErrorsAreTrue(ChargeOne(s, now, cs[0]).value, now, cs[1..]);
    }
  }

  // ---------- nonces over runs ----------

  /** The nonces that one operation consumes for an account, in order. */
  function BatchNonces(s: State, now: int, calls: seq<Intent>, account: Address): seq<nat>
    decreases |calls|
  {
    if calls == [] then []
    else
      match ExecuteIntent(s, now, calls[0])
      case Err(_) => BatchNonces(s, now, calls[1..], account)
      case Ok(t) =>
        (if calls[0].from == account then [calls[0].nonce] else []) + BatchNonces(t, now, calls[1..], account)
  }

  function StepNonces(s: State, now: int, op: Op, account: Address): seq<nat> {
    if Apply(s, now, op).Err? then []
    else
      match op
      case OpExecute(intent) => if intent.from == account then [intent.nonce] else []
      case OpForwardWithMeta(intent, _, _) => if intent.from == account then [intent.nonce] else []
      case OpBatch(intents, _) => BatchNonces(s, now, intents, account)
      case _ => []
  }

  function RunNonces(s: State, calls: seq<(int, Op)>, account: Address): seq<nat>
    decreases |calls|
  {
    if calls == [] then []
    else
      StepNonces(s, calls[0].0, calls[0].1, account)
      + RunNonces(Step(s, calls[0].0, calls[0].1), calls[1..], account)
  }

  /** `consumed` counts up from the account's nonce in `s` and ends just below the one in `t`. */
  ghost predicate CountsUp(s: State, t: State, account: Address, consumed: seq<nat>) {
    && NonceOf(t, account) == NonceOf(s, account) + |consumed|
    && forall i :: 0 <= i < |consumed| ==> consumed[i] == NonceOf(s, account) + i
  }

  lemma CountsUpChains(s: State, t: State, u: State, account: Address, a: seq<nat>, b: seq<nat>)
    requires CountsUp(s, t, account, a) && CountsUp(t, u, account, b)
    ensures CountsUp(s, u, account, a + b)
  {
  }

  lemma {:induction false} BatchCountsUp(s: State, now: int, calls: seq<Intent>, account: Address)
    ensures CountsUp(s, Batch(s, now, calls).0, account, BatchNonces(s, now, calls, account))
    decreases |calls|
  {
    if calls != [] {
      match ExecuteIntent(s, now, calls[0]) {
        case Err(_) => BatchCountsUp(s, now, calls[1..], account);
        case Ok(t) =>
          BatchCountsUp(t, now, calls[1..], account);
          var head := if calls[0].from == account then [calls[0].nonce] else [];
          CountsUpChains(s, t, Batch(s, now, calls).0, account, head, BatchNonces(t, now, calls[1..], account));
      }
    }
  }

  lemma StepCountsUp(s: State, now: int, op: Op, account: Address)
    ensures CountsUp(s, Step(s, now, op), account, StepNonces(s, now, op, account))
  {
    if Apply(s, now, op).Ok? {
      match op {
        case OpForward(call, traps) =>
          ForwardSpends(s, now, call, traps, account);
        case OpForwardWithMeta(intent, call, traps) =>
          ForwardSpends(ExecuteIntent(s, now, intent).value, now, call, traps, account);
        case OpBatch(intents, _) =>
          DeployedBatchExactly(s, now, intents);
          BatchCountsUp(s, now, intents, account);
        case _ =>
      }
    }
  }

  /** Over every run, batches included, the nonces accepted for an account count up by one
      from where it stood: none is skipped and none is used twice. */
  lemma {:induction false} NoncesCountUp(s: State, calls: seq<(int, Op)>, account: Address)
    ensures CountsUp(s, Run(s, calls), account, RunNonces(s, calls, account))
    decreases |calls|
  {
    if calls != [] {
      var t := Step(s, calls[0].0, calls[0].1);
      StepCountsUp(s, calls[0].0, calls[0].1, account);
      NoncesCountUp(t, calls[1..], account);
      CountsUpChains(s, t, Run(s, calls), account, StepNonces(s, calls[0].0, calls[0].1, account),
                     RunNonces(t, calls[1..], account));
    }
  }

  // ---------- tolerant batches ----------

  /** Executes the calls one after the other and fails at the first that fails. */
  function Strict(s: State, now: int, calls: seq<Intent>): Result<State, Error>
    decreases |calls|
  {
    if calls == [] then Ok(s)
    else
      match ExecuteIntent(s, now, calls[0])
      case Err(e) => Err(e)
      case Ok(t) => Strict(t, now, calls[1..])
  }

  /** The calls marked `true`. */
  function Marked(calls: seq<Intent>, marks: seq<bool>): seq<Intent>
    requires |calls| == |marks|
  {
    if calls == [] then []
    else (if marks[0] then [calls[0]] else []) + Marked(calls[1..], marks[1..])
  }

  /** A batch reports once per call and does exactly what executing its accepted calls alone,
      strictly and in order, would do. */
  lemma {:induction false} BatchIsFoldOfAccepted(s: State, now: int, calls: seq<Intent>)
    ensures |Batch(s, now, calls).1| == |calls|
    ensures Strict(s, now, Marked(calls, Batch(s, now, calls).1)) == Ok(Batch(s, now, calls).0)
    decreases |calls|
  {
    if calls != [] {
      match ExecuteIntent(s, now, calls[0]) {
        case Ok(t) =>
          BatchIsFoldOfAccepted(t, now, calls[1..]);
          var rest := Batch(t, now, calls[1..]).1;
          assert ([true] + rest)[1..] == rest;
          assert ([calls[0]] + Marked(calls[1..], rest))[1..] == Marked(calls[1..], rest);
        case Err(_) =>
          BatchIsFoldOfAccepted(s, now, calls[1..]);
          var rest := Batch(s, now, calls[1..]).1;
          assert ([false] + rest)[1..] == rest;
          assert [] + Marked(calls[1..], rest) == Marked(calls[1..], rest);
      }
    }
  }

  // ---------- the contract on stored fields ----------

  class Proxy {
    const deployed: bool  // otherwise a bad signature is an error result
    var logic: Option<Address>
    var sessions: map<Address, SessionAllowance>
    var nonces: map<Address, nat>

    ghost function Now(): State
      reads this
    {
      State(logic, sessions, nonces)
    }

    constructor (logicContract: Address, deployed: bool)
      ensures Now() == State(Some(logicContract), map[], map[]) && this.deployed == deployed
    {
      logic, sessions, nonces := Some(logicContract), map[], map[];
      this.deployed := deployed;
    }

    method AuthorizeSessionKey(now: int, signed: bool, key: Address, spendingLimit: int, validUntil: int)
      returns (r: Result<(), Error>)
      modifies this
      ensures Performed(Authorize(old(Now()), now, signed, key, spendingLimit, validUntil), old(Now()), Now(), r)
    {
      if !signed {
        return Err(NotAuthorized);
      }
      if spendingLimit <= 0 || validUntil <= now {
        return Err(InvalidSessionAllowance);
      }
      sessions := sessions[key := SessionAllowance(spendingLimit, validUntil)];
      return Ok(());
    }

    method ChargeIfSession(now: int, sender: Address, amount: int) returns (r: Result<(), Error>)
      modifies this`sessions
      ensures Performed(ChargeOne(old(Now()), now, Charge(sender, amount)), old(Now()), Now(), r)
    {
      if sender !in sessions {
        return Ok(());
      }
      var allowance := sessions[sender];
      if now >= allowance.validUntil {
        return Err(SessionExpired);
      }
      if amount <= 0 || amount > allowance.remaining {
        return Err(SessionAllowanceExceeded);
      }
      sessions := sessions[sender := allowance.(remaining := allowance.remaining - amount)];
      return Ok(());
    }

    /** Charges item by item; on a failure the earlier items of the call are undone with it. */
    method ChargeSessionAllowance(now: int, charges: seq<Charge>) returns (r: Result<(), Error>)
      modifies this`sessions
      ensures Performed(ChargeAll(old(Now()), now, charges), old(Now()), Now(), r)
    {
      var saved := sessions;
      var i := 0;
      assert charges[0..] == charges;
      while i < |charges|
        invariant 0 <= i <= |charges|
        invariant ChargeAll(Now(), now, charges[i..]) == ChargeAll(old(Now()), now, charges)
      {
        assert charges[i..][0] == charges[i] && charges[i..][1..] == charges[i + 1..];
        var charged := ChargeIfSession(now, charges[i].sender, charges[i].amount);
        if charged.Err? {
          sessions := saved;  // the host discards the writes of a failed call
          return charged;
        }
        i := i + 1;
      }
      return Ok(());
    }

    method ForwardCall(now: int, call: LogicCall, logicTraps: bool) returns (r: Result<(), Error>)
      modifies this`sessions
      ensures Performed(Forward(old(Now()), now, call, logicTraps), old(Now()), Now(), r)
    {
      if logic == None {
        return Err(NotInitialized);
      }
      var charges := Charges(call);
      if charges == None {
        return Err(UnsupportedSessionCall);
      }
      var saved := sessions;
      r := ChargeSessionAllowance(now, charges.value);
      if r.Ok? && logicTraps {
        sessions := saved;  // the host discards the writes of a failed call
        r := Err(LogicTrapped);
      }
    }

    method ExecutePaymentIntent(now: int, intent: Intent) returns (r: Result<(), Error>)
      modifies this`nonces
      ensures Performed(ExecuteIntent(old(Now()), now, intent), old(Now()), Now(), r)
    {
      if now > intent.deadline {
        return Err(DeadlineExpired);
      }
      var currentNonce := if intent.from in nonces then nonces[intent.from] else 0;
      if intent.nonce != currentNonce {
        return Err(InvalidNonce);
      }
      if !intent.signatureValid {
        return Err(InvalidSignature);
      }
      if intent.nonce + 1 > U64_MAX {
        return Err(InvalidNonce);
      }
      nonces := nonces[intent.from := intent.nonce + 1];
      return Ok(());
    }

    method ExecuteBatchTolerant(now: int, calls: seq<Intent>) returns (r: Result<seq<bool>, Error>)
      modifies this`nonces
      ensures match TolerantBatch(old(Now()), now, calls, deployed)
              case Ok((t, results)) => r == Ok(results) && Now() == t
              case Err(e) => r == Err(e) && Now() == old(Now())
    {
      var saved := nonces;
      var results := [];
      ghost var s := Now();
      var i := 0;
      assert calls[0..] == calls;
      PrependNothing(TolerantBatch(s, now, calls, deployed));
      while i < |calls|
        invariant 0 <= i <= |calls| && logic == s.logic && sessions == s.sessions
        invariant Prepend(results, TolerantBatch(Now(), now, calls[i..], deployed)) ==
            TolerantBatch(s, now, calls, deployed)
      {
        BatchUnfolds(Now(), now, calls, i, results, deployed);
        var executed := ExecutePaymentIntent(now, calls[i]);
        if executed == Err(InvalidSignature) && deployed {
          nonces := saved;  // the trap takes the earlier items with it
          return Err(SignatureTrapped);
        }
        results := results + [executed.Ok?];
        i := i + 1;
      }
      assert results + [] == results;
      return Ok(results);
    }
  }

  function Prepend(results: seq<bool>, r: Result<(State, seq<bool>), Error>): Result<(State, seq<bool>), Error> {
    match r
    case Ok((t, rest)) => Ok((t, results + rest))
    case Err(e) => Err(e)
  }

  lemma PrependNothing(r: Result<(State, seq<bool>), Error>)
    ensures Prepend([], r) == r
  {
    if r.Ok? {
      assert [] + r.value.1 == r.value.1;
    }
  }

  lemma BatchUnfolds(s: State, now: int, calls: seq<Intent>, i: nat, results: seq<bool>, deployed: bool)
    requires i < |calls|
    ensures var r := ExecuteIntent(s, now, calls[i]);
            Prepend(results, TolerantBatch(s, now, calls[i..], deployed)) ==
            if r == Err(InvalidSignature) && deployed then Err(SignatureTrapped)
            else Prepend(results + [r.Ok?], TolerantBatch(if r.Ok? then r.value else s, now, calls[i + 1..], deployed))
  {
    assert calls[i..][0] == calls[i] && calls[i..][1..] == calls[i + 1..];
    var r := ExecuteIntent(s, now, calls[i]);
    var rest := TolerantBatch(if r.Ok? then r.value else s, now, calls[i + 1..], deployed);
    if rest.Ok? {
      assert results + ([r.Ok?] + rest.value.1) == (results + [r.Ok?]) + rest.value.1;
    }
  }
}
