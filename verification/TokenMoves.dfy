/** Whose tokens the operations of the pausable token move, and on whose word: the balance of
    every account, the allowance of every pair, and who has to sign. */
module TokenMoves {
  import opened ByteOrder
  import opened MapSum
  import opened PausableToken
  import opened Wrappers

  // ---------- balances ----------

  /** What the items of a batch bring to an account, from the `i`-th on. */
  function BatchShare(recipients: seq<Address>, amounts: seq<int>, i: nat, x: Address): int
    requires |recipients| == |amounts|
    decreases |recipients| - i
  {
    if i >= |recipients| then 0
    else (if recipients[i] == x then amounts[i] else 0) + BatchShare(recipients, amounts, i + 1, x)
  }

  /** What an operation brings to an account, or takes from it. */
  function Gain(op: Op, x: Address): int {
    match op
    case OpMint(to, amount) => if x == to then amount else 0
    case OpBatchMint(recipients, amounts) =>
      if |recipients| == |amounts| then BatchShare(recipients, amounts, 0, x) else 0
    case OpTransfer(from, to, amount) => (if x == to then amount else 0) - (if x == from then amount else 0)
    case OpTransferFrom(_, from, to, amount) => (if x == to then amount else 0) - (if x == from then amount else 0)
    case OpBurn(from, amount) => if x == from then -amount else 0
    case OpBurnFrom(_, from, amount) => if x == from then -amount else 0
    case _ => 0
  }

  lemma {:induction false} CreditsReach(
      balances: map<Address, int>, recipients: seq<Address>, amounts: seq<int>, i: nat, x: Address)
    requires i <= |recipients| == |amounts|
    ensures Get(CreditFrom(balances, recipients, amounts, i), x) ==
            Get(balances, x) + BatchShare(recipients, amounts, i, x)
    decreases |recipients| - i
  {
    if i < |recipients| {
      CreditsReach(Credit(balances, recipients[i], amounts[i]), recipients, amounts, i + 1, x);
    }
  }

  /** An accepted operation brings every account exactly what it says; a refused one nothing. */
  lemma StepMoves(s: State, call: Call, op: Op, x: Address)
    ensures Get(Step(s, call, op).balances, x) == Get(s.balances, x) + if Apply(s, call, op).Ok? then Gain(op, x) else 0
  {
    if Apply(s, call, op).Ok? && op.OpBatchMint? {
      CreditsReach(s.balances, op.recipients, op.amounts, 0, x);
    }
  }

  /** What the accepted operations of a run bring to an account. */
  function TotalGain(s: State, calls: seq<(Call, Op)>, x: Address): int
    decreases |calls|
  {
    if calls == [] then 0
    else
      (if Apply(s, calls[0].0, calls[0].1).Ok? then Gain(calls[0].1, x) else 0)
      + TotalGain(Step(s, calls[0].0, calls[0].1), calls[1..], x)
  }

  lemma {:induction false} RunMoves(s: State, calls: seq<(Call, Op)>, x: Address)
    ensures Get(Run(s, calls).balances, x) == Get(s.balances, x) + TotalGain(s, calls, x)
    decreases |calls|
  {
    hide Apply, Step;
    if calls != [] {
      StepMoves(s, calls[0].0, calls[0].1, x);
      RunMoves(Step(s, calls[0].0, calls[0].1), calls[1..], x);
    }
  }

  // ---------- allowances ----------

  function Stored(s: State, owner: Address, spender: Address): Allowance {
    if (owner, spender) in s.allowances then s.allowances[(owner, spender)] else Allowance(0, 0)
  }

  /** What an operation takes from the allowance of a pair. */
  function Draw(op: Op, owner: Address, spender: Address): int {
    match op
    case OpTransferFrom(taker, from, _, amount) => if taker == spender && from == owner then amount else 0
    case OpBurnFrom(taker, from, amount) => if taker == spender && from == owner then amount else 0
    case _ => 0
  }

  predicate Draws(op: Op, owner: Address, spender: Address) {
    (op.OpTransferFrom? || op.OpBurnFrom?) && op.spender == spender && op.from == owner
  }

  predicate Approves(op: Op, owner: Address, spender: Address) {
    op.OpApprove? && op.from == owner && op.spender == spender
  }

  predicate HasExpired(a: Allowance, call: Call) {
    a.expirationLedger < call.ledger
  }

  /** An accepted operation leaves every allowance alone but the one that it sets or draws on.
      A draw takes what is moved or burned, needs that much, and needs it unexpired. */
  lemma StepAllowance(s: State, call: Call, op: Op, owner: Address, spender: Address)
    requires Apply(s, call, op).Ok?
    ensures var before, after := Stored(s, owner, spender), Stored(Apply(s, call, op).value, owner, spender);
            && (Approves(op, owner, spender) ==>
                  op.amount >= 0 && after == (if op.amount == 0 then Allowance(0, 0)
                                              else Allowance(op.amount, op.expirationLedger)))
            && (Draws(op, owner, spender) && before.amount >= 0 && !HasExpired(before, call) ==>
                  && 0 <= op.amount <= before.amount
                  && after == (if op.amount == before.amount then Allowance(0, 0)
                               else before.(amount := before.amount - op.amount)))
            && (Draws(op, owner, spender) && before.amount >= 0 && HasExpired(before, call) ==>
                  op.amount == 0 && after == Allowance(0, 0))
            && (!Approves(op, owner, spender) && !Draws(op, owner, spender) ==> after == before)
  {
  }

  /** What a spender moved or burned of an owner's tokens over a run. */
  function Drawn(s: State, calls: seq<(Call, Op)>, owner: Address, spender: Address): int
    decreases |calls|
  {
    if calls == [] then 0
    else
      (if Apply(s, calls[0].0, calls[0].1).Ok? then Draw(calls[0].1, owner, spender) else 0)
      + Drawn(Step(s, calls[0].0, calls[0].1), calls[1..], owner, spender)
  }

  lemma StepDraws(s: State, call: Call, op: Op, owner: Address, spender: Address)
    requires Stored(s, owner, spender).amount >= 0 && !Approves(op, owner, spender)
    ensures var before, after := Stored(s, owner, spender), Stored(Step(s, call, op), owner, spender);
            var drawn := if Apply(s, call, op).Ok? then Draw(op, owner, spender) else 0;
            && drawn >= 0 && 0 <= after.amount <= before.amount - drawn
            && (!HasExpired(before, call) ==> after.amount == before.amount - drawn)
            && (after.amount > 0 ==> after.expirationLedger == before.expirationLedger)
  {
    if Apply(s, call, op).Ok? {
      StepAllowance(s, call, op, owner, spender);
    }
  }

  /** Over every run without a new approval a spender never moves and burns more than was
      approved; and until the approval expires, that and what remains make up the approval. */
  lemma {:induction false} DrawnWithinApproval(s: State, calls: seq<(Call, Op)>, owner: Address, spender: Address)
    requires Stored(s, owner, spender).amount >= 0
    requires forall i :: 0 <= i < |calls| ==> !Approves(calls[i].1, owner, spender)
    ensures var before, after := Stored(s, owner, spender), Stored(Run(s, calls), owner, spender);
            && 0 <= Drawn(s, calls, owner, spender) <= before.amount - after.amount && after.amount >= 0
            && ((forall i :: 0 <= i < |calls| ==> !HasExpired(before, calls[i].0)) ==>
                  Drawn(s, calls, owner, spender) + after.amount == before.amount)
    decreases |calls|
  {
    hide Apply, Step, Draw;
    if calls != [] {
      var t := Step(s, calls[0].0, calls[0].1);
      StepDraws(s, calls[0].0, calls[0].1, owner, spender);
      assert forall i :: 0 <= i < |calls[1..]| ==> calls[1..][i] == calls[i + 1];
      DrawnWithinApproval(t, calls[1..], owner, spender);
    }
  }

  /** So, from an accepted approval to the next one for the pair: what the spender moves and
      burns and what remains make up what was approved, while it has not expired; and never
      more than that is drawn. */
  lemma ApprovedIsDrawnOrLeft(
      s: State, call: Call, owner: Address, spender: Address, amount: int, expiration: nat, calls: seq<(Call, Op)>)
    requires Approve(s, call, owner, spender, amount, expiration).Ok?
    requires forall i :: 0 <= i < |calls| ==> !Approves(calls[i].1, owner, spender)
    ensures var t := Approve(s, call, owner, spender, amount, expiration).value;
            var left := Stored(Run(t, calls), owner, spender).amount;
            && 0 <= Drawn(t, calls, owner, spender) <= amount - left && left >= 0
            && ((forall i :: 0 <= i < |calls| ==> calls[i].0.ledger <= expiration) ==>
                  Drawn(t, calls, owner, spender) + left == amount)
  {
    var t := Approve(s, call, owner, spender, amount, expiration).value;
    assert Apply(s, call, OpApprove(owner, spender, amount, expiration)) == Ok(t);
    StepAllowance(s, call, OpApprove(owner, spender, amount, expiration), owner, spender);
    hide Apply, Step, Drawn;
    DrawnWithinApproval(t, calls, owner, spender);
  }

  // ---------- on whose word ----------

  predicate Movable(s: State, call: Call, x: Address) {
    !s.paused && x !in s.frozen && (x in s.frozenUntil ==> s.frozenUntil[x] <= call.now)
  }

  predicate AdminSigns(s: State, call: Call) {
    s.admin.Some? && s.admin.value in call.signers
  }

  predicate HookAgrees(s: State, call: Call) {
    s.hook == None || call.hookApproves
  }

  /** What a spender can draw now: the stored allowance, unless it has expired. */
  function Usable(s: State, call: Call, owner: Address, spender: Address): int {
    var stored := Stored(s, owner, spender);
    if stored.amount > 0 && HasExpired(stored, call) then 0 else stored.amount
  }

  predicate MintableBatch(s: State, call: Call, recipients: seq<Address>, amounts: seq<int>) {
    && 1 <= |recipients| == |amounts| <= 30
    && (forall i :: 0 <= i < |amounts| ==> amounts[i] > 0 && Movable(s, call, recipients[i]))
    && s.totalSupply + Amounts(amounts, 0) <= s.maxSupply
  }

  /** Who may do what. */
  predicate Allowed(s: State, call: Call, op: Op) {
    match op
    case OpInitialize(admin) => s.admin == None && admin in call.signers
    case OpMint(to, amount) =>
      AdminSigns(s, call) && amount > 0 && Movable(s, call, to) && s.totalSupply + amount <= s.maxSupply
    case OpBatchMint(recipients, amounts) => AdminSigns(s, call) && MintableBatch(s, call, recipients, amounts)
    case OpTransfer(from, to, amount) =>
      && from in call.signers && HookAgrees(s, call) && Movable(s, call, from) && Movable(s, call, to)
      && 0 <= amount <= Get(s.balances, from)
    case OpTransferFrom(spender, from, to, amount) =>
      && spender in call.signers && HookAgrees(s, call)
      && Movable(s, call, spender) && Movable(s, call, from) && Movable(s, call, to)
      && 0 <= amount <= Get(s.balances, from) && amount <= Usable(s, call, from, spender)
    case OpApprove(from, _, amount, expiration) =>
      from in call.signers && Movable(s, call, from) && amount >= 0 && (amount > 0 ==> call.ledger <= expiration)
    case OpBurn(from, amount) =>
      from in call.signers && Movable(s, call, from) && 0 <= amount <= Get(s.balances, from)
    case OpBurnFrom(spender, from, amount) =>
      && spender in call.signers && Movable(s, call, spender) && Movable(s, call, from)
      && 0 <= amount <= Get(s.balances, from) && amount <= Usable(s, call, from, spender)
      && (Stored(s, from, spender).expirationLedger > 0 ==> !HasExpired(Stored(s, from, spender), call))
    case OpSetMaxSupply(cap) => AdminSigns(s, call) && 0 <= cap && s.totalSupply <= cap
    case OpSetAdmin(newAdmin) =>
      && AdminSigns(s, call) && newAdmin !in s.frozen
      && (newAdmin in s.frozenUntil ==> s.frozenUntil[newAdmin] <= call.now)
    case _ => AdminSigns(s, call)
  }

  lemma {:induction false} BatchTotalExactly(
      s: State, call: Call, recipients: seq<Address>, amounts: seq<int>, i: nat, acc: nat)
    requires i <= |recipients| == |amounts| && acc <= I128_MAX
    ensures BatchTotal(s, call, recipients, amounts, i, acc).Ok? <==>
              && (forall k :: i <= k < |amounts| ==> amounts[k] > 0 && Movable(s, call, recipients[k]))
              && acc + Amounts(amounts, i) <= I128_MAX
    decreases |amounts| - i
  {
    if i < |amounts| && amounts[i] > 0 && Movable(s, call, recipients[i]) {
      if acc + amounts[i] <= I128_MAX {
        BatchTotalExactly(s, call, recipients, amounts, i + 1, acc + amounts[i]);
      } else if forall k :: i <= k < |amounts| ==> amounts[k] > 0 {
        AmountsPositive(amounts, i + 1);
      }
    }
  }

  lemma BatchAllowedExactly(s: State, call: Call, recipients: seq<Address>, amounts: seq<int>)
    requires 0 <= s.totalSupply <= s.maxSupply <= I128_MAX
    ensures BatchMint(s, call, recipients, amounts).Ok? <==> Allowed(s, call, OpBatchMint(recipients, amounts))
  {
    if |recipients| == |amounts| {
      BatchTotalExactly(s, call, recipients, amounts, 0, 0);
      if BatchTotal(s, call, recipients, amounts, 0, 0).Ok? {
        BatchTotalIsSum(s, call, recipients, amounts, 0, 0);
      }
    }
  }

  /** An operation is accepted exactly if it is allowed. */
  lemma AcceptedExactly(s: State, call: Call, op: Op)
    requires 0 <= s.totalSupply <= s.maxSupply <= I128_MAX
    ensures Apply(s, call, op).Ok? <==> Allowed(s, call, op)
  {
    if op.OpBatchMint? {
      BatchAllowedExactly(s, call, op.recipients, op.amounts);
    }
  }

  /** What the operations that set something leave set, and that the others leave it alone. */
  lemma StepSets(s: State, call: Call, op: Op, x: Address)
    requires Apply(s, call, op).Ok?
    ensures var t := Apply(s, call, op).value;
            && t.admin == (match op case OpInitialize(a) => Some(a) case OpSetAdmin(a) => Some(a) case _ => s.admin)
            && t.paused == (match op case OpInitialize(_) => false case OpSetPaused(p) => p case _ => s.paused)
            && t.hook == (if op.OpSetHook? then op.hook else s.hook)
            && t.maxSupply == (match op
                               case OpInitialize(_) => 10_000_000_000_000_000
                               case OpSetMaxSupply(cap) => cap
                               case _ => s.maxSupply)
            && (x in t.frozen <==> if op.OpSetFrozen? && op.account == x then op.frozen else x in s.frozen)
            && (var until := if x in s.frozenUntil then s.frozenUntil[x] else 0;
                (if x in t.frozenUntil then t.frozenUntil[x] else 0) ==
                  if op.OpSetFrozen? && op.account == x && !op.frozen then 0
                  else if op.OpFreezeUntil? && op.account == x then (if op.until > call.now then op.until else 0)
                  else until)
  {
  }

  /** An account loses tokens only on its own signature, or on that of a spender within its
      allowance. */
  lemma LossesAreSigned(s: State, call: Call, op: Op, x: Address)
    requires 0 <= s.totalSupply <= s.maxSupply <= I128_MAX
    requires Get(Step(s, call, op).balances, x) < Get(s.balances, x)
    ensures x in call.signers ||
            exists spender :: spender in call.signers && Usable(s, call, x, spender) >=
                                Get(s.balances, x) - Get(Step(s, call, op).balances, x)
  {
    StepMoves(s, call, op, x);
    AcceptedExactly(s, call, op);
    if op.OpBatchMint? && Apply(s, call, op).Ok? {
      SharesNotNegative(op.recipients, op.amounts, 0, x);
    }
  }

  lemma {:induction false} SharesNotNegative(recipients: seq<Address>, amounts: seq<int>, i: nat, x: Address)
    requires |recipients| == |amounts| && forall k :: 0 <= k < |amounts| ==> amounts[k] > 0
    ensures BatchShare(recipients, amounts, i, x) >= 0
    ensures BatchShare(recipients, amounts, i, x) != 0 ==> x in recipients
    decreases |recipients| - i
  {
    if i < |recipients| {
      SharesNotNegative(recipients, amounts, i + 1, x);
    }
  }

  /** Nothing touches the balance of an account that cannot move tokens. */
  lemma ImmovableKeepsBalance(s: State, call: Call, op: Op, x: Address)
    requires 0 <= s.totalSupply <= s.maxSupply <= I128_MAX && !Movable(s, call, x)
    ensures Get(Step(s, call, op).balances, x) == Get(s.balances, x)
  {
    StepMoves(s, call, op, x);
    AcceptedExactly(s, call, op);
    if op.OpBatchMint? && Apply(s, call, op).Ok? {
      SharesNotNegative(op.recipients, op.amounts, 0, x);
    }
  }

  /** A frozen account's balance stays as it is over every run in which it is not thawed, and
      every balance does over every run in which a paused token is not resumed. */
  lemma {:induction false} FrozenKeepsBalance(s: State, calls: seq<(Call, Op)>, x: Address)
    requires SupplyInvariant(s) && s.admin.Some? && 0 <= s.totalSupply && (s.paused || x in s.frozen)
    requires forall i :: 0 <= i < |calls| ==>
               && (calls[i].1.OpSetMaxSupply? ==> calls[i].1.newMaxSupply <= I128_MAX)
               && (s.paused ==> calls[i].1 != OpSetPaused(false))
               && (!s.paused ==> calls[i].1 != OpSetFrozen(x, false) && !calls[i].1.OpSetPaused?)
    ensures Get(Run(s, calls).balances, x) == Get(s.balances, x)
    decreases |calls|
  {
    if calls != [] {
      var (call, op) := calls[0];
      var t := Step(s, call, op);
      ImmovableKeepsBalance(s, call, op, x);
      StepKeepsSupply(s, call, op);
      SumBoundsEntries(t.balances, x);
      if Apply(s, call, op).Ok? {
        StepSets(s, call, op, x);
      }
      assert forall i :: 0 <= i < |calls[1..]| ==> calls[1..][i] == calls[i + 1];
      FrozenKeepsBalance(t, calls[1..], x);
    }
  }

  // ---------- errors ----------

  /** Whether the operation concerns an account in a way that its freeze stops. */
  predicate Concerns(op: Op, x: Address) {
    match op
    case OpMint(to, _) => x == to
    case OpBatchMint(recipients, _) => x in recipients
    case OpTransfer(from, to, _) => x == from || x == to
    case OpTransferFrom(spender, from, to, _) => x == spender || x == from || x == to
    case OpApprove(from, _, _, _) => x == from
    case OpBurn(from, _) => x == from
    case OpBurnFrom(spender, from, _) => x == spender || x == from
    case OpSetAdmin(newAdmin) => x == newAdmin
    case _ => false
  }

  /** The account whose tokens an operation takes, or nobody's. */
  predicate TakesFrom(op: Op, x: Address, amount: int) {
    match op
    case OpTransfer(from, _, a) => x == from && amount == a
    case OpTransferFrom(_, from, _, a) => x == from && amount == a
    case OpBurn(from, a) => x == from && amount == a
    case OpBurnFrom(_, from, a) => x == from && amount == a
    case _ => false
  }

  lemma {:induction false} BatchErrorsAreTrue(
      s: State, call: Call, recipients: seq<Address>, amounts: seq<int>, i: nat, acc: nat)
    requires i <= |recipients| == |amounts|
    ensures match BatchTotal(s, call, recipients, amounts, i, acc)
            case Ok(_) => true
            case Err(InvalidAmount) => exists k :: i <= k < |amounts| && amounts[k] <= 0
            case Err(Paused) => s.paused
            case Err(AccountFrozen) => exists k :: i <= k < |amounts| && IsFrozen(s, call, recipients[k])
            case Err(SupplyCapExceeded) => true
            case Err(_) => false
    decreases |amounts| - i
  {
    if i < |amounts| && amounts[i] > 0 {
      BatchErrorsAreTrue(s, call, recipients, amounts, i + 1, acc + amounts[i]);
    }
  }

  /** Every error of an operation tells the truth. */
  lemma ErrorsAreTrue(s: State, call: Call, op: Op)
    requires Apply(s, call, op).Err?
    ensures match Apply(s, call, op).error
            case Paused => s.paused
            case AccountFrozen => exists x :: Concerns(op, x) && IsFrozen(s, call, x)
            case AlreadyInitialized => op.OpInitialize? && s.admin.Some?
            case NotInitialized => s.admin == None
            case InsufficientBalance => exists x, amount :: TakesFrom(op, x, amount) && Get(s.balances, x) < amount
            case InsufficientTransferable => exists x, amount :: TakesFrom(op, x, amount) && Get(s.balances, x) < amount
            case InsufficientAllowance =>
              && (op.OpTransferFrom? || op.OpBurnFrom?) && Usable(s, call, op.from, op.spender) < op.amount
            case AllowanceExpired => op.OpBurnFrom? && HasExpired(Stored(s, op.from, op.spender), call)
            case InvalidExpiration => op.OpApprove? && op.amount > 0 && op.expirationLedger < call.ledger
            case ComplianceCheckFailed => s.hook.Some? && !call.hookApproves
            case BatchSizeExceeded => op.OpBatchMint? && |op.recipients| > 30
            case BatchLengthMismatch => op.OpBatchMint? && |op.recipients| != |op.amounts|
            case SupplyCapExceeded =>
              op.OpMint? || op.OpBatchMint? || (op.OpSetMaxSupply? && op.newMaxSupply < s.totalSupply)
            case InvalidAmount =>
              match op {
                case OpMint(_, amount) => amount <= 0
                case OpBatchMint(recipients, amounts) =>
                  recipients == [] || exists k :: 0 <= k < |amounts| && amounts[k] <= 0
                case OpTransfer(_, _, amount) => amount < 0
                case OpTransferFrom(_, _, _, amount) => amount < 0
                case OpApprove(_, _, amount, _) => amount < 0
                case OpBurn(_, amount) => amount < 0
                case OpBurnFrom(_, _, amount) => amount < 0
                case OpSetMaxSupply(cap) => cap < 0
                case _ => false
              }
            case NotAuthorized =>
              match op {
                case OpInitialize(admin) => admin !in call.signers
                case OpTransfer(from, _, _) => from !in call.signers
                case OpTransferFrom(spender, _, _, _) => spender !in call.signers
                case OpApprove(from, _, _, _) => from !in call.signers
                case OpBurn(from, _) => from !in call.signers
                case OpBurnFrom(spender, _, _) => spender !in call.signers
                case _ => !AdminSigns(s, call)
              }
  {
    match op {
      case OpMint(to, _) => assert Concerns(op, to);
      case OpBatchMint(recipients, amounts) => BatchMintErrorsAreTrue(s, call, recipients, amounts);
      case OpTransfer(from, to, amount) =>
        assert Concerns(op, from) && Concerns(op, to) && TakesFrom(op, from, amount);
      case OpTransferFrom(spender, from, to, amount) =>
        assert Concerns(op, spender) && Concerns(op, from) && Concerns(op, to) && TakesFrom(op, from, amount);
      case OpApprove(from, _, _, _) => assert Concerns(op, from);
      case OpBurn(from, amount) => assert Concerns(op, from) && TakesFrom(op, from, amount);
      case OpBurnFrom(spender, from, amount) =>
        assert Concerns(op, spender) && Concerns(op, from) && TakesFrom(op, from, amount);
      case OpSetAdmin(newAdmin) => assert Concerns(op, newAdmin);
      case _ =>
    }
  }

  lemma BatchMintErrorsAreTrue(s: State, call: Call, recipients: seq<Address>, amounts: seq<int>)
    ensures match BatchMint(s, call, recipients, amounts)
            case Ok(_) => true
            case Err(NotInitialized) => s.admin == None
            case Err(NotAuthorized) => !AdminSigns(s, call)
            case Err(InvalidAmount) => recipients == [] || exists k :: 0 <= k < |amounts| && amounts[k] <= 0
            case Err(BatchSizeExceeded) => |recipients| > 30
            case Err(BatchLengthMismatch) => |recipients| != |amounts|
            case Err(Paused) => s.paused
            case Err(AccountFrozen) =>
              exists x :: Concerns(OpBatchMint(recipients, amounts), x) && IsFrozen(s, call, x)
            case Err(SupplyCapExceeded) => true
            case Err(_) => false
  {
    if |recipients| == |amounts| {
      BatchErrorsAreTrue(s, call, recipients, amounts, 0, 0);
      assert forall k :: 0 <= k < |recipients| ==> Concerns(OpBatchMint(recipients, amounts), recipients[k]);
    }
  }
}
