/** The pausable token: supply accounting under a cap. The specification part gives every
    entry point as a function from state to state, the class performs the same operations
    on stored fields, and the lemmas speak about the specification functions. */
module PausableToken {
  import opened ByteOrder
  import opened MapSum
  import opened Wrappers

  const I128_MAX: int := 0x7FFF_FFFF_FFFF_FFFF_FFFF_FFFF_FFFF_FFFF
  const DEFAULT_MAX_SUPPLY: int := 10_000_000_000_000_000
  const MAX_BATCH_SIZE: nat := 30

  datatype Error =
    | AlreadyInitialized | NotInitialized | NotAuthorized | Paused | AccountFrozen
    | InsufficientBalance | InsufficientTransferable | InsufficientAllowance | AllowanceExpired
    | InvalidAmount | InvalidExpiration | ComplianceCheckFailed | SupplyCapExceeded
    | BatchSizeExceeded | BatchLengthMismatch

  datatype Allowance = Allowance(amount: int, expirationLedger: nat)

  /** The outside world of one call: who signed, the clock and the ledger number, and what
      the compliance hook would answer. A missing signature traps; it is the error
      `NotAuthorized` here. */
  datatype Call = Call(signers: set<Address>, now: nat, ledger: nat, hookApproves: bool)

  datatype State = State(
    admin: Option<Address>,
    paused: bool,
    frozen: set<Address>,
    frozenUntil: map<Address, nat>,
    hook: Option<Address>,
    balances: map<Address, int>,
    allowances: map<(Address, Address), Allowance>,
    totalSupply: int,
    maxSupply: int)

  const BLANK := State(None, false, {}, map[], None, map[], map[], 0, DEFAULT_MAX_SUPPLY)

  // ---------- checks ----------

  function RequireAdmin(s: State, call: Call): Result<Address, Error> {
    if s.admin == None then Err(NotInitialized)
    else if s.admin.value !in call.signers then Err(NotAuthorized)
    else Ok(s.admin.value)
  }

  predicate IsFrozen(s: State, call: Call, account: Address) {
    account in s.frozen || (account in s.frozenUntil && call.now < s.frozenUntil[account])
  }

  function MovabilityError(s: State, call: Call, account: Address): Option<Error> {
    if s.paused then Some(Paused)
    else if IsFrozen(s, call, account) then Some(AccountFrozen)
    else None
  }

  function ComplianceError(s: State, call: Call): Option<Error> {
    if s.hook.Some? && !call.hookApproves then Some(ComplianceCheckFailed) else None
  }

  /** The allowance a spender may still use; an expired one reads as zero. */
  function ReadAllowance(s: State, call: Call, from: Address, spender: Address): Allowance {
    var stored := if (from, spender) in s.allowances then s.allowances[(from, spender)] else Allowance(0, 0);
    if stored.amount > 0 && stored.expirationLedger < call.ledger
    then Allowance(0, stored.expirationLedger)
    else stored
  }

  function WriteAllowance(
    m: map<(Address, Address), Allowance>, from: Address, spender: Address, value: Allowance)
    : map<(Address, Address), Allowance>
  {
    if value.amount == 0 then m - {(from, spender)} else m[(from, spender) := value]
  }

  function Credit(balances: map<Address, int>, account: Address, amount: int): map<Address, int> {
    balances[account := Get(balances, account) + amount]
  }

  // ---------- entry points ----------

  function Initialize(s: State, call: Call, admin: Address): Result<State, Error> {
    if s.admin.Some? then Err(AlreadyInitialized)
    else if admin !in call.signers then Err(NotAuthorized)
    else Ok(s.(admin := Some(admin), totalSupply := 0, maxSupply := DEFAULT_MAX_SUPPLY, paused := false))
  }

  function SetMaxSupply(s: State, call: Call, newMaxSupply: int): Result<State, Error> {
    if RequireAdmin(s, call).Err? then Err(RequireAdmin(s, call).error)
    else if newMaxSupply < 0 then Err(InvalidAmount)
    else if newMaxSupply < s.totalSupply then Err(SupplyCapExceeded)
    else Ok(s.(maxSupply := newMaxSupply))
  }

  function Mint(s: State, call: Call, to: Address, amount: int): Result<State, Error> {
    if RequireAdmin(s, call).Err? then Err(RequireAdmin(s, call).error)
    else if amount <= 0 then Err(InvalidAmount)
    else if MovabilityError(s, call, to).Some? then Err(MovabilityError(s, call, to).value)
    else if s.totalSupply + amount > I128_MAX || s.totalSupply + amount > s.maxSupply then Err(SupplyCapExceeded)
    else Ok(s.(balances := Credit(s.balances, to, amount), totalSupply := s.totalSupply + amount))
  }

  /** The first pass of a batch: checks the items from index `i` on and adds their amounts to
      `acc`, stopping at the first failure. */
  function BatchTotal(
    s: State, call: Call, recipients: seq<Address>, amounts: seq<int>, i: nat, acc: int): Result<int, Error>
    requires i <= |recipients| == |amounts|
    decreases |recipients| - i
  {
    if i == |recipients| then Ok(acc)
    else if amounts[i] <= 0 then Err(InvalidAmount)
    else if MovabilityError(s, call, recipients[i]).Some? then Err(MovabilityError(s, call, recipients[i]).value)
    else if acc + amounts[i] > I128_MAX then Err(SupplyCapExceeded)
    else BatchTotal(s, call, recipients, amounts, i + 1, acc + amounts[i])
  }

  /** The second pass of a batch: credits the items from index `i` on. */
  function CreditFrom(
    balances: map<Address, int>, recipients: seq<Address>, amounts: seq<int>, i: nat): map<Address, int>
    requires i <= |recipients| == |amounts|
    decreases |recipients| - i
  {
    if i == |recipients| then balances
    else CreditFrom(Credit(balances, recipients[i], amounts[i]), recipients, amounts, i + 1)
  }

  function BatchMint(s: State, call: Call, recipients: seq<Address>, amounts: seq<int>): Result<State, Error> {
    if RequireAdmin(s, call).Err? then Err(RequireAdmin(s, call).error)
    else if |recipients| == 0 then Err(InvalidAmount)
    else if |recipients| > MAX_BATCH_SIZE then Err(BatchSizeExceeded)
    else if |recipients| != |amounts| then Err(BatchLengthMismatch)
    else
      match BatchTotal(s, call, recipients, amounts, 0, 0)
      case Err(e) => Err(e)
      case Ok(total) =>
        if s.totalSupply + total > I128_MAX || s.totalSupply + total > s.maxSupply then Err(SupplyCapExceeded)
        else Ok(s.(balances := CreditFrom(s.balances, recipients, amounts, 0), totalSupply := s.totalSupply + total))
  }

  function TransferChecked(s: State, call: Call, from: Address, to: Address, amount: int): Result<State, Error> {
    if amount < 0 then Err(InvalidAmount)
    else if MovabilityError(s, call, from).Some? then Err(MovabilityError(s, call, from).value)
    else if MovabilityError(s, call, to).Some? then Err(MovabilityError(s, call, to).value)
    else if from !in call.signers then Err(NotAuthorized)
    else if ComplianceError(s, call).Some? then Err(ComplianceError(s, call).value)
    else if Get(s.balances, from) < amount then Err(InsufficientBalance)
    else
      var debited := s.balances[from := Get(s.balances, from) - amount];
      Ok(s.(balances := Credit(debited, to, amount)))
  }

  function TransferFromChecked(
    s: State, call: Call, spender: Address, from: Address, to: Address, amount: int): Result<State, Error>
  {
    if amount < 0 then Err(InvalidAmount)
    else if MovabilityError(s, call, from).Some? then Err(MovabilityError(s, call, from).value)
    else if MovabilityError(s, call, to).Some? then Err(MovabilityError(s, call, to).value)
    else if MovabilityError(s, call, spender).Some? then Err(MovabilityError(s, call, spender).value)
    else if spender !in call.signers then Err(NotAuthorized)
    else
      var allowance := ReadAllowance(s, call, from, spender);
      if allowance.amount < amount then Err(InsufficientAllowance)
      else if ComplianceError(s, call).Some? then Err(ComplianceError(s, call).value)
      else if Get(s.balances, from) < amount then Err(InsufficientBalance)
      else
        var debited := s.balances[from := Get(s.balances, from) - amount];
        Ok(s.(balances := Credit(debited, to, amount),
              allowances := WriteAllowance(s.allowances, from, spender,
                                           allowance.(amount := allowance.amount - amount))))
  }

  function Approve(
    s: State, call: Call, from: Address, spender: Address, amount: int, expirationLedger: nat): Result<State, Error>
  {
    if amount < 0 then Err(InvalidAmount)
    else if amount > 0 && expirationLedger < call.ledger then Err(InvalidExpiration)
    else if MovabilityError(s, call, from).Some? then Err(MovabilityError(s, call, from).value)
    else if from !in call.signers then Err(NotAuthorized)
    else Ok(s.(allowances := WriteAllowance(s.allowances, from, spender, Allowance(amount, expirationLedger))))
  }

  /** No entry point locks collateral or freezes a partition, so the transferable part of a
      balance is the whole balance. */
  function Burn(s: State, call: Call, from: Address, amount: int): Result<State, Error> {
    if amount < 0 then Err(InvalidAmount)
    else if MovabilityError(s, call, from).Some? then Err(MovabilityError(s, call, from).value)
    else if Get(s.balances, from) < amount then Err(InsufficientTransferable)
    else if from !in call.signers then Err(NotAuthorized)
    else Ok(s.(balances := s.balances[from := Get(s.balances, from) - amount],
               totalSupply := s.totalSupply - amount))
  }

  function BurnFrom(s: State, call: Call, spender: Address, from: Address, amount: int): Result<State, Error> {
    if amount < 0 then Err(InvalidAmount)
    else if MovabilityError(s, call, from).Some? then Err(MovabilityError(s, call, from).value)
    else if Get(s.balances, from) < amount then Err(InsufficientTransferable)
    else if MovabilityError(s, call, spender).Some? then Err(MovabilityError(s, call, spender).value)
    else if spender !in call.signers then Err(NotAuthorized)
    else
      var allowance := ReadAllowance(s, call, from, spender);
      if allowance.expirationLedger > 0 && call.ledger > allowance.expirationLedger then Err(AllowanceExpired)
      else if allowance.amount < amount then Err(InsufficientAllowance)
      else
        Ok(s.(balances := s.balances[from := Get(s.balances, from) - amount],
              allowances := WriteAllowance(s.allowances, from, spender,
                                           allowance.(amount := allowance.amount - amount)),
              totalSupply := s.totalSupply - amount))
  }

  // ---------- runs ----------

  datatype Op =
    | OpInitialize(admin: Address)
    | OpSetAdmin(newAdmin: Address)
    | OpSetPaused(paused: bool)
    | OpSetFrozen(account: Address, frozen: bool)
    | OpFreezeUntil(account: Address, until: nat)
    | OpSetHook(hook: Option<Address>)
    | OpSetMaxSupply(newMaxSupply: int)
    | OpMint(to: Address, amount: int)
    | OpBatchMint(recipients: seq<Address>, amounts: seq<int>)
    | OpTransfer(from: Address, to: Address, amount: int)
    | OpTransferFrom(spender: Address, from: Address, to: Address, amount: int)
    | OpApprove(from: Address, spender: Address, amount: int, expirationLedger: nat)
    | OpBurn(from: Address, amount: int)
    | OpBurnFrom(spender: Address, from: Address, amount: int)

  /** The administrative settings that touch no balance. */
  function Configure(s: State, call: Call, op: Op): Result<State, Error> {
    if RequireAdmin(s, call).Err? then Err(RequireAdmin(s, call).error)
    else
      match op
      case OpSetAdmin(newAdmin) =>
        if IsFrozen(s, call, newAdmin) then Err(AccountFrozen) else Ok(s.(admin := Some(newAdmin)))
      case OpSetPaused(paused) => Ok(s.(paused := paused))
      case OpSetFrozen(account, frozen) =>
        if frozen then Ok(s.(frozen := s.frozen + {account}))
        else Ok(s.(frozen := s.frozen - {account}, frozenUntil := s.frozenUntil - {account}))
      case OpFreezeUntil(account, until) =>
        if until <= call.now then Ok(s.(frozenUntil := s.frozenUntil - {account}))
        else Ok(s.(frozenUntil := s.frozenUntil[account := until]))
      case OpSetHook(hook) => Ok(s.(hook := hook))
      case _ => Ok(s)
  }

  function Apply(s: State, call: Call, op: Op): Result<State, Error> {
    match op
    case OpInitialize(admin) => Initialize(s, call, admin)
    case OpSetMaxSupply(newMaxSupply) => SetMaxSupply(s, call, newMaxSupply)
    case OpMint(to, amount) => Mint(s, call, to, amount)
    case OpBatchMint(recipients, amounts) => BatchMint(s, call, recipients, amounts)
    case OpTransfer(from, to, amount) => TransferChecked(s, call, from, to, amount)
    case OpTransferFrom(spender, from, to, amount) => TransferFromChecked(s, call, spender, from, to, amount)
    case OpApprove(from, spender, amount, expiration) => Approve(s, call, from, spender, amount, expiration)
    case OpBurn(from, amount) => Burn(s, call, from, amount)
    case OpBurnFrom(spender, from, amount) => BurnFrom(s, call, spender, from, amount)
    case _ => Configure(s, call, op)
  }

  /** A failed call leaves no trace. */
  function Step(s: State, call: Call, op: Op): State {
    match Apply(s, call, op) case Ok(t) => t case Err(_) => s
  }

  function Run(s: State, calls: seq<(Call, Op)>): State
    decreases |calls|
  {
    if calls == [] then s else Run(Step(s, calls[0].0, calls[0].1), calls[1..])
  }

  // ---------- supply accounting ----------

  ghost predicate SupplyInvariant(s: State) {
    && NonNegative(s.balances)
    && Sum(s.balances) == s.totalSupply
    && s.totalSupply <= s.maxSupply <= I128_MAX
    && (s.admin == None ==> s.totalSupply == 0)
  }

  lemma CreditKeepsSum(balances: map<Address, int>, account: Address, amount: nat)
    requires NonNegative(balances)
    ensures NonNegative(Credit(balances, account, amount))
    ensures Sum(Credit(balances, account, amount)) == Sum(balances) + amount
  {
    SumUpdate(balances, account, Get(balances, account) + amount);
  }

  lemma DebitKeepsSum(balances: map<Address, int>, account: Address, amount: nat)
    requires NonNegative(balances) && amount <= Get(balances, account)
    ensures var debited := balances[account := Get(balances, account) - amount];
            NonNegative(debited) && Sum(debited) == Sum(balances) - amount
  {
    SumUpdate(balances, account, Get(balances, account) - amount);
  }

  /** The sum of the positive amounts from index `i` on. */
  function Amounts(amounts: seq<int>, i: nat): int
    requires i <= |amounts|
    decreases |amounts| - i
  {
    if i == |amounts| then 0 else amounts[i] + Amounts(amounts, i + 1)
  }

  lemma {:induction false} BatchTotalIsSum(
    s: State, call: Call, recipients: seq<Address>, amounts: seq<int>, i: nat, acc: int)
    requires i <= |recipients| == |amounts|
    requires BatchTotal(s, call, recipients, amounts, i, acc).Ok?
    ensures BatchTotal(s, call, recipients, amounts, i, acc).value == acc + Amounts(amounts, i)
    ensures forall k :: i <= k < |amounts| ==> amounts[k] > 0
    decreases |amounts| - i
  {
    if i < |amounts| {
      BatchTotalIsSum(s, call, recipients, amounts, i + 1, acc + amounts[i]);
    }
  }

  lemma {:induction false} CreditFromKeepsSum(
    balances: map<Address, int>, recipients: seq<Address>, amounts: seq<int>, i: nat)
    requires i <= |recipients| == |amounts| && NonNegative(balances)
    requires forall k :: i <= k < |amounts| ==> amounts[k] > 0
    ensures NonNegative(CreditFrom(balances, recipients, amounts, i))
    ensures Sum(CreditFrom(balances, recipients, amounts, i)) == Sum(balances) + Amounts(amounts, i)
    decreases |amounts| - i
  {
    if i < |amounts| {
      CreditKeepsSum(balances, recipients[i], amounts[i]);
      CreditFromKeepsSum(Credit(balances, recipients[i], amounts[i]), recipients, amounts, i + 1);
    }
  }

  /** What an accepted operation adds to the supply. */
  function SupplyChange(op: Op): int {
    match op
    case OpMint(_, amount) => amount
    case OpBatchMint(_, amounts) => Amounts(amounts, 0)
    case OpBurn(_, amount) => -amount
    case OpBurnFrom(_, _, amount) => -amount
    case _ => 0
  }

  lemma BurnKeepsSupply(s: State, from: Address, amount: nat)
    requires SupplyInvariant(s) && amount <= Get(s.balances, from)
    ensures var debited := s.balances[from := Get(s.balances, from) - amount];
            SupplyInvariant(s.(balances := debited, totalSupply := s.totalSupply - amount))
  {
    DebitKeepsSum(s.balances, from, amount);
    SumBoundsEntries(s.balances, from);
  }

  lemma TransferKeepsSupply(s: State, from: Address, to: Address, amount: nat)
    requires SupplyInvariant(s) && amount <= Get(s.balances, from)
    ensures var debited := s.balances[from := Get(s.balances, from) - amount];
            SupplyInvariant(s.(balances := Credit(debited, to, amount)))
  {
    DebitKeepsSum(s.balances, from, amount);
    CreditKeepsSum(s.balances[from := Get(s.balances, from) - amount], to, amount);
  }

  lemma TransferFromKeepsSupply(s: State, call: Call, spender: Address, from: Address, to: Address, amount: int)
    requires SupplyInvariant(s) && TransferFromChecked(s, call, spender, from, to, amount).Ok?
    ensures SupplyInvariant(TransferFromChecked(s, call, spender, from, to, amount).value)
  {
    TransferKeepsSupply(s, from, to, amount);
  }

  lemma BurnFromKeepsSupply(s: State, call: Call, spender: Address, from: Address, amount: int)
    requires SupplyInvariant(s) && BurnFrom(s, call, spender, from, amount).Ok?
    ensures SupplyInvariant(BurnFrom(s, call, spender, from, amount).value)
  {
    BurnKeepsSupply(s, from, amount);
  }

  lemma BatchKeepsSupply(s: State, call: Call, recipients: seq<Address>, amounts: seq<int>)
    requires SupplyInvariant(s)
    requires BatchMint(s, call, recipients, amounts).Ok?
    ensures SupplyInvariant(BatchMint(s, call, recipients, amounts).value)
    ensures BatchMint(s, call, recipients, amounts).value.totalSupply == s.totalSupply + Amounts(amounts, 0)
  {
    BatchTotalIsSum(s, call, recipients, amounts, 0, 0);
    CreditFromKeepsSum(s.balances, recipients, amounts, 0);
  }

  /** `t` is a consistent state whose supply differs from that of `s` by `change`. */
  ghost predicate Accounted(s: State, t: State, change: int) {
    SupplyInvariant(t) && t.totalSupply == s.totalSupply + change
  }

  lemma MintStep(s: State, call: Call, op: Op)
    requires SupplyInvariant(s) && Apply(s, call, op).Ok?
    requires op.OpMint? || op.OpBatchMint?
    ensures Accounted(s, Apply(s, call, op).value, SupplyChange(op))
  {
    if op.OpMint? {
      CreditKeepsSum(s.balances, op.to, op.amount);
    } else {
      BatchKeepsSupply(s, call, op.recipients, op.amounts);
    }
  }

  lemma MoveStep(s: State, call: Call, op: Op)
    requires SupplyInvariant(s) && Apply(s, call, op).Ok?
    requires op.OpTransfer? || op.OpTransferFrom? || op.OpBurn? || op.OpBurnFrom?
    ensures Accounted(s, Apply(s, call, op).value, SupplyChange(op))
  {
    match op {
      case OpTransfer(from, to, amount) => TransferKeepsSupply(s, from, to, amount);
      case OpTransferFrom(spender, from, to, amount) => TransferFromKeepsSupply(s, call, spender, from, to, amount);
      case OpBurn(from, amount) => BurnKeepsSupply(s, from, amount);
      case OpBurnFrom(spender, from, amount) => BurnFromKeepsSupply(s, call, spender, from, amount);
    }
  }

  lemma SettingStep(s: State, call: Call, op: Op)
    requires SupplyInvariant(s) && Apply(s, call, op).Ok?
    requires !(op.OpMint? || op.OpBatchMint?)
    requires !(op.OpTransfer? || op.OpTransferFrom? || op.OpBurn? || op.OpBurnFrom?)
    requires op.OpSetMaxSupply? ==> op.newMaxSupply <= I128_MAX
    ensures Accounted(s, Apply(s, call, op).value, SupplyChange(op))
  {
  }

  /** Every operation keeps the balances in step with the supply and the supply under the
      cap, and an accepted one moves the supply by exactly what it minted or burned. */
  lemma StepKeepsSupply(s: State, call: Call, op: Op)
    requires SupplyInvariant(s)
    requires op.OpSetMaxSupply? ==> op.newMaxSupply <= I128_MAX
    ensures Accounted(s, Step(s, call, op), if Apply(s, call, op).Ok? then SupplyChange(op) else 0)
  {
    if Apply(s, call, op).Ok? {
      if op.OpMint? || op.OpBatchMint? {
        MintStep(s, call, op);
      } else if op.OpTransfer? || op.OpTransferFrom? || op.OpBurn? || op.OpBurnFrom? {
        MoveStep(s, call, op);
      } else {
        SettingStep(s, call, op);
      }
    }
  }

  /** The net amount minted and burned by the accepted calls of a run. */
  function NetMinted(s: State, calls: seq<(Call, Op)>): int
    decreases |calls|
  {
    if calls == [] then 0
    else
      (if Apply(s, calls[0].0, calls[0].1).Ok? then SupplyChange(calls[0].1) else 0)
      + NetMinted(Step(s, calls[0].0, calls[0].1), calls[1..])
  }

  /** In every reachable state the balances are non-negative, sum to the supply, which never
      exceeds the cap, and the supply is what was minted less what was burned. */
  lemma {:induction false} RunKeepsSupply(s: State, calls: seq<(Call, Op)>)
    requires SupplyInvariant(s)
    requires forall i :: 0 <= i < |calls| ==> calls[i].1.OpSetMaxSupply? ==> calls[i].1.newMaxSupply <= I128_MAX
    ensures SupplyInvariant(Run(s, calls))
    ensures Run(s, calls).totalSupply == s.totalSupply + NetMinted(s, calls)
    decreases |calls|
  {
    if calls != [] {
      StepKeepsSupply(s, calls[0].0, calls[0].1);
      RunKeepsSupply(Step(s, calls[0].0, calls[0].1), calls[1..]);
    }
  }

  lemma ReachableSupply(calls: seq<(Call, Op)>)
    requires forall i :: 0 <= i < |calls| ==> calls[i].1.OpSetMaxSupply? ==> calls[i].1.newMaxSupply <= I128_MAX
    ensures SupplyInvariant(Run(BLANK, calls))
    ensures Run(BLANK, calls).totalSupply == NetMinted(BLANK, calls)
  {
    assert NonNegative(BLANK.balances);
    RunKeepsSupply(BLANK, calls);
  }

  // ---------- batch minting is repeated minting ----------

  /** Mints the items from index `i` on one by one, as one atomic transaction. */
  function MintEach(
    s: State, call: Call, recipients: seq<Address>, amounts: seq<int>, i: nat): Result<State, Error>
    requires i <= |recipients| == |amounts|
    decreases |recipients| - i
  {
    if i == |recipients| then Ok(s)
    else
      match Mint(s, call, recipients[i], amounts[i])
      case Err(e) => Err(e)
      case Ok(t) => MintEach(t, call, recipients, amounts, i + 1)
  }

  lemma {:induction false} MintEachFrom(
    s: State, call: Call, recipients: seq<Address>, amounts: seq<int>, i: nat, acc: nat)
    requires i <= |recipients| == |amounts|
    requires RequireAdmin(s, call).Ok?
    requires 0 <= s.totalSupply <= s.maxSupply <= I128_MAX && s.totalSupply + acc <= s.maxSupply
    ensures var t := s.(totalSupply := s.totalSupply + acc);
            var total := BatchTotal(s, call, recipients, amounts, i, acc);
            var each := MintEach(t, call, recipients, amounts, i);
            && (each.Ok? <==> total.Ok? && s.totalSupply + total.value <= s.maxSupply)
            && (each.Ok? ==> each.value == s.(balances := CreditFrom(s.balances, recipients, amounts, i),
                                             totalSupply := s.totalSupply + total.value))
    decreases |recipients| - i
  {
    if i < |recipients| {
      var t := s.(totalSupply := s.totalSupply + acc);
      assert MovabilityError(t, call, recipients[i]) == MovabilityError(s, call, recipients[i]);
      if Mint(t, call, recipients[i], amounts[i]).Ok? {
        var u := s.(balances := Credit(s.balances, recipients[i], amounts[i]));
        MintEachFrom(u, call, recipients, amounts, i + 1, acc + amounts[i]);
        BatchTotalIgnoresBalances(s, u, call, recipients, amounts, i + 1, acc + amounts[i]);
      } else if BatchTotal(s, call, recipients, amounts, i, acc).Ok? {
        BatchTotalIsSum(s, call, recipients, amounts, i, acc);
        AmountsPositive(amounts, i + 1);
      }
    }
  }

  lemma {:induction false} AmountsPositive(amounts: seq<int>, i: nat)
    requires i <= |amounts| && forall k :: i <= k < |amounts| ==> amounts[k] > 0
    ensures Amounts(amounts, i) >= 0
    decreases |amounts| - i
  {
    if i < |amounts| {
      AmountsPositive(amounts, i + 1);
    }
  }

  lemma {:induction false} BatchTotalIgnoresBalances(
    s: State, u: State, call: Call, recipients: seq<Address>, amounts: seq<int>, i: nat, acc: int)
    requires i <= |recipients| == |amounts|
    requires u.paused == s.paused && u.frozen == s.frozen && u.frozenUntil == s.frozenUntil
    ensures BatchTotal(s, call, recipients, amounts, i, acc) == BatchTotal(u, call, recipients, amounts, i, acc)
    decreases |recipients| - i
  {
    if i < |recipients| {
      BatchTotalIgnoresBalances(s, u, call, recipients, amounts, i + 1, acc + amounts[i]);
    }
  }

  /** A batch within its size limits succeeds exactly when minting its items one by one does,
      repeated recipients included, and both end in the same state. */
  lemma BatchMintIsRepeatedMint(s: State, call: Call, recipients: seq<Address>, amounts: seq<int>)
    requires SupplyInvariant(s)
    requires 0 < |recipients| == |amounts| <= MAX_BATCH_SIZE
    ensures BatchMint(s, call, recipients, amounts).Ok? <==> MintEach(s, call, recipients, amounts, 0).Ok?
    ensures BatchMint(s, call, recipients, amounts).Ok? ==>
              BatchMint(s, call, recipients, amounts) == MintEach(s, call, recipients, amounts, 0)
  {
    if RequireAdmin(s, call).Ok? {
      if s.balances != map[] {
        var k :| k in s.balances;
        SumBoundsEntries(s.balances, k);
      }
      assert s.(totalSupply := s.totalSupply + 0) == s;
      MintEachFrom(s, call, recipients, amounts, 0, 0);
    }
  }

  // ---------- the contract on stored fields ----------

  class Token {
    var admin: Option<Address>
    var paused: bool
    var frozen: set<Address>
    var frozenUntil: map<Address, nat>
    var hook: Option<Address>
    var balances: map<Address, int>
    var allowances: map<(Address, Address), Allowance>
    var totalSupply: int
    var maxSupply: int

    ghost function Now(): State
      reads this
    {
      State(admin, paused, frozen, frozenUntil, hook, balances, allowances, totalSupply, maxSupply)
    }

    constructor ()
      ensures Now() == BLANK
    {
      admin, paused, frozen, frozenUntil, hook := None, false, {}, map[], None;
      balances, allowances, totalSupply, maxSupply := map[], map[], 0, DEFAULT_MAX_SUPPLY;
    }

    function CheckAdmin(call: Call): (r: Result<Address, Error>)
      reads this
      ensures r == RequireAdmin(Now(), call)
    {
      if admin == None then Err(NotInitialized)
      else if admin.value !in call.signers then Err(NotAuthorized)
      else Ok(admin.value)
    }

    function CheckMovable(call: Call, account: Address): (r: Option<Error>)
      reads this
      ensures r == MovabilityError(Now(), call, account)
    {
      if paused then Some(Paused)
      else if account in frozen || (account in frozenUntil && call.now < frozenUntil[account]) then Some(AccountFrozen)
      else None
    }

    function CheckAllowance(call: Call, from: Address, spender: Address): (r: Allowance)
      reads this
      ensures r == ReadAllowance(Now(), call, from, spender)
    {
      var stored := if (from, spender) in allowances then allowances[(from, spender)] else Allowance(0, 0);
      if stored.amount > 0 && stored.expirationLedger < call.ledger
      then Allowance(0, stored.expirationLedger)
      else stored
    }

    /** Adds without an overflow check: every caller has to prove that none can happen. */
    method CreditBalance(account: Address, amount: int)
      requires Get(balances, account) + amount <= I128_MAX
      modifies this`balances
      ensures balances == Credit(old(balances), account, amount)
    {
      var current := Get(balances, account);
      balances := balances[account := current + amount];
    }

    method DebitBalance(account: Address, amount: int) returns (ok: bool)
      modifies this`balances
      ensures ok == (Get(old(balances), account) >= amount)
      ensures balances ==
                if ok then old(balances)[account := Get(old(balances), account) - amount] else old(balances)
    {
      var current := Get(balances, account);
      if current < amount {
        return false;
      }
      balances := balances[account := current - amount];
      return true;
    }

    method SetSupplyCap(call: Call, newMaxSupply: int) returns (r: Result<(), Error>)
      modifies this
      ensures Performed(SetMaxSupply(old(Now()), call, newMaxSupply), old(Now()), Now(), r)
    {
      if CheckAdmin(call).Err? {
        return Err(CheckAdmin(call).error);
      }
      if newMaxSupply < 0 {
        return Err(InvalidAmount);
      }
      if newMaxSupply < totalSupply {
        return Err(SupplyCapExceeded);
      }
      maxSupply := newMaxSupply;
      return Ok(());
    }

    method MintTo(call: Call, to: Address, amount: int) returns (r: Result<(), Error>)
      requires SupplyInvariant(Now())
      modifies this
      ensures SupplyInvariant(Now())
      ensures Performed(Mint(old(Now()), call, to, amount), old(Now()), Now(), r)
    {
      if CheckAdmin(call).Err? {
        return Err(CheckAdmin(call).error);
      }
      if amount <= 0 {
        return Err(InvalidAmount);
      }
      if CheckMovable(call, to).Some? {
        return Err(CheckMovable(call, to).value);
      }
      var newSupply := totalSupply + amount;
      if newSupply > I128_MAX || newSupply > maxSupply {
        return Err(SupplyCapExceeded);
      }
      SumBoundsEntries(balances, to);
      CreditKeepsSum(balances, to, amount);
      CreditBalance(to, amount);
      totalSupply := newSupply;
      return Ok(());
    }

    /** Credits every item in turn; the supply is written only at the end. */
    method CreditAll(recipients: seq<Address>, amounts: seq<int>)
      requires |recipients| == |amounts|
      requires NonNegative(balances)
      requires forall k :: 0 <= k < |amounts| ==> amounts[k] > 0
      requires Sum(balances) + Amounts(amounts, 0) <= I128_MAX
      modifies this`balances
      ensures balances == CreditFrom(old(balances), recipients, amounts, 0)
    {
      var i := 0;
      while i < |recipients|
        invariant 0 <= i <= |recipients|
        invariant NonNegative(balances)
        invariant Sum(balances) + Amounts(amounts, i) <= I128_MAX
        invariant CreditFrom(balances, recipients, amounts, i) == CreditFrom(old(balances), recipients, amounts, 0)
      {
        SumBoundsEntries(balances, recipients[i]);
        AmountsPositive(amounts, i + 1);
        CreditKeepsSum(balances, recipients[i], amounts[i]);
        CreditBalance(recipients[i], amounts[i]);
        i := i + 1;
      }
    }

    /** Checks every item of a batch before any balance moves. */
    method CheckBatch(call: Call, recipients: seq<Address>, amounts: seq<int>) returns (r: Result<int, Error>)
      requires |recipients| == |amounts|
      ensures r == BatchTotal(Now(), call, recipients, amounts, 0, 0)
    {
      var total := 0;
      var i := 0;
      while i < |recipients|
        invariant 0 <= i <= |recipients|
        invariant BatchTotal(Now(), call, recipients, amounts, i, total) ==
                  BatchTotal(Now(), call, recipients, amounts, 0, 0)
      {
        if amounts[i] <= 0 {
          return Err(InvalidAmount);
        }
        if CheckMovable(call, recipients[i]).Some? {
          return Err(CheckMovable(call, recipients[i]).value);
        }
        if total + amounts[i] > I128_MAX {
          return Err(SupplyCapExceeded);
        }
        total := total + amounts[i];
        i := i + 1;
      }
      return Ok(total);
    }

    method MintBatch(call: Call, recipients: seq<Address>, amounts: seq<int>) returns (r: Result<(), Error>)
      requires SupplyInvariant(Now())
      modifies this
      ensures SupplyInvariant(Now())
      ensures Performed(BatchMint(old(Now()), call, recipients, amounts), old(Now()), Now(), r)
    {
      if CheckAdmin(call).Err? {
        return Err(CheckAdmin(call).error);
      }
      if |recipients| == 0 {
        return Err(InvalidAmount);
      }
      if |recipients| > MAX_BATCH_SIZE {
        return Err(BatchSizeExceeded);
      }
      if |recipients| != |amounts| {
        return Err(BatchLengthMismatch);
      }
      var total := CheckBatch(call, recipients, amounts);
      if total.Err? {
        return Err(total.error);
      }
      var newSupply := totalSupply + total.value;
      if newSupply > I128_MAX || newSupply > maxSupply {
        return Err(SupplyCapExceeded);
      }
      BatchTotalIsSum(Now(), call, recipients, amounts, 0, 0);
      BatchKeepsSupply(Now(), call, recipients, amounts);
      CreditAll(recipients, amounts);
      totalSupply := newSupply;
      return Ok(());
    }

    method Transfer(call: Call, from: Address, to: Address, amount: int) returns (r: Result<(), Error>)
      requires SupplyInvariant(Now())
      modifies this
      ensures SupplyInvariant(Now())
      ensures Performed(TransferChecked(old(Now()), call, from, to, amount), old(Now()), Now(), r)
    {
      if amount < 0 {
        return Err(InvalidAmount);
      }
      if CheckMovable(call, from).Some? {
        return Err(CheckMovable(call, from).value);
      }
      if CheckMovable(call, to).Some? {
        return Err(CheckMovable(call, to).value);
      }
      if from !in call.signers {
        return Err(NotAuthorized);
      }
      if hook.Some? && !call.hookApproves {
        return Err(ComplianceCheckFailed);
      }
      r := Move(from, to, amount);
    }

    method Move(from: Address, to: Address, amount: nat) returns (r: Result<(), Error>)
      requires SupplyInvariant(Now())
      modifies this`balances
      ensures SupplyInvariant(Now())
      ensures r == if Get(old(balances), from) < amount then Err(InsufficientBalance) else Ok(())
      ensures balances == if r.Err? then old(balances)
                          else Credit(old(balances)[from := Get(old(balances), from) - amount], to, amount)
    {
      if amount <= Get(balances, from) {
        TransferKeepsSupply(Now(), from, to, amount);
        DebitKeepsSum(balances, from, amount);
        SumBoundsEntries(balances[from := Get(balances, from) - amount], to);
      }
      var debited := DebitBalance(from, amount);
      if !debited {
        return Err(InsufficientBalance);
      }
      CreditBalance(to, amount);
      return Ok(());
    }

    method TransferFrom(call: Call, spender: Address, from: Address, to: Address, amount: int)
      returns (r: Result<(), Error>)
      requires SupplyInvariant(Now())
      modifies this
      ensures SupplyInvariant(Now())
      ensures Performed(TransferFromChecked(old(Now()), call, spender, from, to, amount), old(Now()), Now(), r)
    {
      if amount < 0 {
        return Err(InvalidAmount);
      }
      if CheckMovable(call, from).Some? {
        return Err(CheckMovable(call, from).value);
      }
      if CheckMovable(call, to).Some? {
        return Err(CheckMovable(call, to).value);
      }
      if CheckMovable(call, spender).Some? {
        return Err(CheckMovable(call, spender).value);
      }
      if spender !in call.signers {
        return Err(NotAuthorized);
      }
      var allowance := CheckAllowance(call, from, spender);
      if allowance.amount < amount {
        return Err(InsufficientAllowance);
      }
      if hook.Some? && !call.hookApproves {
        return Err(ComplianceCheckFailed);
      }
      var saved := allowances;
      allowances := WriteAllowance(allowances, from, spender, allowance.(amount := allowance.amount - amount));
      r := Move(from, to, amount);
      if r.Err? {
        allowances := saved;  // the host discards the writes of a failed call
      }
    }

    method BurnOwn(call: Call, from: Address, amount: int) returns (r: Result<(), Error>)
      requires SupplyInvariant(Now())
      modifies this
      ensures SupplyInvariant(Now())
      ensures Performed(Burn(old(Now()), call, from, amount), old(Now()), Now(), r)
    {
      if amount < 0 {
        return Err(InvalidAmount);
      }
      if CheckMovable(call, from).Some? {
        return Err(CheckMovable(call, from).value);
      }
      if Get(balances, from) < amount {
        return Err(InsufficientTransferable);
      }
      if from !in call.signers {
        return Err(NotAuthorized);
      }
      BurnKeepsSupply(Now(), from, amount);
      var debited := DebitBalance(from, amount);
      totalSupply := totalSupply - amount;
      return Ok(());
    }

    method BurnOnAllowance(call: Call, spender: Address, from: Address, amount: int) returns (r: Result<(), Error>)
      requires SupplyInvariant(Now())
      modifies this
      ensures SupplyInvariant(Now())
      ensures Performed(BurnFrom(old(Now()), call, spender, from, amount), old(Now()), Now(), r)
    {
      hide MovabilityError;
      if amount < 0 {
        return Err(InvalidAmount);
      }
      if CheckMovable(call, from).Some? {
        return Err(CheckMovable(call, from).value);
      }
      if Get(balances, from) < amount {
        return Err(InsufficientTransferable);
      }
      if CheckMovable(call, spender).Some? {
        return Err(CheckMovable(call, spender).value);
      }
      if spender !in call.signers {
        return Err(NotAuthorized);
      }
      var allowance := CheckAllowance(call, from, spender);
      if allowance.expirationLedger > 0 && call.ledger > allowance.expirationLedger {
        return Err(AllowanceExpired);
      }
      if allowance.amount < amount {
        return Err(InsufficientAllowance);
      }
      BurnFromKeepsSupply(Now(), call, spender, from, amount);
      allowances := WriteAllowance(allowances, from, spender, allowance.(amount := allowance.amount - amount));
      var debited := DebitBalance(from, amount);
      totalSupply := totalSupply - amount;
      return Ok(());
    }
  }
}
