/** The 24-hour timelock of the payment router: queueing, execution one by one or in a
    batch, and cancellation. */
module Timelock {
  import opened ByteOrder
  import opened Wrappers
  import Multisig
  import Roles

  const SECONDS_IN_24H: int := 86_400
  const MAX_PAIR_SLIPPAGE_BPS: int := 500

  datatype Error =
    | ContractFrozen | Paused | NotInitialized | NotAuthorized | TimelockNotFound | TimelockNotReady
    | InvalidSlippageConfig | OfRoles(roles: Roles.Error) | OfMultisig(multisig: Multisig.Error)

  datatype Action =
    | SetPlatformTreasury(treasury: Address)
    | SetFeeConfig(feeBps: int, feeCap: int)
    | SetFeeBps(newFeeBps: int)
    | SetGovernance(governance: Address)
    | SetMinLimit(minLimit: int)
    | TransferAdmin(newAdmin: Address)
    | SetBackupAdmin(backup: Address, timeoutSeconds: int)
    | Upgrade(hash: Multisig.Hash)
    | SetMultisigConfig(signers: seq<Address>, threshold: nat)
    | RegisterDex(dex: Address)
    | DeregisterDex(dex: Address)
    | SetMaxSlippageBps(slippageBps: int)
    | SetPairMaxSlippageBps(tokenIn: Address, tokenOut: Address, pairBps: int)

  datatype Entry = Entry(queuedAt: int, action: Action)

  datatype Settings = Settings(
    treasury: Option<Address>,
    feeBps: int,
    feeCap: int,
    governance: Option<Address>,
    minLimit: int,
    dexes: set<Address>,
    maxSlippageBps: int,
    pairSlippage: map<(Address, Address), int>)

  datatype State = State(
    frozen: bool,
    halted: bool,
    nextNonce: nat,
    entries: map<nat, Entry>,
    settings: Settings,
    roles: Roles.State,
    multisig: Multisig.State)

  /** Who signed the call, and the ledger clock. */
  datatype Call = Call(signers: set<Address>, now: int)

  // ---------- applying an action ----------

  function ActionError(s: State, action: Action): Option<Error> {
    match action
    case Upgrade(hash) =>
      (match Multisig.UpgradeError(s.multisig, hash) case None => None case Some(e) => Some(OfMultisig(e)))
    case SetMultisigConfig(signers, threshold) =>
      (match Multisig.ConfigError(signers, threshold) case None => None case Some(e) => Some(OfMultisig(e)))
    case SetPairMaxSlippageBps(_, _, bps) =>
      if 0 <= bps <= MAX_PAIR_SLIPPAGE_BPS then None else Some(InvalidSlippageConfig)
    case _ => None
  }

  function ApplyAction(s: State, now: int, action: Action): Result<State, Error> {
    match action
    case SetPlatformTreasury(treasury) => Ok(s.(settings := s.settings.(treasury := Some(treasury))))
    case SetFeeConfig(feeBps, feeCap) => Ok(s.(settings := s.settings.(feeBps := feeBps, feeCap := feeCap)))
    case SetFeeBps(newFeeBps) => Ok(s.(settings := s.settings.(feeBps := newFeeBps)))
    case SetGovernance(governance) => Ok(s.(settings := s.settings.(governance := Some(governance))))
    case SetMinLimit(minLimit) => Ok(s.(settings := s.settings.(minLimit := minLimit)))
    case TransferAdmin(newAdmin) => Ok(s.(roles := Roles.SeatAdmin(s.roles, newAdmin)))
    case SetBackupAdmin(backup, timeout) =>
      (match Roles.ArmSwitch(s.roles, now, backup, timeout)
       case Ok(roles) => Ok(s.(roles := roles))
       case Err(e) => Err(OfRoles(e)))
    case Upgrade(hash) => Ok(s.(multisig := Multisig.Install(s.multisig, hash)))
    case SetMultisigConfig(signers, threshold) =>
      (match Multisig.StoreConfig(s.multisig, signers, threshold)
       case Ok(multisig) => Ok(s.(multisig := multisig))
       case Err(e) => Err(OfMultisig(e)))
    case RegisterDex(dex) => Ok(s.(settings := s.settings.(dexes := s.settings.dexes + {dex})))
    case DeregisterDex(dex) => Ok(s.(settings := s.settings.(dexes := s.settings.dexes - {dex})))
    case SetMaxSlippageBps(bps) => Ok(s.(settings := s.settings.(maxSlippageBps := bps)))
    case SetPairMaxSlippageBps(tokenIn, tokenOut, bps) =>
      Ok(s.(settings := s.settings.(pairSlippage := s.settings.pairSlippage[(tokenIn, tokenOut) := bps])))
  }

  // ---------- entry points ----------

  /** What every call that queues or executes needs: an operating contract and the admin. */
  function GuardError(s: State, call: Call): Option<Error> {
    if s.frozen then Some(ContractFrozen)
    else if s.halted then Some(Paused)
    else if s.roles.admin == None then Some(NotInitialized)
    else if s.roles.admin.value !in call.signers then Some(NotAuthorized)
    else None
  }

  /** Why the entry could not be executed now. */
  function EntryError(s: State, call: Call, nonce: nat): Option<Error> {
    if nonce !in s.entries then Some(TimelockNotFound)
    else if call.now < s.entries[nonce].queuedAt + SECONDS_IN_24H then Some(TimelockNotReady)
    else ActionError(s, s.entries[nonce].action)
  }

  function QueueAction(s: State, call: Call, action: Action): Result<State, Error> {
    if GuardError(s, call).Some? then Err(GuardError(s, call).value)
    else
      var nonce := s.nextNonce + 1;
      Ok(s.(nextNonce := nonce, entries := s.entries[nonce := Entry(call.now, action)]))
  }

  function CancelAction(s: State, call: Call, nonce: nat): Result<State, Error> {
    if s.roles.admin == None then Err(NotInitialized)
    else if s.roles.admin.value !in call.signers then Err(NotAuthorized)
    else if nonce !in s.entries then Err(TimelockNotFound)
    else Ok(s.(entries := s.entries - {nonce}))
  }

  /** Takes the entry out of the queue and applies its action. */
  function Fire(s: State, now: int, nonce: nat, action: Action): Result<State, Error> {
    ApplyAction(s.(entries := s.entries - {nonce}), now, action)
  }

  function ExecuteAction(s: State, call: Call, nonce: nat): Result<State, Error> {
    if GuardError(s, call).Some? then Err(GuardError(s, call).value)
    else if EntryError(s, call, nonce).Some? then Err(EntryError(s, call, nonce).value)
    else Fire(s, call.now, nonce, s.entries[nonce].action)
  }

  predicate Distinct(nonces: seq<nat>) {
    forall i, j :: 0 <= i < j < |nonces| ==> nonces[i] != nonces[j]
  }

  /** The first pass over a batch: every entry is checked against the initial state. */
  function CheckAll(s: State, call: Call, nonces: seq<nat>): Option<Error> {
    if nonces == [] then None
    else if EntryError(s, call, nonces[0]).Some? then EntryError(s, call, nonces[0])
    else CheckAll(s, call, nonces[1..])
  }

  function ActionsOf(s: State, nonces: seq<nat>): seq<Action>
    requires forall n :: n in nonces ==> n in s.entries
  {
    seq(|nonces|, i requires 0 <= i < |nonces| => s.entries[nonces[i]].action)
  }

  /** The second pass: the actions collected by the first are applied in order. */
  function FireAll(s: State, now: int, nonces: seq<nat>, actions: seq<Action>): Result<State, Error>
    requires |nonces| == |actions|
    decreases |nonces|
  {
    if nonces == [] then Ok(s)
    else
      match Fire(s, now, nonces[0], actions[0])
      case Err(e) => Err(e)
      case Ok(t) => FireAll(t, now, nonces[1..], actions[1..])
  }

  function ExecuteBatch(s: State, call: Call, nonces: seq<nat>): Result<State, Error> {
    if GuardError(s, call).Some? then Err(GuardError(s, call).value)
    else if nonces == [] then Ok(s)
    else if !Distinct(nonces) then Err(TimelockNotFound)
    else if CheckAll(s, call, nonces).Some? then Err(CheckAll(s, call, nonces).value)
    else
      CheckedAreQueued(s, call, nonces);
      FireAll(s, call.now, nonces, ActionsOf(s, nonces))
  }

  lemma CheckedAreQueued(s: State, call: Call, nonces: seq<nat>)
    requires CheckAll(s, call, nonces) == None
    ensures forall i :: 0 <= i < |nonces| ==> EntryError(s, call, nonces[i]) == None && nonces[i] in s.entries
  {
    if nonces != [] {
      CheckedAreQueued(s, call, nonces[1..]);
      assert forall i :: 1 <= i < |nonces| ==> nonces[i] == nonces[1..][i - 1];
    }
  }

  /** Executing the entries one by one, in order, as one atomic transaction. */
  function ExecuteEach(s: State, call: Call, nonces: seq<nat>): Result<State, Error>
    decreases |nonces|
  {
    if nonces == [] then Ok(s)
    else
      match ExecuteAction(s, call, nonces[0])
      case Err(e) => Err(e)
      case Ok(t) => ExecuteEach(t, call, nonces[1..])
  }

  // ---------- when a batch is the same as one-by-one execution ----------

  /** Executing `a` does not change whether `b` may be executed after it. */
  predicate Harmless(a: Action, b: Action, signers: set<Address>) {
    && (a.TransferAdmin? ==> a.newAdmin in signers)
    && !(a.SetMultisigConfig? && b.Upgrade?)
    && !(a.Upgrade? && b.Upgrade? && a.hash == b.hash)
  }

  /** No entry of the batch gets in the way of a later one. */
  ghost predicate Independent(s: State, call: Call, nonces: seq<nat>) {
    forall i, j :: 0 <= i < j < |nonces| && nonces[i] in s.entries && nonces[j] in s.entries ==>
      Harmless(s.entries[nonces[i]].action, s.entries[nonces[j]].action, call.signers)
  }

  lemma FireFrame(s: State, now: int, nonce: nat, action: Action)
    requires Fire(s, now, nonce, action).Ok?
    ensures var t := Fire(s, now, nonce, action).value;
            && t.frozen == s.frozen && t.halted == s.halted && t.nextNonce == s.nextNonce
            && t.entries == s.entries - {nonce}
            && t.roles.admin == (if action.TransferAdmin? then Some(action.newAdmin) else s.roles.admin)
            && t.multisig.group == (if action.SetMultisigConfig?
                                    then Some(Multisig.ConfigKey(action.signers, action.threshold))
                                    else s.multisig.group)
            && t.multisig.upgradeApprovals == (if action.Upgrade?
                                               then s.multisig.upgradeApprovals - {action.hash}
                                               else s.multisig.upgradeApprovals)
  {
  }

  lemma FireKeepsChecks(s: State, call: Call, nonce: nat, other: nat)
    requires nonce in s.entries && nonce != other
    requires Fire(s, call.now, nonce, s.entries[nonce].action).Ok?
    requires other in s.entries ==> Harmless(s.entries[nonce].action, s.entries[other].action, call.signers)
    ensures EntryError(Fire(s, call.now, nonce, s.entries[nonce].action).value, call, other) ==
        EntryError(s, call, other)
  {
    FireFrame(s, call.now, nonce, s.entries[nonce].action);
  }

  lemma {:induction false} FireKeepsCheckAll(s: State, call: Call, nonce: nat, others: seq<nat>)
    requires nonce in s.entries && nonce !in others
    requires Fire(s, call.now, nonce, s.entries[nonce].action).Ok?
    requires forall other :: other in others && other in s.entries ==>
               Harmless(s.entries[nonce].action, s.entries[other].action, call.signers)
    ensures CheckAll(Fire(s, call.now, nonce, s.entries[nonce].action).value, call, others) == CheckAll(s, call, others)
  {
    if others != [] {
      FireKeepsChecks(s, call, nonce, others[0]);
      FireKeepsCheckAll(s, call, nonce, others[1..]);
    }
  }

  /** One-by-one execution never gets past an entry that is not queued, so it also refuses
      repeated nonces. */
  lemma {:induction false} EachNeedsQueued(s: State, call: Call, nonces: seq<nat>)
    requires ExecuteEach(s, call, nonces).Ok?
    ensures Distinct(nonces) && forall n :: n in nonces ==> n in s.entries
    decreases |nonces|
  {
    if nonces != [] {
      var t := ExecuteAction(s, call, nonces[0]).value;
      FireFrame(s, call.now, nonces[0], s.entries[nonces[0]].action);
      EachNeedsQueued(t, call, nonces[1..]);
      assert forall i :: 1 <= i < |nonces| ==> nonces[i] == nonces[1..][i - 1] && nonces[i] in t.entries;
    }
  }

  lemma IndependentRest(s: State, call: Call, nonces: seq<nat>)
    requires nonces != [] && nonces[0] in s.entries && Independent(s, call, nonces) && Distinct(nonces)
    requires Fire(s, call.now, nonces[0], s.entries[nonces[0]].action).Ok?
    ensures Independent(Fire(s, call.now, nonces[0], s.entries[nonces[0]].action).value, call, nonces[1..])
    ensures Distinct(nonces[1..]) && nonces[0] !in nonces[1..]
    ensures forall other :: other in nonces[1..] && other in s.entries ==>
              Harmless(s.entries[nonces[0]].action, s.entries[other].action, call.signers)
  {
    FireFrame(s, call.now, nonces[0], s.entries[nonces[0]].action);
    assert forall i :: 0 <= i < |nonces[1..]| ==> nonces[1..][i] == nonces[i + 1];
  }

  /** One round of both executions: what is left of the batch after its first entry is again
      a batch that was checked in full. */
  lemma BatchUnfolds(s: State, call: Call, nonces: seq<nat>)
    requires nonces != [] && Distinct(nonces) && Independent(s, call, nonces)
    requires GuardError(s, call) == None && CheckAll(s, call, nonces) == None
    requires Fire(s, call.now, nonces[0], s.entries[nonces[0]].action).Ok?
    ensures var t := Fire(s, call.now, nonces[0], s.entries[nonces[0]].action).value;
            if |nonces| == 1 then ExecuteBatch(s, call, nonces) == Ok(t)
            else GuardError(t, call) == None && ExecuteBatch(s, call, nonces) == ExecuteBatch(t, call, nonces[1..])
  {
    var t := Fire(s, call.now, nonces[0], s.entries[nonces[0]].action).value;
    var rest := nonces[1..];
    CheckedAreQueued(s, call, nonces);
    IndependentRest(s, call, nonces);
    FireFrame(s, call.now, nonces[0], s.entries[nonces[0]].action);
    FireKeepsCheckAll(s, call, nonces[0], rest);
    if rest == [] {
      assert FireAll(t, call.now, rest, ActionsOf(s, nonces)[1..]) == Ok(t);
    } else {
      assert rest[0] in nonces;
      CheckedAreQueued(t, call, rest);
      assert ActionsOf(s, nonces)[1..] == ActionsOf(t, rest);
    }
  }

  lemma {:induction false} DistinctBatchAgrees(s: State, call: Call, nonces: seq<nat>)
    requires nonces != [] && Distinct(nonces) && Independent(s, call, nonces)
    ensures ExecuteBatch(s, call, nonces).Ok? <==> ExecuteEach(s, call, nonces).Ok?
    ensures ExecuteBatch(s, call, nonces).Ok? ==> ExecuteBatch(s, call, nonces) == ExecuteEach(s, call, nonces)
    decreases |nonces|
  {
    if GuardError(s, call) == None && EntryError(s, call, nonces[0]) == None {
      var fired := Fire(s, call.now, nonces[0], s.entries[nonces[0]].action);
      if fired.Ok? {
        var t := fired.value;
        var rest := nonces[1..];
        IndependentRest(s, call, nonces);
        FireKeepsCheckAll(s, call, nonces[0], rest);
        if rest != [] {
          DistinctBatchAgrees(t, call, rest);
        }
        if CheckAll(s, call, nonces) == None {
          BatchUnfolds(s, call, nonces);
        }
      } else if CheckAll(s, call, nonces) == None {
        CheckedAreQueued(s, call, nonces);
      }
    }
  }

  /** A non-empty batch of independent entries succeeds exactly when executing its entries
      one by one as one transaction does, and with the same final state. */
  lemma BatchIsOneByOne(s: State, call: Call, nonces: seq<nat>)
    requires nonces != [] && Independent(s, call, nonces)
    ensures ExecuteBatch(s, call, nonces).Ok? <==> ExecuteEach(s, call, nonces).Ok?
    ensures ExecuteBatch(s, call, nonces).Ok? ==> ExecuteBatch(s, call, nonces) == ExecuteEach(s, call, nonces)
  {
    if Distinct(nonces) {
      DistinctBatchAgrees(s, call, nonces);
    } else if ExecuteEach(s, call, nonces).Ok? {
      EachNeedsQueued(s, call, nonces);
    }
  }

  // ---------- dependent batches ----------

  /** What earlier actions of a list have done to the authority that later ones rely on:
      who is admin, which group is in force, which hashes and rotations have used up their
      approvals. */
  datatype Authority = Authority(
    admin: Option<Address>, group: Option<Multisig.Group>, used: set<Multisig.Hash>, rotated: set<Multisig.Group>)

  function Initial(s: State): Authority {
    Authority(s.roles.admin, s.multisig.group, {}, {})
  }

  function After(authority: Authority, action: Action): Authority {
    match action
    case TransferAdmin(newAdmin) => authority.(admin := Some(newAdmin))
    case SetMultisigConfig(signers, threshold) =>
      var key := Multisig.ConfigKey(signers, threshold);
      authority.(group := Some(key),
                 rotated := if authority.group.Some? then authority.rotated + {key} else authority.rotated)
    case Upgrade(hash) => authority.(used := authority.used + {hash})
    case _ => authority
  }

  function QuorumOf(s: State, group: Multisig.Group, hash: Multisig.Hash): nat {
    |Multisig.Effective(Multisig.Approvals(s.multisig.upgradeApprovals, hash), group.signers)|
  }

  function RotationQuorumOf(s: State, group: Multisig.Group, key: Multisig.Group): nat {
    |Multisig.Effective(Multisig.Approvals(s.multisig.configApprovals, key), group.signers)|
  }

  /** The hash has an unused quorum of the group then in force. */
  predicate Quorate(s: State, authority: Authority, hash: Multisig.Hash) {
    && authority.group.Some?
    && hash !in authority.used
    && QuorumOf(s, authority.group.value, hash) >= authority.group.value.threshold
  }

  /** Read off the list of actions before anything runs: at every action the admin then in
      charge has signed, and every upgrade has an unused quorum of the group then in force. */
  predicate StaysAuthorized(s: State, call: Call, actions: seq<Action>, authority: Authority)
    decreases |actions|
  {
    actions == [] ||
    (&& authority.admin.Some? && authority.admin.value in call.signers
     && (actions[0].Upgrade? ==> Quorate(s, authority, actions[0].hash))
     && StaysAuthorized(s, call, actions[1..], After(authority, actions[0])))
  }

  /** Applying the action does not fail: a backup admin is neither the admin then in charge
      nor given too short a timeout, and a rotation is valid and has an unused quorum. */
  predicate Fits(s: State, authority: Authority, action: Action) {
    match action
    case SetBackupAdmin(backup, timeout) =>
      timeout >= Roles.MIN_DMS_TIMEOUT && authority.admin.Some? && authority.admin.value != backup
    case SetMultisigConfig(signers, threshold) =>
      var key := Multisig.ConfigKey(signers, threshold);
      && Multisig.ConfigError(signers, threshold) == None
      && (authority.group.Some? ==>
            && key !in authority.rotated
            && RotationQuorumOf(s, authority.group.value, key) >= authority.group.value.threshold)
    case _ => true
  }

  predicate Applicable(s: State, actions: seq<Action>, authority: Authority)
    decreases |actions|
  {
    actions == [] || (Fits(s, authority, actions[0]) && Applicable(s, actions[1..], After(authority, actions[0])))
  }

  /** Every upgrade of the list has a quorum before anything runs. */
  ghost predicate InitiallyQuorate(s: State, actions: seq<Action>) {
    forall i :: 0 <= i < |actions| && actions[i].Upgrade? ==> Quorate(s, Initial(s), actions[i].hash)
  }

  /** The entries are different, queued, due, and acceptable apart from quorums. */
  ghost predicate Ready(s: State, call: Call, nonces: seq<nat>) {
    && Distinct(nonces)
    && (forall n :: n in nonces ==> n in s.entries)
    && (forall n :: n in nonces ==> EntryReady(s, call, n))
  }

  predicate EntryReady(s: State, call: Call, n: nat)
    requires n in s.entries
  {
    && call.now >= s.entries[n].queuedAt + SECONDS_IN_24H
    && (!s.entries[n].action.Upgrade? ==> ActionError(s, s.entries[n].action) == None)
  }

  /** `t` is the state that `s` has become by actions that left `authority`. */
  ghost predicate Tracks(s: State, t: State, authority: Authority) {
    && t.frozen == s.frozen && t.halted == s.halted
    && t.roles.admin == authority.admin
    && t.multisig.group == authority.group
    && t.multisig.upgradeApprovals == s.multisig.upgradeApprovals - authority.used
    && t.multisig.configApprovals == s.multisig.configApprovals - authority.rotated
    && (authority.group.Some? ==> authority.group.value.threshold >= 1)
  }

  lemma TracksItself(s: State)
    requires Multisig.ValidGroup(s.multisig)
    ensures Tracks(s, s, Initial(s))
  {
    assert s.multisig.upgradeApprovals - {} == s.multisig.upgradeApprovals;
    assert s.multisig.configApprovals - {} == s.multisig.configApprovals;
  }

  lemma TracksFire(s: State, t: State, now: int, nonce: nat, action: Action, authority: Authority)
    requires Tracks(s, t, authority) && Fire(t, now, nonce, action).Ok?
    ensures Tracks(s, Fire(t, now, nonce, action).value, After(authority, action))
  {
    FireFrame(t, now, nonce, action);
    if action.Upgrade? {
      var m := s.multisig.upgradeApprovals;
      assert m - authority.used - {action.hash} == m - (authority.used + {action.hash});
    } else if action.SetMultisigConfig? {
      var m, key := s.multisig.configApprovals, Multisig.ConfigKey(action.signers, action.threshold);
      assert m - authority.rotated - {key} == m - (authority.rotated + {key});
    }
  }

  lemma TrackedQuorum(s: State, t: State, hash: Multisig.Hash, authority: Authority)
    requires Tracks(s, t, authority)
    ensures Multisig.UpgradeError(t.multisig, hash) == None <==> Quorate(s, authority, hash)
  {
    if authority.group.Some? && hash in authority.used {
      assert Multisig.Approvals(t.multisig.upgradeApprovals, hash) == [];
    }
  }

  lemma FitsExactly(s: State, t: State, now: int, nonce: nat, action: Action, authority: Authority)
    requires Tracks(s, t, authority)
    ensures Fire(t, now, nonce, action).Ok? <==> Fits(s, authority, action)
  {
    if action.SetMultisigConfig? && authority.group.Some? {
      var key := Multisig.ConfigKey(action.signers, action.threshold);
      if key in authority.rotated {
        assert Multisig.Approvals(t.multisig.configApprovals, key) == [];
      }
    }
  }

  lemma {:induction false} FireAllFollows(
    s: State, t: State, now: int, nonces: seq<nat>, actions: seq<Action>, authority: Authority)
    requires |nonces| == |actions| && Tracks(s, t, authority)
    ensures FireAll(t, now, nonces, actions).Ok? <==> Applicable(s, actions, authority)
    decreases |nonces|
  {
    if nonces != [] {
      FitsExactly(s, t, now, nonces[0], actions[0], authority);
      if Fits(s, authority, actions[0]) {
        TracksFire(s, t, now, nonces[0], actions[0], authority);
        FireAllFollows(s, Fire(t, now, nonces[0], actions[0]).value, now, nonces[1..], actions[1..],
            After(authority, actions[0]));
      }
    }
  }

  lemma {:induction false} EachFollows(
    s: State, t: State, call: Call, nonces: seq<nat>, actions: seq<Action>, authority: Authority)
    requires |nonces| == |actions| && Tracks(s, t, authority) && !s.frozen && !s.halted
    requires Ready(t, call, nonces) && ActionsOf(t, nonces) == actions
    ensures ExecuteEach(t, call, nonces).Ok? <==>
            StaysAuthorized(s, call, actions, authority) && Applicable(s, actions, authority)
    ensures ExecuteEach(t, call, nonces).Ok? ==> ExecuteEach(t, call, nonces) == FireAll(t, call.now, nonces, actions)
    decreases |nonces|
  {
    if nonces != [] {
      var action := actions[0];
      assert nonces[0] in nonces && action == t.entries[nonces[0]].action;
      FitsExactly(s, t, call.now, nonces[0], action, authority);
      if action.Upgrade? {
        TrackedQuorum(s, t, action.hash, authority);
      }
      if ExecuteAction(t, call, nonces[0]).Ok? {
        var u := Fire(t, call.now, nonces[0], action).value;
        TracksFire(s, t, call.now, nonces[0], action, authority);
        ReadyRest(t, u, call, nonces);
        EachFollows(s, u, call, nonces[1..], actions[1..], After(authority, action));
      }
    }
  }

  /** Firing the first entry leaves the others ready, with the same actions. */
  lemma ReadyRest(t: State, u: State, call: Call, nonces: seq<nat>)
    requires nonces != [] && Ready(t, call, nonces)
    requires Fire(t, call.now, nonces[0], t.entries[nonces[0]].action) == Ok(u)
    ensures Ready(u, call, nonces[1..]) && ActionsOf(u, nonces[1..]) == ActionsOf(t, nonces)[1..]
  {
    FireFrame(t, call.now, nonces[0], t.entries[nonces[0]].action);
    assert forall i :: 0 <= i < |nonces[1..]| ==> nonces[1..][i] == nonces[i + 1];
    forall n | n in nonces[1..] ensures n in u.entries && u.entries[n] == t.entries[n] && EntryReady(u, call, n) {
      assert n in nonces && EntryReady(t, call, n);
    }
  }

  /** One-by-one execution only goes through entries that were ready from the start. */
  lemma {:induction false} EachNeedsReady(s: State, call: Call, nonces: seq<nat>)
    requires ExecuteEach(s, call, nonces).Ok?
    ensures Ready(s, call, nonces) && (nonces != [] ==> GuardError(s, call) == None)
    decreases |nonces|
  {
    EachNeedsQueued(s, call, nonces);
    if nonces != [] {
      var t := ExecuteAction(s, call, nonces[0]).value;
      FireFrame(s, call.now, nonces[0], s.entries[nonces[0]].action);
      EachNeedsReady(t, call, nonces[1..]);
      forall n | n in nonces ensures EntryReady(s, call, n) {
        if n != nonces[0] {
          assert n in nonces[1..];
        }
      }
    }
  }

  /** The first pass accepts exactly the ready entries whose upgrades have a quorum. */
  lemma {:induction false} CheckAllExactly(s: State, call: Call, nonces: seq<nat>)
    requires Multisig.ValidGroup(s.multisig) && Distinct(nonces)
    ensures CheckAll(s, call, nonces) == None <==> Ready(s, call, nonces) && InitiallyQuorate(s, ActionsOf(s, nonces))
  {
    TracksItself(s);
    if CheckAll(s, call, nonces) == None {
      CheckedAreQueued(s, call, nonces);
      forall i | 0 <= i < |nonces| && s.entries[nonces[i]].action.Upgrade?
        ensures Quorate(s, Initial(s), s.entries[nonces[i]].action.hash)
      {
        TrackedQuorum(s, s, s.entries[nonces[i]].action.hash, Initial(s));
      }
    } else if Ready(s, call, nonces) && InitiallyQuorate(s, ActionsOf(s, nonces)) {
      forall n | n in nonces ensures EntryError(s, call, n) == None {
        var i :| 0 <= i < |nonces| && nonces[i] == n;
        assert ActionsOf(s, nonces)[i] == s.entries[n].action;
        if s.entries[n].action.Upgrade? {
          TrackedQuorum(s, s, s.entries[n].action.hash, Initial(s));
        }
      }
      NoErrorChecks(s, call, nonces);
    }
  }

  lemma {:induction false} NoErrorChecks(s: State, call: Call, nonces: seq<nat>)
    requires forall n :: n in nonces ==> EntryError(s, call, n) == None
    ensures CheckAll(s, call, nonces) == None
  {
    if nonces != [] {
      NoErrorChecks(s, call, nonces[1..]);
    }
  }

  /** When a batch goes through. */
  lemma BatchAcceptedExactly(s: State, call: Call, nonces: seq<nat>)
    requires nonces != [] && Multisig.ValidGroup(s.multisig)
    ensures ExecuteBatch(s, call, nonces).Ok? <==>
              && GuardError(s, call) == None && Ready(s, call, nonces)
              && InitiallyQuorate(s, ActionsOf(s, nonces)) && Applicable(s, ActionsOf(s, nonces), Initial(s))
  {
    if Distinct(nonces) {
      CheckAllExactly(s, call, nonces);
      if Ready(s, call, nonces) {
        TracksItself(s);
        FireAllFollows(s, s, call.now, nonces, ActionsOf(s, nonces), Initial(s));
      }
    }
  }

  /** When one-by-one execution goes through. */
  lemma EachAcceptedExactly(s: State, call: Call, nonces: seq<nat>)
    requires nonces != [] && Multisig.ValidGroup(s.multisig)
    ensures ExecuteEach(s, call, nonces).Ok? <==>
              && GuardError(s, call) == None && Ready(s, call, nonces)
              && StaysAuthorized(s, call, ActionsOf(s, nonces), Initial(s))
              && Applicable(s, ActionsOf(s, nonces), Initial(s))
    ensures ExecuteEach(s, call, nonces).Ok? ==>
              Ready(s, call, nonces)
              && ExecuteEach(s, call, nonces) == FireAll(s, call.now, nonces, ActionsOf(s, nonces))
  {
    if ExecuteEach(s, call, nonces).Ok? {
      EachNeedsReady(s, call, nonces);
    }
    if GuardError(s, call) == None && Ready(s, call, nonces) {
      TracksItself(s);
      EachFollows(s, s, call, nonces, ActionsOf(s, nonces), Initial(s));
    }
  }

  /** Both ways of executing a list of entries accept it or refuse it alike, and leave the
      same state. */
  ghost predicate Agree(s: State, call: Call, nonces: seq<nat>) {
    && (ExecuteBatch(s, call, nonces).Ok? <==> ExecuteEach(s, call, nonces).Ok?)
    && (ExecuteBatch(s, call, nonces).Ok? ==> ExecuteBatch(s, call, nonces) == ExecuteEach(s, call, nonces))
  }

  /** A batch does what one-by-one execution does exactly if, for a list that is ready and
      applicable, upgrades having their quorum before the batch and authority lasting through
      it come to the same. An empty batch still insists on the admin. */
  lemma BatchAgreesExactly(s: State, call: Call, nonces: seq<nat>)
    requires Multisig.ValidGroup(s.multisig)
    ensures Agree(s, call, nonces) <==>
              if nonces == [] then GuardError(s, call) == None
              else
                GuardError(s, call) == None && Ready(s, call, nonces)
                && Applicable(s, ActionsOf(s, nonces), Initial(s)) ==>
                  (InitiallyQuorate(s, ActionsOf(s, nonces)) <==>
                   StaysAuthorized(s, call, ActionsOf(s, nonces), Initial(s)))
  {
    if nonces != [] {
      BatchAcceptedExactly(s, call, nonces);
      EachAcceptedExactly(s, call, nonces);
    }
  }

  /** For a batch that goes through, one-by-one execution goes through exactly when authority
      lasts for the whole list, and then both end in the same state. */
  lemma OneByOneNeedsLastingAuthority(s: State, call: Call, nonces: seq<nat>)
    requires nonces != [] && ExecuteBatch(s, call, nonces).Ok? && Multisig.ValidGroup(s.multisig)
    ensures forall n :: n in nonces ==> n in s.entries
    ensures ExecuteEach(s, call, nonces).Ok? <==> StaysAuthorized(s, call, ActionsOf(s, nonces), Initial(s))
    ensures ExecuteEach(s, call, nonces).Ok? ==> ExecuteEach(s, call, nonces) == ExecuteBatch(s, call, nonces)
  {
    BatchAcceptedExactly(s, call, nonces);
    EachAcceptedExactly(s, call, nonces);
  }

  /** For a list that goes through one by one, the batch goes through exactly when every
      upgrade has a quorum of the group in force before the batch, and then both end in the
      same state. */
  lemma BatchNeedsInitialQuorums(s: State, call: Call, nonces: seq<nat>)
    requires nonces != [] && ExecuteEach(s, call, nonces).Ok? && Multisig.ValidGroup(s.multisig)
    ensures forall n :: n in nonces ==> n in s.entries
    ensures ExecuteBatch(s, call, nonces).Ok? <==> InitiallyQuorate(s, ActionsOf(s, nonces))
    ensures ExecuteBatch(s, call, nonces).Ok? ==> ExecuteBatch(s, call, nonces) == ExecuteEach(s, call, nonces)
  {
    BatchAcceptedExactly(s, call, nonces);
    EachAcceptedExactly(s, call, nonces);
  }

  ghost predicate ReadyPair(s: State, call: Call, m: nat, n: nat, a: Action, b: Action) {
    && GuardError(s, call) == None && m != n
    && EntryError(s, call, m) == None && s.entries[m].action == a
    && EntryError(s, call, n) == None && s.entries[n].action == b
  }

  lemma PairRuns(s: State, call: Call, m: nat, n: nat, a: Action, b: Action)
    requires ReadyPair(s, call, m, n, a, b)
    ensures ExecuteBatch(s, call, [m, n]) ==
              match Fire(s, call.now, m, a) { case Err(e) => Err(e) case Ok(t) => Fire(t, call.now, n, b) }
    ensures ExecuteEach(s, call, [m, n]) ==
              match Fire(s, call.now, m, a) { case Err(e) => Err(e) case Ok(t) => ExecuteAction(t, call, n) }
  {
    var nonces := [m, n];
    var actions := ActionsOf(s, nonces);
    assert nonces[1..] == [n] && actions == [a, b] && actions[1..] == [b];
    SingleRuns(s, call, n, b);
    assert CheckAll(s, call, nonces) == CheckAll(s, call, nonces[1..]);
    if Fire(s, call.now, m, a).Ok? {
      SingleRuns(Fire(s, call.now, m, a).value, call, n, b);
    }
  }

  lemma SingleRuns(s: State, call: Call, n: nat, b: Action)
    ensures CheckAll(s, call, [n]) == EntryError(s, call, n)
    ensures FireAll(s, call.now, [n], [b]) == Fire(s, call.now, n, b)
    ensures ExecuteEach(s, call, [n]) == ExecuteAction(s, call, n)
  {
    assert [n][1..] == [] && [b][1..] == [];
    assert CheckAll(s, call, [n][1..]) == None;
    if Fire(s, call.now, n, b).Ok? {
      var t := Fire(s, call.now, n, b).value;
      assert FireAll(t, call.now, [n][1..], [b][1..]) == Ok(t);
    }
    if ExecuteAction(s, call, n).Ok? {
      var t := ExecuteAction(s, call, n).value;
      assert ExecuteEach(t, call, [n][1..]) == Ok(t);
    }
  }

  /** Handing the admin seat to somebody who has not signed stops one-by-one execution, but
      not the rest of a batch. */
  lemma BatchOutlivesHandover(s: State, call: Call, m: nat, n: nat, heir: Address, limit: int)
    requires ReadyPair(s, call, m, n, TransferAdmin(heir), SetMinLimit(limit)) && heir !in call.signers
    ensures ExecuteBatch(s, call, [m, n]).Ok?
    ensures ExecuteEach(s, call, [m, n]) == Err(NotAuthorized)
  {
    PairRuns(s, call, m, n, TransferAdmin(heir), SetMinLimit(limit));
  }

  /** One quorum carries one upgrade, but a batch holding the same hash twice installs it
      twice on a single quorum. */
  lemma BatchReusesQuorum(s: State, call: Call, m: nat, n: nat, hash: Multisig.Hash)
    requires ReadyPair(s, call, m, n, Upgrade(hash), Upgrade(hash)) && Multisig.ValidGroup(s.multisig)
    ensures ExecuteBatch(s, call, [m, n]).Ok?
    ensures ExecuteBatch(s, call, [m, n]).value.multisig.installed == s.multisig.installed + [hash, hash]
    ensures ExecuteEach(s, call, [m, n]) == Err(OfMultisig(Multisig.InsufficientApprovals))
  {
    PairRuns(s, call, m, n, Upgrade(hash), Upgrade(hash));
    var t := Fire(s, call.now, m, Upgrade(hash)).value;
    assert Multisig.Approvals(t.multisig.upgradeApprovals, hash) == [];
    assert (s.multisig.installed + [hash]) + [hash] == s.multisig.installed + [hash, hash];
  }

  /** After a rotation inside a batch, an upgrade still rides on the quorum of the old group. */
  lemma BatchIgnoresRotation(
    s: State, call: Call, m: nat, n: nat, signers: seq<Address>, threshold: nat, hash: Multisig.Hash)
    requires ReadyPair(s, call, m, n, SetMultisigConfig(signers, threshold), Upgrade(hash))
    requires Multisig.StoreConfig(s.multisig, signers, threshold).Ok?
    requires QuorumOf(s, Multisig.ConfigKey(signers, threshold), hash) < threshold
    ensures ExecuteBatch(s, call, [m, n]).Ok?
    ensures ExecuteEach(s, call, [m, n]) == Err(OfMultisig(Multisig.InsufficientApprovals))
  {
    PairRuns(s, call, m, n, SetMultisigConfig(signers, threshold), Upgrade(hash));
  }

  /** The other way round: an upgrade that only the new group supports goes through one by
      one, after the rotation, while the batch is refused for want of the old quorum. */
  lemma BatchRefusesNewQuorum(
    s: State, call: Call, m: nat, n: nat, signers: seq<Address>, threshold: nat, hash: Multisig.Hash)
    requires GuardError(s, call) == None && Ready(s, call, [m, n]) && Multisig.ValidGroup(s.multisig)
    requires s.entries[m].action == SetMultisigConfig(signers, threshold) && s.entries[n].action == Upgrade(hash)
    requires Multisig.StoreConfig(s.multisig, signers, threshold).Ok?
    requires QuorumOf(s, Multisig.ConfigKey(signers, threshold), hash) >= threshold
    requires !Quorate(s, Initial(s), hash)
    ensures ExecuteBatch(s, call, [m, n]).Err?
    ensures ExecuteEach(s, call, [m, n]).Ok?
    ensures ExecuteEach(s, call, [m, n]).value.multisig.installed == s.multisig.installed + [hash]
  {
    assert m in [m, n] && n in [m, n] && [m, n][0] != [m, n][1];
    var t := Fire(s, call.now, m, SetMultisigConfig(signers, threshold)).value;
    assert ExecuteAction(s, call, m) == Ok(t);
    assert [m, n][1..] == [n];
    SingleRuns(t, call, n, Upgrade(hash));
    BatchAcceptedExactly(s, call, [m, n]);
    assert ActionsOf(s, [m, n])[1] == Upgrade(hash);
  }

  // ---------- runs ----------

  /** Everything else that the contract does leaves the queue alone. */
  datatype Op =
    | OpQueue(action: Action)
    | OpExecute(nonce: nat)
    | OpExecuteBatch(nonces: seq<nat>)
    | OpCancel(nonce: nat)
    | OpElsewhere(frozen: bool, halted: bool, settings: Settings, roles: Roles.State, multisig: Multisig.State)

  datatype Event =
    | Queued(nonce: nat, at: int, action: Action)
    | TookEffect(nonce: nat, at: int, action: Action)
    | Cancelled(nonce: nat)

  function Apply(s: State, call: Call, op: Op): Result<State, Error> {
    match op
    case OpQueue(action) => QueueAction(s, call, action)
    case OpExecute(nonce) => ExecuteAction(s, call, nonce)
    case OpExecuteBatch(nonces) => ExecuteBatch(s, call, nonces)
    case OpCancel(nonce) => CancelAction(s, call, nonce)
    case OpElsewhere(frozen, halted, settings, roles, multisig) =>
      Ok(State(frozen, halted, s.nextNonce, s.entries, settings, roles, multisig))
  }

  function TookEffects(s: State, now: int, nonces: seq<nat>): seq<Event> {
    if nonces == [] then []
    else
      (if nonces[0] in s.entries then [TookEffect(nonces[0], now, s.entries[nonces[0]].action)] else [])
      + TookEffects(s, now, nonces[1..])
  }

  /** What an accepted operation adds to the history. */
  function Events(s: State, call: Call, op: Op): seq<Event> {
    match op
    case OpQueue(action) => [Queued(s.nextNonce + 1, call.now, action)]
    case OpExecute(nonce) => TookEffects(s, call.now, [nonce])
    case OpExecuteBatch(nonces) => TookEffects(s, call.now, nonces)
    case OpCancel(nonce) => [Cancelled(nonce)]
    case _ => []
  }

  function Run(start: State, calls: seq<(Call, Op)>): (State, seq<Event>) {
    if calls == [] then (start, [])
    else
      var (s, history) := Run(start, calls[..|calls| - 1]);
      var (call, op) := calls[|calls| - 1];
      match Apply(s, call, op)
      case Ok(t) => (t, history + Events(s, call, op))
      case Err(_) => (s, history)
  }

  predicate Closes(e: Event, nonce: nat) {
    (e.TookEffect? || e.Cancelled?) && e.nonce == nonce
  }

  /** An entry took effect only after it had been queued for 24 hours. */
  ghost predicate WasDue(history: seq<Event>, i: nat)
    requires i < |history| && history[i].TookEffect?
  {
    exists j :: 0 <= j < i
      && history[j].Queued? && history[j].nonce == history[i].nonce && history[j].action == history[i].action
      && history[i].at >= history[j].at + SECONDS_IN_24H
  }

  /** Entries take effect only when due, and no entry is executed or cancelled twice, or
      executed after a cancellation, or the other way round. */
  ghost predicate Orderly(history: seq<Event>) {
    && (forall i :: 0 <= i < |history| && history[i].TookEffect? ==> WasDue(history, i))
    && (forall i, j :: 0 <= i < j < |history| && Closes(history[i], history[i].nonce) ==>
          !Closes(history[j], history[i].nonce))
  }

  /** How the queue mirrors the history: a pending entry has been queued and not closed. */
  ghost predicate Mirrors(s: State, history: seq<Event>) {
    && (forall i :: 0 <= i < |history| ==> history[i].nonce <= s.nextNonce)
    && (forall n :: n in s.entries ==>
          n <= s.nextNonce && Queued(n, s.entries[n].queuedAt, s.entries[n].action) in history)
    && (forall i :: 0 <= i < |history| && Closes(history[i], history[i].nonce) ==> history[i].nonce !in s.entries)
  }

  /** Closing one pending entry that is due keeps the history orderly. */
  lemma CloseOne(s: State, t: State, history: seq<Event>, e: Event)
    requires Mirrors(s, history) && Orderly(history)
    requires Closes(e, e.nonce) && e.nonce in s.entries
    requires e.TookEffect? ==>
               e.action == s.entries[e.nonce].action && e.at >= s.entries[e.nonce].queuedAt + SECONDS_IN_24H
    requires t.entries == s.entries - {e.nonce} && t.nextNonce == s.nextNonce
    ensures Mirrors(t, history + [e]) && Orderly(history + [e])
  {
    var longer := history + [e];
    var queued := Queued(e.nonce, s.entries[e.nonce].queuedAt, s.entries[e.nonce].action);
    assert queued in history;
    forall i | 0 <= i < |longer| && longer[i].TookEffect? ensures WasDue(longer, i) {
      if i < |history| {
        assert WasDue(history, i);
        var j :| 0 <= j < i
          && history[j].Queued? && history[j].nonce == history[i].nonce && history[j].action == history[i].action
          && history[i].at >= history[j].at + SECONDS_IN_24H;
        assert longer[j] == history[j];
      } else {
        var j :| 0 <= j < |history| && history[j] == queued;
        assert longer[j] == queued;
      }
    }
    forall n | n in t.entries ensures Queued(n, t.entries[n].queuedAt, t.entries[n].action) in longer {
      assert Queued(n, s.entries[n].queuedAt, s.entries[n].action) in history;
    }
  }

  lemma {:induction false} CloseMany(s: State, t: State, history: seq<Event>, now: int, nonces: seq<nat>)
    requires Mirrors(s, history) && Orderly(history) && Distinct(nonces)
    requires forall i :: 0 <= i < |nonces| ==>
               nonces[i] in s.entries && now >= s.entries[nonces[i]].queuedAt + SECONDS_IN_24H
    requires t.entries == s.entries - (set n | n in nonces) && t.nextNonce == s.nextNonce
    ensures Mirrors(t, history + TookEffects(s, now, nonces)) && Orderly(history + TookEffects(s, now, nonces))
    decreases |nonces|
  {
    if nonces == [] {
      assert history + [] == history;
      assert s.entries - (set n | n in nonces) == s.entries;
    } else {
      hide Mirrors, Orderly;
      var e := TookEffect(nonces[0], now, s.entries[nonces[0]].action);
      var u := s.(entries := s.entries - {nonces[0]});
      CloseOne(s, u, history, e);
      assert t.entries == u.entries - (set n | n in nonces[1..]);
      assert forall i :: 0 <= i < |nonces[1..]| ==> nonces[1..][i] == nonces[i + 1];
      CloseMany(u, t, history + [e], now, nonces[1..]);
      TookEffectsFrame(s, u, now, nonces[1..]);
      assert history + TookEffects(s, now, nonces) == (history + [e]) + TookEffects(u, now, nonces[1..]);
    }
  }

  lemma {:induction false} TookEffectsFrame(s: State, u: State, now: int, nonces: seq<nat>)
    requires forall n :: n in nonces ==> n in s.entries && n in u.entries && u.entries[n] == s.entries[n]
    ensures TookEffects(s, now, nonces) == TookEffects(u, now, nonces)
  {
    if nonces != [] {
      TookEffectsFrame(s, u, now, nonces[1..]);
    }
  }

  lemma {:induction false} FireAllFrame(s: State, now: int, nonces: seq<nat>, actions: seq<Action>)
    requires |nonces| == |actions| && FireAll(s, now, nonces, actions).Ok?
    ensures var t := FireAll(s, now, nonces, actions).value;
            t.nextNonce == s.nextNonce && t.entries == s.entries - (set n | n in nonces)
    decreases |nonces|
  {
    if nonces != [] {
      var t := Fire(s, now, nonces[0], actions[0]).value;
      FireFrame(s, now, nonces[0], actions[0]);
      FireAllFrame(t, now, nonces[1..], actions[1..]);
      assert (set n | n in nonces) == {nonces[0]} + (set n | n in nonces[1..]);
    } else {
      assert s.entries - (set n | n in nonces) == s.entries;
    }
  }

  lemma QueueOne(s: State, t: State, history: seq<Event>, e: Event)
    requires Mirrors(s, history) && Orderly(history)
    requires e.Queued? && e.nonce == s.nextNonce + 1
    requires t.nextNonce == e.nonce && t.entries == s.entries[e.nonce := Entry(e.at, e.action)]
    ensures Mirrors(t, history + [e]) && Orderly(history + [e])
  {
    var longer := history + [e];
    assert longer[|history|] == e;
    forall i | 0 <= i < |longer| && longer[i].TookEffect? ensures WasDue(longer, i) {
      assert WasDue(history, i);
      var j :| 0 <= j < i
        && history[j].Queued? && history[j].nonce == history[i].nonce && history[j].action == history[i].action
        && history[i].at >= history[j].at + SECONDS_IN_24H;
      assert longer[j] == history[j];
    }
    forall n | n in t.entries ensures Queued(n, t.entries[n].queuedAt, t.entries[n].action) in longer {
      if n != e.nonce {
        assert Queued(n, s.entries[n].queuedAt, s.entries[n].action) in history;
      }
    }
  }

  lemma StepOrderly(s: State, t: State, history: seq<Event>, call: Call, op: Op)
    requires Mirrors(s, history) && Orderly(history) && Apply(s, call, op) == Ok(t)
    ensures Mirrors(t, history + Events(s, call, op)) && Orderly(history + Events(s, call, op))
  {
    match op {
      case OpQueue(action) =>
        QueueOne(s, t, history, Queued(s.nextNonce + 1, call.now, action));
      case OpExecute(nonce) =>
        FireFrame(s, call.now, nonce, s.entries[nonce].action);
        CloseMany(s, t, history, call.now, [nonce]);
      case OpExecuteBatch(nonces) =>
        if nonces == [] {
          assert history + [] == history;
        } else {
          CheckedAreQueued(s, call, nonces);
          FireAllFrame(s, call.now, nonces, ActionsOf(s, nonces));
          CloseMany(s, t, history, call.now, nonces);
        }
      case OpCancel(nonce) =>
        CloseOne(s, t, history, Cancelled(nonce));
      case OpElsewhere(_, _, _, _, _) =>
        assert history + [] == history;
    }
  }

  /** Over every run, whatever else the contract does in between: no queued action takes
      effect before its 24 hours are over, more than once, or after its cancellation. */
  lemma {:induction false} RunIsOrderly(start: State, calls: seq<(Call, Op)>)
    requires start.entries == map[]
    ensures Mirrors(Run(start, calls).0, Run(start, calls).1)
    ensures Orderly(Run(start, calls).1)
  {
    if calls != [] {
      var n := |calls| - 1;
      RunIsOrderly(start, calls[..n]);
      var (s, history) := Run(start, calls[..n]);
      var (call, op) := calls[n];
      if Apply(s, call, op).Ok? {
        StepOrderly(s, Apply(s, call, op).value, history, call, op);
      }
    }
  }

  // ---------- the contract on stored fields ----------

  class Router {
    var frozen: bool
    var halted: bool
    var nextNonce: nat
    var entries: map<nat, Entry>
    var settings: Settings
    var roles: Roles.State
    var multisig: Multisig.State

    ghost function Now(): State
      reads this
    {
      State(frozen, halted, nextNonce, entries, settings, roles, multisig)
    }

    constructor (start: State)
      ensures Now() == start
    {
      frozen, halted, nextNonce, entries := start.frozen, start.halted, start.nextNonce, start.entries;
      settings, roles, multisig := start.settings, start.roles, start.multisig;
    }

    method CheckGuard(call: Call) returns (e: Option<Error>)
      ensures e == GuardError(Now(), call)
    {
      if frozen {
        return Some(ContractFrozen);
      }
      if halted {
        return Some(Paused);
      }
      if roles.admin == None {
        return Some(NotInitialized);
      }
      if roles.admin.value !in call.signers {
        return Some(NotAuthorized);
      }
      return None;
    }

    method Queue(call: Call, action: Action) returns (r: Result<nat, Error>)
      modifies this
      ensures Performed(QueueAction(old(Now()), call, action), old(Now()), Now(),
                        if r.Ok? then Ok(()) else Err(r.error))
      ensures r.Ok? ==> r.value == old(nextNonce) + 1 && entries[r.value] == Entry(call.now, action)
    {
      var e := CheckGuard(call);
      if e.Some? {
        return Err(e.value);
      }
      nextNonce := nextNonce + 1;
      entries := entries[nextNonce := Entry(call.now, action)];
      return Ok(nextNonce);
    }

    /** Writes the change that an action describes. */
    method ApplyChange(now: int, action: Action) returns (r: Result<(), Error>)
      modifies this`settings, this`roles, this`multisig
      ensures Performed(ApplyAction(old(Now()), now, action), old(Now()), Now(), r)
    {
      match action {
        case SetPlatformTreasury(treasury) => settings := settings.(treasury := Some(treasury));
        case SetFeeConfig(feeBps, feeCap) => settings := settings.(feeBps := feeBps, feeCap := feeCap);
        case SetFeeBps(newFeeBps) => settings := settings.(feeBps := newFeeBps);
        case SetGovernance(governance) => settings := settings.(governance := Some(governance));
        case SetMinLimit(minLimit) => settings := settings.(minLimit := minLimit);
        case TransferAdmin(newAdmin) => roles := Roles.SeatAdmin(roles, newAdmin);
        case SetBackupAdmin(backup, timeoutSeconds) =>
          var armed := Roles.ArmSwitch(roles, now, backup, timeoutSeconds);
          if armed.Err? {
            return Err(OfRoles(armed.error));
          }
          roles := armed.value;
        case Upgrade(hash) => multisig := Multisig.Install(multisig, hash);
        case SetMultisigConfig(signers, threshold) =>
          var stored := Multisig.StoreConfig(multisig, signers, threshold);
          if stored.Err? {
            return Err(OfMultisig(stored.error));
          }
          multisig := stored.value;
        case RegisterDex(dex) => settings := settings.(dexes := settings.dexes + {dex});
        case DeregisterDex(dex) => settings := settings.(dexes := settings.dexes - {dex});
        case SetMaxSlippageBps(slippageBps) => settings := settings.(maxSlippageBps := slippageBps);
        case SetPairMaxSlippageBps(tokenIn, tokenOut, pairBps) =>
          settings := settings.(pairSlippage := settings.pairSlippage[(tokenIn, tokenOut) := pairBps]);
      }
      return Ok(());
    }

    method CheckEntry(call: Call, nonce: nat) returns (e: Option<Error>)
      ensures e == EntryError(Now(), call, nonce)
    {
      if nonce !in entries {
        return Some(TimelockNotFound);
      }
      if call.now < entries[nonce].queuedAt + SECONDS_IN_24H {
        return Some(TimelockNotReady);
      }
      return ActionError(State(frozen, halted, nextNonce, entries, settings, roles, multisig), entries[nonce].action);
    }

    method Execute(call: Call, nonce: nat) returns (r: Result<(), Error>)
      modifies this
      ensures Performed(ExecuteAction(old(Now()), call, nonce), old(Now()), Now(), r)
    {
      var e := CheckGuard(call);
      if e.Some? {
        return Err(e.value);
      }
      e := CheckEntry(call, nonce);
      if e.Some? {
        return Err(e.value);
      }
      var action := entries[nonce].action;
      var saved := entries;
      entries := entries - {nonce};
      r := ApplyChange(call.now, action);
      if r.Err? {
        entries := saved;  // the host discards the writes of a failed call
      }
    }

    method AreDistinct(nonces: seq<nat>) returns (distinct: bool)
      ensures distinct == Distinct(nonces)
    {
      for i := 0 to |nonces|
        invariant forall a, b :: 0 <= a < i && a < b < |nonces| ==> nonces[a] != nonces[b]
      {
        for j := i + 1 to |nonces|
          invariant forall b :: i < b < j ==> nonces[i] != nonces[b]
        {
          if nonces[i] == nonces[j] {
            return false;
          }
        }
      }
      return true;
    }

    /** Phase one of a batch: collect the actions of entries that are all ready. */
    method CollectReady(call: Call, nonces: seq<nat>) returns (r: Result<seq<Action>, Error>)
      ensures r.Err? <==> CheckAll(Now(), call, nonces).Some?
      ensures r.Err? ==> CheckAll(Now(), call, nonces) == Some(r.error)
      ensures r.Ok? ==> (forall n :: n in nonces ==> n in entries) && r.value == ActionsOf(Now(), nonces)
    {
      var actions: seq<Action> := [];
      var i := 0;
      assert nonces[0..] == nonces;
      while i < |nonces|
        invariant 0 <= i <= |nonces| && |actions| == i
        invariant CheckAll(Now(), call, nonces[i..]) == CheckAll(Now(), call, nonces)
        invariant forall k :: 0 <= k < i ==> nonces[k] in entries && actions[k] == entries[nonces[k]].action
      {
        assert nonces[i..][0] == nonces[i] && nonces[i..][1..] == nonces[i + 1..];
        var e := CheckEntry(call, nonces[i]);
        if e.Some? {
          return Err(e.value);
        }
        actions := actions + [entries[nonces[i]].action];
        i := i + 1;
      }
      return Ok(actions);
    }

    /** Phase two of a batch: fire the collected actions in order. */
    method FireCollected(now: int, nonces: seq<nat>, actions: seq<Action>) returns (r: Result<(), Error>)
      requires |nonces| == |actions|
      modifies this
      ensures Performed(FireAll(old(Now()), now, nonces, actions), old(Now()), Now(), r)
    {
      var savedEntries, savedSettings, savedRoles, savedMultisig := entries, settings, roles, multisig;
      var i := 0;
      assert nonces[0..] == nonces && actions[0..] == actions;
      while i < |nonces|
        invariant 0 <= i <= |nonces|
        invariant frozen == old(frozen) && halted == old(halted) && nextNonce == old(nextNonce)
        invariant FireAll(Now(), now, nonces[i..], actions[i..]) == FireAll(old(Now()), now, nonces, actions)
      {
        assert nonces[i..][0] == nonces[i] && nonces[i..][1..] == nonces[i + 1..];
        assert actions[i..][0] == actions[i] && actions[i..][1..] == actions[i + 1..];
        entries := entries - {nonces[i]};
        var applied := ApplyChange(now, actions[i]);
        if applied.Err? {
          // the host discards the writes of a failed call
          entries, settings, roles, multisig := savedEntries, savedSettings, savedRoles, savedMultisig;
          return applied;
        }
        i := i + 1;
      }
      return Ok(());
    }

    method ExecuteBatchActions(call: Call, nonces: seq<nat>) returns (r: Result<(), Error>)
      modifies this
      ensures Performed(ExecuteBatch(old(Now()), call, nonces), old(Now()), Now(), r)
    {
      var e := CheckGuard(call);
      if e.Some? {
        return Err(e.value);
      }
      if |nonces| == 0 {
        return Ok(());
      }
      var distinct := AreDistinct(nonces);
      if !distinct {
        return Err(TimelockNotFound);
      }
      var collected := CollectReady(call, nonces);
      if collected.Err? {
        return Err(collected.error);
      }
      r := FireCollected(call.now, nonces, collected.value);
    }

    method Cancel(call: Call, nonce: nat) returns (r: Result<(), Error>)
      modifies this
      ensures Performed(CancelAction(old(Now()), call, nonce), old(Now()), Now(), r)
    {
      if roles.admin == None {
        return Err(NotInitialized);
      }
      if roles.admin.value !in call.signers {
        return Err(NotAuthorized);
      }
      if nonce !in entries {
        return Err(TimelockNotFound);
      }
      entries := entries - {nonce};
      return Ok(());
    }
  }
}
