/** What executed timelock actions write: every setting by name, after one execution and
    after a batch. */
module TimelockEffects {
  import opened ByteOrder
  import opened Timelock
  import opened Wrappers
  import Multisig
  import Roles

  /** The values that actions can write. */
  datatype Key =
    | Treasury
    | FeeRate
    | FeeLimit
    | Governor
    | SmallestAmount
    | Slippage
    | PairSlippage(tokenIn: Address, tokenOut: Address)
    | Registered(dex: Address)
    | AdminSeat
    | Designee(role: Roles.Role)
    | Backup
    | BackupTimeout
    | Heartbeat
    | SignerGroup
    | NewestCode

  datatype Value =
    | Account(account: Option<Address>)
    | Number(number: int)
    | Maybe(maybe: Option<int>)
    | Flag(flag: bool)
    | Signers(group: Option<Multisig.Group>)
    | Code(hash: Option<Multisig.Hash>)

  function Read(s: State, key: Key): Value {
    match key
    case Treasury => Account(s.settings.treasury)
    case FeeRate => Number(s.settings.feeBps)
    case FeeLimit => Number(s.settings.feeCap)
    case Governor => Account(s.settings.governance)
    case SmallestAmount => Number(s.settings.minLimit)
    case Slippage => Number(s.settings.maxSlippageBps)
    case PairSlippage(a, b) =>
      Maybe(if (a, b) in s.settings.pairSlippage then Some(s.settings.pairSlippage[(a, b)]) else None)
    case Registered(dex) => Flag(dex in s.settings.dexes)
    case AdminSeat => Account(s.roles.admin)
    case Designee(role) => Account(if role in s.roles.designated then Some(s.roles.designated[role]) else None)
    case Backup => Account(s.roles.backupAdmin)
    case BackupTimeout => Maybe(s.roles.dmsTimeout)
    case Heartbeat => Maybe(s.roles.lastHeartbeat)
    case SignerGroup => Signers(s.multisig.group)
    case NewestCode =>
      Code(if s.multisig.installed == [] then None else Some(s.multisig.installed[|s.multisig.installed| - 1]))
  }

  /** What an action executed at `now` writes under a key, if it names it. */
  function Written(action: Action, now: int, key: Key): Option<Value> {
    match key
    case Treasury => if action.SetPlatformTreasury? then Some(Account(Some(action.treasury))) else None
    case FeeRate =>
      if action.SetFeeConfig? then Some(Number(action.feeBps))
      else if action.SetFeeBps? then Some(Number(action.newFeeBps))
      else None
    case FeeLimit => if action.SetFeeConfig? then Some(Number(action.feeCap)) else None
    case Governor => if action.SetGovernance? then Some(Account(Some(action.governance))) else None
    case SmallestAmount => if action.SetMinLimit? then Some(Number(action.minLimit)) else None
    case Slippage => if action.SetMaxSlippageBps? then Some(Number(action.slippageBps)) else None
    case PairSlippage(a, b) =>
      if action.SetPairMaxSlippageBps? && action.tokenIn == a && action.tokenOut == b then
        Some(Maybe(Some(action.pairBps)))
      else None
    case Registered(dex) =>
      if action.RegisterDex? && action.dex == dex then Some(Flag(true))
      else if action.DeregisterDex? && action.dex == dex then Some(Flag(false))
      else None
    case AdminSeat => if action.TransferAdmin? then Some(Account(Some(action.newAdmin))) else None
    case Designee(role) =>
      if action.TransferAdmin? && role == Roles.SuperAdmin then Some(Account(Some(action.newAdmin))) else None
    case Backup => if action.SetBackupAdmin? then Some(Account(Some(action.backup))) else None
    case BackupTimeout => if action.SetBackupAdmin? then Some(Maybe(Some(action.timeoutSeconds))) else None
    case Heartbeat => if action.SetBackupAdmin? then Some(Maybe(Some(now))) else None
    case SignerGroup =>
      if action.SetMultisigConfig? then Some(Signers(Some(Multisig.Group(Sort(action.signers), action.threshold))))
      else None
    case NewestCode => if action.Upgrade? then Some(Code(Some(action.hash))) else None
  }

  /** What an action needs beside the delay: a quorum for code and for a group, a longer
      timeout than a week for a backup other than the admin, a pair ceiling up to five
      percent. */
  predicate Permitted(s: State, action: Action) {
    match action
    case Upgrade(hash) => Multisig.Upgrade(s.multisig, hash).Ok?
    case SetMultisigConfig(signers, threshold) => Multisig.StoreConfig(s.multisig, signers, threshold).Ok?
    case SetBackupAdmin(backup, timeout) => timeout >= 604_800 && s.roles.admin.Some? && backup != s.roles.admin.value
    case SetPairMaxSlippageBps(_, _, bps) => 0 <= bps <= 500
    case _ => true
  }

  /** An entry is executed exactly if the contract is open, the admin signs, the entry is
      there and a day old, and its action is permitted. */
  lemma ExecutesExactly(s: State, call: Call, nonce: nat)
    ensures ExecuteAction(s, call, nonce).Ok? <==>
              && !s.frozen && !s.halted && s.roles.admin.Some? && s.roles.admin.value in call.signers
              && nonce in s.entries && call.now >= s.entries[nonce].queuedAt + 86_400
              && Permitted(s, s.entries[nonce].action)
  {
  }

  /** `t` holds under the key what the action names for it, or what `s` held. */
  ghost predicate Writes(s: State, t: State, now: int, action: Action, key: Key) {
    Read(t, key) == if Written(action, now, key).Some? then Written(action, now, key).value else Read(s, key)
  }

  lemma SettingsWritten(s: State, now: int, nonce: nat, action: Action, key: Key)
    requires Fire(s, now, nonce, action).Ok?
    requires !action.TransferAdmin? && !action.SetBackupAdmin? && !action.Upgrade? && !action.SetMultisigConfig?
    ensures Writes(s, Fire(s, now, nonce, action).value, now, action, key)
  {
    hide Sort, Multisig.StoreConfig, Multisig.Install, Roles.SeatAdmin, Roles.ArmSwitch;
  }

  lemma RolesWritten(s: State, now: int, nonce: nat, action: Action, key: Key)
    requires Fire(s, now, nonce, action).Ok? && (action.TransferAdmin? || action.SetBackupAdmin?)
    ensures Writes(s, Fire(s, now, nonce, action).value, now, action, key)
  {
    hide Sort, Multisig.StoreConfig, Multisig.Install;
  }

  lemma MultisigWritten(s: State, now: int, nonce: nat, action: Action, key: Key)
    requires Fire(s, now, nonce, action).Ok? && (action.Upgrade? || action.SetMultisigConfig?)
    ensures Writes(s, Fire(s, now, nonce, action).value, now, action, key)
  {
    hide Sort, Roles.SeatAdmin, Roles.ArmSwitch;
  }

  lemma FireWrites(s: State, now: int, nonce: nat, action: Action, key: Key)
    requires Fire(s, now, nonce, action).Ok?
    ensures Writes(s, Fire(s, now, nonce, action).value, now, action, key)
  {
    hide Fire, Writes;
    if action.Upgrade? || action.SetMultisigConfig? {
      MultisigWritten(s, now, nonce, action, key);
    } else if action.TransferAdmin? || action.SetBackupAdmin? {
      RolesWritten(s, now, nonce, action, key);
    } else {
      SettingsWritten(s, now, nonce, action, key);
    }
  }

  /** An executed action leaves under every key the argument that it names for it, or what
      was there, and takes its own entry and nothing else out of the queue. */
  lemma ExecutionWrites(s: State, call: Call, nonce: nat, key: Key)
    requires ExecuteAction(s, call, nonce).Ok?
    ensures var t := ExecuteAction(s, call, nonce).value;
            var action := s.entries[nonce].action;
            && t == s.(entries := s.entries - {nonce}, settings := t.settings, roles := t.roles, multisig := t.multisig)
            && Writes(s, t, call.now, action, key)
            && (action.TransferAdmin? ==>
                  Roles.Apply(s.roles, call.signers, call.now, Roles.OpTimelockedTransferAdmin(action.newAdmin))
                  == Ok(t.roles))
  {
    FireWrites(s, call.now, nonce, s.entries[nonce].action, key);
  }

  /** The admin, of an open contract, may queue anything, under the next nonce and at the
      current time; and cancel any entry, also of a contract that is not open. */
  lemma QueuesAndCancelsExactly(s: State, call: Call, action: Action, nonce: nat)
    ensures var signed := s.roles.admin.Some? && s.roles.admin.value in call.signers;
            && (QueueAction(s, call, action).Ok? <==> signed && !s.frozen && !s.halted)
            && (QueueAction(s, call, action).Ok? ==>
                  QueueAction(s, call, action).value ==
                  s.(nextNonce := s.nextNonce + 1,
                     entries := s.entries[s.nextNonce + 1 := Entry(call.now, action)]))
            && (CancelAction(s, call, nonce).Ok? <==> signed && nonce in s.entries)
            && (CancelAction(s, call, nonce).Ok? ==>
                  CancelAction(s, call, nonce).value == s.(entries := s.entries - {nonce}))
  {
  }

  lemma {:induction false} FireAllWrites(s: State, now: int, nonces: seq<nat>, actions: seq<Action>, key: Key)
    requires |nonces| == |actions| && FireAll(s, now, nonces, actions).Ok?
    ensures var t := FireAll(s, now, nonces, actions).value;
            && ((forall i :: 0 <= i < |actions| ==> Written(actions[i], now, key) == None) ==>
                  Read(t, key) == Read(s, key))
            && forall i :: IsLastWriter(actions, now, key, i) ==> Read(t, key) == Written(actions[i], now, key).value
    decreases |nonces|
  {
    if nonces != [] {
      var t := Fire(s, now, nonces[0], actions[0]).value;
      FireWrites(s, now, nonces[0], actions[0], key);
      var rest := actions[1..];
      FireAllWrites(t, now, nonces[1..], rest, key);
      hide Fire, Read, Written;
      assert forall i :: 0 <= i < |rest| ==> rest[i] == actions[i + 1];
      forall i | IsLastWriter(actions, now, key, i)
        ensures Read(FireAll(s, now, nonces, actions).value, key) == Written(actions[i], now, key).value
      {
        if i > 0 {
          assert IsLastWriter(rest, now, key, i - 1);
        } else {
          assert forall j :: 0 <= j < |rest| ==> Written(rest[j], now, key) == None;
        }
      }
    }
  }

  /** Action `i` of the list names the key, and none after it does. */
  ghost predicate IsLastWriter(actions: seq<Action>, now: int, key: Key, i: int) {
    && 0 <= i < |actions| && Written(actions[i], now, key).Some?
    && forall j :: i < j < |actions| ==> Written(actions[j], now, key) == None
  }

  /** After an accepted batch every key holds what the last action in the list that names it
      says, or else what was there. */
  lemma BatchWrites(s: State, call: Call, nonces: seq<nat>, key: Key)
    requires nonces != [] && ExecuteBatch(s, call, nonces).Ok?
    ensures forall n :: n in nonces ==> n in s.entries
    ensures var t := ExecuteBatch(s, call, nonces).value;
            var actions := ActionsOf(s, nonces);
            && ((forall i :: 0 <= i < |actions| ==> Written(actions[i], call.now, key) == None) ==>
                  Read(t, key) == Read(s, key))
            && forall i :: IsLastWriter(actions, call.now, key, i) ==>
                 Read(t, key) == Written(actions[i], call.now, key).value
  {
    hide FireAll, Read, Written, IsLastWriter;
    CheckedAreQueued(s, call, nonces);
    FireAllWrites(s, call.now, nonces, ActionsOf(s, nonces), key);
  }

  // ---------- errors ----------

  lemma GuardIsTrue(s: State, call: Call)
    ensures match GuardError(s, call)
            case None => true
            case Some(ContractFrozen) => s.frozen
            case Some(Paused) => s.halted
            case Some(NotInitialized) => s.roles.admin == None
            case Some(NotAuthorized) => s.roles.admin.Some? && s.roles.admin.value !in call.signers
            case _ => false
  {
  }

  /** Every error of an execution tells the truth about the call. */
  lemma ExecutionErrorsAreTrue(s: State, call: Call, nonce: nat)
    ensures match ExecuteAction(s, call, nonce)
            case Ok(_) => true
            case Err(ContractFrozen) => s.frozen
            case Err(Paused) => s.halted
            case Err(NotInitialized) => s.roles.admin == None
            case Err(NotAuthorized) => s.roles.admin.Some? && s.roles.admin.value !in call.signers
            case Err(TimelockNotFound) => nonce !in s.entries
            case Err(TimelockNotReady) => nonce in s.entries && call.now < s.entries[nonce].queuedAt + 86_400
            case Err(e) => nonce in s.entries && ActionFails(s, s.entries[nonce].action, e)
  {
    GuardIsTrue(s, call);
  }

  /** What an error of the action itself says. */
  predicate ActionFails(s: State, action: Action, e: Error) {
    match action
    case SetPairMaxSlippageBps(_, _, bps) => e == InvalidSlippageConfig && (bps < 0 || bps > 500)
    case SetBackupAdmin(backup, timeout) =>
      e == OfRoles(Roles.InvalidDmsConfig) && (timeout < 604_800 || s.roles.admin == Some(backup))
    case Upgrade(hash) =>
      var upgraded := Multisig.Upgrade(s.multisig, hash);
      upgraded.Err? && e == OfMultisig(upgraded.error)
    case SetMultisigConfig(signers, threshold) =>
      var stored := Multisig.StoreConfig(s.multisig, signers, threshold);
      stored.Err? && e == OfMultisig(stored.error)
    case _ => false
  }
}
