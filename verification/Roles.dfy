/** Role-based access control of the payment router: per-account grants, one designated
    holder per role, the admin as fallback, and the dead man's switch. */
module Roles {
  import opened ByteOrder
  import opened Wrappers

  const MIN_DMS_TIMEOUT: int := 604_800
  const U64_MAX: int := 0xFFFF_FFFF_FFFF_FFFF

  datatype Role =
    | SuperAdmin | TreasuryManager | ComplianceOfficer | FeeManager | Pauser | SecurityOfficer | UpgradeManager

  datatype Error =
    | AlreadyInitialized | NotInitialized | NotAuthorized | RoleNotFound | InvalidRole
    | NoBackupAdmin | InvalidDmsConfig | DmsNotReady

  datatype State = State(
    admin: Option<Address>,
    designated: map<Role, Address>,
    granted: map<(Address, Role), bool>,
    backupAdmin: Option<Address>,
    dmsTimeout: Option<int>,
    lastHeartbeat: Option<int>)

  const BLANK := State(None, map[], map[], None, None, None)

  // ---------- role storage ----------

  function SetRole(s: State, role: Role, account: Address): State {
    var cleared :=
      if role in s.designated && s.designated[role] != account
      then s.granted[(s.designated[role], role) := false] else s.granted;
    s.(designated := s.designated[role := account], granted := cleared[(account, role) := true])
  }

  function RemoveRole(s: State, role: Role, account: Address): State {
    s.(designated := if role in s.designated && s.designated[role] == account
                     then s.designated - {role} else s.designated,
       granted := s.granted[(account, role) := false])
  }

  predicate HasRole(s: State, account: Address, role: Role) {
    if (account, role) in s.granted && s.granted[(account, role)] then true
    else if role in s.designated then s.designated[role] == account
    else s.admin == Some(account)
  }

  /** The account whose signature a role-protected call needs. */
  function RequireRole(s: State, signers: set<Address>, role: Role): Result<Address, Error> {
    var holder := if role in s.designated then Some(s.designated[role]) else s.admin;
    if holder == None then Err(NotInitialized)
    else if holder.value !in signers then Err(NotAuthorized)
    else Ok(holder.value)
  }

  function RequireRoleOf(s: State, signers: set<Address>, caller: Address, role: Role): Option<Error> {
    if !HasRole(s, caller, role) then Some(RoleNotFound)
    else if caller !in signers then Some(NotAuthorized)
    else None
  }

  // ---------- entry points ----------

  datatype Op =
    | OpInitialize(admin: Address)
    | OpGrant(caller: Address, grantee: Address, role: Role)
    | OpRevoke(caller: Address, grantee: Address, role: Role)
    | OpAssign(account: Address, role: Role)
    | OpSetAdmin(newAdmin: Address)
    | OpTransferAdmin(newAdmin: Address)
    | OpTimelockedTransferAdmin(newAdmin: Address)
    | OpArm(backup: Address, timeoutSeconds: int)
    | OpDisarm
    | OpHeartbeat
    | OpClaimAdmin(claimant: Address)

  function Initialize(s: State, signers: set<Address>, admin: Address): Result<State, Error> {
    if s.admin.Some? then Err(AlreadyInitialized)
    else if admin !in signers then Err(NotAuthorized)
    else
      var s1 := SetRole(s.(admin := Some(admin)), SuperAdmin, admin);
      var s2 := SetRole(SetRole(s1, TreasuryManager, admin), ComplianceOfficer, admin);
      Ok(SetRole(SetRole(s2, FeeManager, admin), Pauser, admin))
  }

  function GrantRole(s: State, signers: set<Address>, caller: Address, grantee: Address, role: Role)
    : Result<State, Error>
  {
    match RequireRoleOf(s, signers, caller, SuperAdmin)
    case Some(e) => Err(e)
    case None => Ok(SetRole(s, role, grantee))
  }

  function RevokeRole(s: State, signers: set<Address>, caller: Address, grantee: Address, role: Role)
    : Result<State, Error>
  {
    match RequireRoleOf(s, signers, caller, SuperAdmin)
    case Some(e) => Err(e)
    case None =>
      if role == SuperAdmin && caller == grantee then Err(InvalidRole)
      else Ok(RemoveRole(s, role, grantee))
  }

  function AssignRole(s: State, signers: set<Address>, account: Address, role: Role): Result<State, Error> {
    match RequireRole(s, signers, SuperAdmin)
    case Err(e) => Err(e)
    case Ok(_) => Ok(SetRole(s, role, account))
  }

  /** Moves the admin seat together with SuperAdmin. */
  function SeatAdmin(s: State, newAdmin: Address): State {
    SetRole(s.(admin := Some(newAdmin)), SuperAdmin, newAdmin)
  }

  function SetAdmin(s: State, signers: set<Address>, newAdmin: Address): Result<State, Error> {
    if s.admin.Some? && RequireRole(s, signers, SuperAdmin).Err? then Err(RequireRole(s, signers, SuperAdmin).error)
    else Ok(SeatAdmin(s, newAdmin))
  }

  function TransferAdmin(s: State, signers: set<Address>, newAdmin: Address): Result<State, Error> {
    match RequireRole(s, signers, SuperAdmin)
    case Err(e) => Err(e)
    case Ok(current) =>
      Ok(SetRole(RemoveRole(s, SuperAdmin, current).(admin := Some(newAdmin)), SuperAdmin, newAdmin))
  }

  /** An executed timelock entry; executing one needs the admin's signature. */
  function TimelockedTransferAdmin(s: State, signers: set<Address>, newAdmin: Address): Result<State, Error> {
    if s.admin == None then Err(NotInitialized)
    else if s.admin.value !in signers then Err(NotAuthorized)
    else Ok(SeatAdmin(s, newAdmin))
  }

  /** Arms the dead man's switch; whoever calls this has checked the authorization. */
  function ArmSwitch(s: State, now: int, backup: Address, timeoutSeconds: int): Result<State, Error> {
    if timeoutSeconds < MIN_DMS_TIMEOUT then Err(InvalidDmsConfig)
    else if s.admin == None then Err(NotInitialized)
    else if s.admin == Some(backup) then Err(InvalidDmsConfig)
    else Ok(s.(backupAdmin := Some(backup), dmsTimeout := Some(timeoutSeconds), lastHeartbeat := Some(now)))
  }

  function Arm(s: State, signers: set<Address>, now: int, backup: Address, timeoutSeconds: int): Result<State, Error> {
    if s.admin == None then Err(NotInitialized)
    else if s.admin.value !in signers then Err(NotAuthorized)
    else ArmSwitch(s, now, backup, timeoutSeconds)
  }

  function SaturatingAdd(a: int, b: int): int {
    if a + b > U64_MAX then U64_MAX else a + b
  }

  function ClaimAdmin(s: State, signers: set<Address>, now: int, claimant: Address): Result<State, Error> {
    if claimant !in signers then Err(NotAuthorized)
    else if s.backupAdmin == None then Err(NoBackupAdmin)
    else if s.backupAdmin != Some(claimant) then Err(NotAuthorized)
    else if s.dmsTimeout == None || s.lastHeartbeat == None then Err(InvalidDmsConfig)
    else if now < SaturatingAdd(s.lastHeartbeat.value, s.dmsTimeout.value) then Err(DmsNotReady)
    else Ok(s.(admin := Some(claimant), backupAdmin := None, lastHeartbeat := None, dmsTimeout := None))
  }

  function Apply(s: State, signers: set<Address>, now: int, op: Op): Result<State, Error> {
    match op
    case OpInitialize(admin) => Initialize(s, signers, admin)
    case OpGrant(caller, grantee, role) => GrantRole(s, signers, caller, grantee, role)
    case OpRevoke(caller, grantee, role) => RevokeRole(s, signers, caller, grantee, role)
    case OpAssign(account, role) => AssignRole(s, signers, account, role)
    case OpSetAdmin(newAdmin) => SetAdmin(s, signers, newAdmin)
    case OpTransferAdmin(newAdmin) => TransferAdmin(s, signers, newAdmin)
    case OpTimelockedTransferAdmin(newAdmin) => TimelockedTransferAdmin(s, signers, newAdmin)
    case OpArm(backup, timeout) => Arm(s, signers, now, backup, timeout)
    case OpDisarm =>
      if s.admin == None then Err(NotInitialized)
      else if s.admin.value !in signers then Err(NotAuthorized)
      else Ok(s.(backupAdmin := None, lastHeartbeat := None))
    case OpHeartbeat => Ok(if s.backupAdmin.Some? then s.(lastHeartbeat := Some(now)) else s)
    case OpClaimAdmin(claimant) => ClaimAdmin(s, signers, now, claimant)
  }

  datatype Call = Call(signers: set<Address>, now: int, op: Op)

  function Step(s: State, call: Call): State {
    match Apply(s, call.signers, call.now, call.op) case Ok(t) => t case Err(_) => s
  }

  function Run(s: State, calls: seq<Call>): State
    decreases |calls|
  {
    if calls == [] then s else Run(Step(s, calls[0]), calls[1..])
  }

  // ---------- one effective holder per role ----------

  /** Who holds a role in the end: its designated account, or else the admin. */
  function Holder(s: State, role: Role): Option<Address> {
    if role in s.designated then Some(s.designated[role]) else s.admin
  }

  /** A grant flag is set only for the designated account, and once there is an admin,
      SuperAdmin always has a designated account. */
  ghost predicate Consistent(s: State) {
    && (forall k :: k in s.granted && s.granted[k] ==> k.1 in s.designated && s.designated[k.1] == k.0)
    && (s.admin.Some? ==> SuperAdmin in s.designated)
    && (s.admin == None ==> s.designated == map[] && s.backupAdmin == None)
  }

  lemma HolderIsUnique(s: State, account: Address, role: Role)
    requires Consistent(s)
    ensures HasRole(s, account, role) <==> Holder(s, role) == Some(account)
  {
  }

  lemma SetRoleConsistent(s: State, role: Role, account: Address)
    requires Consistent(s) && s.admin.Some?
    ensures Consistent(SetRole(s, role, account))
    ensures forall r :: Holder(SetRole(s, role, account), r) == if r == role then Some(account) else Holder(s, r)
  {
  }

  lemma InstallAdmin(s: State, newAdmin: Address)
    requires Consistent(s)
    ensures Consistent(SeatAdmin(s, newAdmin))
  {
    var t := SeatAdmin(s, newAdmin);
    forall k | k in t.granted && t.granted[k] ensures k.1 in t.designated && t.designated[k.1] == k.0 {
      if k != (newAdmin, SuperAdmin) {
        assert k in s.granted && s.granted[k];
      }
    }
  }

  lemma InitializeConsistent(s: State, signers: set<Address>, admin: Address)
    requires Consistent(s) && Initialize(s, signers, admin).Ok?
    ensures Consistent(Initialize(s, signers, admin).value)
  {
    var s1 := SetRole(s.(admin := Some(admin)), SuperAdmin, admin);
    InstallAdmin(s, admin);
    SetRoleConsistent(s1, TreasuryManager, admin);
    SetRoleConsistent(SetRole(s1, TreasuryManager, admin), ComplianceOfficer, admin);
    var s2 := SetRole(SetRole(s1, TreasuryManager, admin), ComplianceOfficer, admin);
    SetRoleConsistent(s2, FeeManager, admin);
    SetRoleConsistent(SetRole(s2, FeeManager, admin), Pauser, admin);
  }

  lemma RevokeConsistent(s: State, signers: set<Address>, caller: Address, grantee: Address, role: Role)
    requires Consistent(s) && RevokeRole(s, signers, caller, grantee, role).Ok?
    ensures Consistent(RevokeRole(s, signers, caller, grantee, role).value)
  {
    HolderIsUnique(s, caller, SuperAdmin);
  }

  lemma TransferConsistent(s: State, signers: set<Address>, newAdmin: Address)
    requires Consistent(s) && TransferAdmin(s, signers, newAdmin).Ok?
    ensures Consistent(TransferAdmin(s, signers, newAdmin).value)
  {
    var current := RequireRole(s, signers, SuperAdmin).value;
    assert s.designated[SuperAdmin] == current;
    var t := TransferAdmin(s, signers, newAdmin).value;
    forall k | k in t.granted && t.granted[k] ensures k.1 in t.designated && t.designated[k.1] == k.0 {
      if k != (newAdmin, SuperAdmin) {
        assert k in s.granted && s.granted[k];
      }
    }
  }

  lemma StepConsistent(s: State, call: Call)
    requires Consistent(s)
    ensures Consistent(Step(s, call))
    ensures s.admin.Some? ==> Step(s, call).admin.Some?
  {
    if Apply(s, call.signers, call.now, call.op).Ok? {
      match call.op {
        case OpInitialize(admin) => InitializeConsistent(s, call.signers, admin);
        case OpGrant(caller, grantee, role) => SetRoleConsistent(s, role, grantee);
        case OpRevoke(caller, grantee, role) => RevokeConsistent(s, call.signers, caller, grantee, role);
        case OpAssign(account, role) => SetRoleConsistent(s, role, account);
        case OpSetAdmin(newAdmin) => InstallAdmin(s, newAdmin);
        case OpTransferAdmin(newAdmin) => TransferConsistent(s, call.signers, newAdmin);
        case OpTimelockedTransferAdmin(newAdmin) => InstallAdmin(s, newAdmin);
        case _ =>
      }
    }
  }

  lemma {:induction false} RunConsistent(s: State, calls: seq<Call>)
    requires Consistent(s)
    ensures Consistent(Run(s, calls))
    ensures s.admin.Some? ==> Run(s, calls).admin.Some?
    decreases |calls|
  {
    if calls != [] {
      StepConsistent(s, calls[0]);
      RunConsistent(Step(s, calls[0]), calls[1..]);
    }
  }

  ghost predicate SoleHolder(s: State, role: Role, holder: Address) {
    forall account :: HasRole(s, account, role) <==> account == holder
  }

  lemma ConsistentHasSoleHolder(s: State, role: Role)
    requires Consistent(s) && s.admin.Some?
    ensures Holder(s, role).Some? && SoleHolder(s, role, Holder(s, role).value)
  {
    forall account ensures HasRole(s, account, role) <==> account == Holder(s, role).value {
      HolderIsUnique(s, account, role);
    }
  }

  /** After any run that starts with an accepted initialization, every role has exactly one
      account that can exercise it, by grant, designation or fallback. */
  lemma ExactlyOneHolder(signers: set<Address>, admin: Address, calls: seq<Call>, role: Role)
    requires Initialize(BLANK, signers, admin).Ok?
    ensures exists holder :: SoleHolder(Run(Initialize(BLANK, signers, admin).value, calls), role, holder)
  {
    var s := Initialize(BLANK, signers, admin).value;
    assert Consistent(BLANK);
    InitializeConsistent(BLANK, signers, admin);
    RunConsistent(s, calls);
    ConsistentHasSoleHolder(Run(s, calls), role);
  }

  // ---------- how holders change ----------

  /** Whom each accepted operation leaves holding `role`. Revoking a role from its designated
      account hands it to the admin; revoking it from anybody else, an admin who holds it
      only by fallback included, changes nothing. */
  function HolderAfter(s: State, op: Op, role: Role): Option<Address> {
    match op
    case OpInitialize(admin) => Some(admin)
    case OpGrant(_, grantee, r) => if r == role then Some(grantee) else Holder(s, role)
    case OpAssign(account, r) => if r == role then Some(account) else Holder(s, role)
    case OpRevoke(_, grantee, r) =>
      if r == role && role in s.designated && s.designated[role] == grantee then s.admin else Holder(s, role)
    case OpSetAdmin(a) => if role == SuperAdmin || role !in s.designated then Some(a) else Holder(s, role)
    case OpTransferAdmin(a) => if role == SuperAdmin || role !in s.designated then Some(a) else Holder(s, role)
    case OpTimelockedTransferAdmin(a) =>
      if role == SuperAdmin || role !in s.designated then Some(a) else Holder(s, role)
    case OpClaimAdmin(a) => if role !in s.designated then Some(a) else Holder(s, role)
    case _ => Holder(s, role)
  }

  lemma InitializeHolders(s: State, signers: set<Address>, admin: Address, role: Role)
    requires Consistent(s) && Initialize(s, signers, admin).Ok?
    ensures Holder(Initialize(s, signers, admin).value, role) == Some(admin)
  {
    assert s.designated == map[];
  }

  lemma AdminSeatHolders(s: State, newAdmin: Address, role: Role)
    ensures Holder(SeatAdmin(s, newAdmin), role) ==
            if role == SuperAdmin || role !in s.designated then Some(newAdmin) else Holder(s, role)
  {
  }

  lemma HoldersMoveAsTabled(s: State, call: Call, role: Role)
    requires Consistent(s) && Apply(s, call.signers, call.now, call.op).Ok?
    ensures Holder(Step(s, call), role) == HolderAfter(s, call.op, role)
  {
    match call.op {
      case OpInitialize(admin) => InitializeHolders(s, call.signers, admin, role);
      case OpSetAdmin(a) => AdminSeatHolders(s, a, role);
      case OpTimelockedTransferAdmin(a) => AdminSeatHolders(s, a, role);
      case OpTransferAdmin(a) =>
        var current := RequireRole(s, call.signers, SuperAdmin).value;
        assert s.designated[SuperAdmin] == current;
        AdminSeatHolders(RemoveRole(s, SuperAdmin, current), a, role);
      case OpGrant(_, grantee, r) => SetRoleConsistent(s, r, grantee);
      case OpAssign(account, r) => SetRoleConsistent(s, r, account);
      case _ =>
    }
  }

  function Designee(s: State, role: Role): Option<Address> {
    if role in s.designated then Some(s.designated[role]) else None
  }

  /** The designated account of a role after an accepted operation. */
  function DesigneeAfter(s: State, op: Op, role: Role): Option<Address> {
    match op
    case OpInitialize(admin) =>
      if role in {SuperAdmin, TreasuryManager, ComplianceOfficer, FeeManager, Pauser} then Some(admin)
      else Designee(s, role)
    case OpGrant(_, grantee, r) => if role == r then Some(grantee) else Designee(s, role)
    case OpAssign(account, r) => if role == r then Some(account) else Designee(s, role)
    case OpRevoke(_, grantee, r) =>
      if role == r && Designee(s, role) == Some(grantee) then None else Designee(s, role)
    case OpSetAdmin(a) => if role == SuperAdmin then Some(a) else Designee(s, role)
    case OpTransferAdmin(a) => if role == SuperAdmin then Some(a) else Designee(s, role)
    case OpTimelockedTransferAdmin(a) => if role == SuperAdmin then Some(a) else Designee(s, role)
    case _ => Designee(s, role)
  }

  lemma DesigneesMoveAsTabled(s: State, call: Call, role: Role)
    requires Apply(s, call.signers, call.now, call.op).Ok?
    ensures Designee(Step(s, call), role) == DesigneeAfter(s, call.op, role)
  {
    hide SetRole;
    match call.op {
      case OpInitialize(admin) => InitialDesignees(s, call.signers, admin, role);
      case OpSetAdmin(a) => DesigneeSet(s.(admin := Some(a)), SuperAdmin, a, role);
      case OpTimelockedTransferAdmin(a) => DesigneeSet(s.(admin := Some(a)), SuperAdmin, a, role);
      case OpTransferAdmin(a) =>
        var current := RequireRole(s, call.signers, SuperAdmin).value;
        DesigneeSet(RemoveRole(s, SuperAdmin, current).(admin := Some(a)), SuperAdmin, a, role);
      case OpGrant(_, grantee, r) => DesigneeSet(s, r, grantee, role);
      case OpAssign(account, r) => DesigneeSet(s, r, account, role);
      case _ =>
    }
  }

  lemma DesigneeSet(s: State, role: Role, account: Address, r: Role)
    ensures Designee(SetRole(s, role, account), r) == if r == role then Some(account) else Designee(s, r)
  {
  }

  lemma InitialDesignees(s: State, signers: set<Address>, admin: Address, role: Role)
    requires Initialize(s, signers, admin).Ok?
    ensures Designee(Initialize(s, signers, admin).value, role) == DesigneeAfter(s, OpInitialize(admin), role)
  {
    hide SetRole;
    var s1 := SetRole(s.(admin := Some(admin)), SuperAdmin, admin);
    var s2 := SetRole(s1, TreasuryManager, admin);
    var s3 := SetRole(s2, ComplianceOfficer, admin);
    var s4 := SetRole(s3, FeeManager, admin);
    DesigneeSet(s.(admin := Some(admin)), SuperAdmin, admin, role);
    DesigneeSet(s1, TreasuryManager, admin, role);
    DesigneeSet(s2, ComplianceOfficer, admin, role);
    DesigneeSet(s3, FeeManager, admin, role);
    DesigneeSet(s4, Pauser, admin, role);
  }

  /** The admin seat and the dead man's switch after an accepted operation: backup, timeout,
      and the last sign of life. */
  lemma SeatAndSwitchMoveAsTabled(s: State, call: Call)
    requires Apply(s, call.signers, call.now, call.op).Ok?
    ensures var t := Step(s, call);
            var switch := (t.backupAdmin, t.dmsTimeout, t.lastHeartbeat);
            match call.op {
              case OpInitialize(a) =>
                t.admin == Some(a) && switch == (s.backupAdmin, s.dmsTimeout, s.lastHeartbeat)
              case OpSetAdmin(a) =>
                t.admin == Some(a) && switch == (s.backupAdmin, s.dmsTimeout, s.lastHeartbeat)
              case OpTransferAdmin(a) =>
                t.admin == Some(a) && switch == (s.backupAdmin, s.dmsTimeout, s.lastHeartbeat)
              case OpTimelockedTransferAdmin(a) =>
                t.admin == Some(a) && switch == (s.backupAdmin, s.dmsTimeout, s.lastHeartbeat)
              case OpClaimAdmin(a) => t.admin == Some(a) && switch == (None, None, None)
              case OpArm(backup, timeout) =>
                t.admin == s.admin && switch == (Some(backup), Some(timeout), Some(call.now))
              case OpDisarm => t.admin == s.admin && switch == (None, s.dmsTimeout, None)
              case OpHeartbeat =>
                && t.admin == s.admin
                && switch == (s.backupAdmin, s.dmsTimeout,
                              if s.backupAdmin.Some? then Some(call.now) else s.lastHeartbeat)
              case _ => t.admin == s.admin && switch == (s.backupAdmin, s.dmsTimeout, s.lastHeartbeat)
            }
  {
  }

  predicate Signs(account: Option<Address>, signers: set<Address>) {
    account.Some? && account.value in signers
  }

  /** Who may do what. Roles are given and taken on the word of the one holder of SuperAdmin,
      who cannot take that role from itself; the switch is armed and disarmed by the admin, for
      another account and for at least a week. */
  lemma AcceptedExactly(s: State, signers: set<Address>, now: int, op: Op)
    requires Consistent(s)
    ensures Apply(s, signers, now, op).Ok? <==>
              var super := Holder(s, SuperAdmin);
              match op {
                case OpInitialize(admin) => s.admin == None && admin in signers
                case OpGrant(caller, _, _) => super == Some(caller) && caller in signers
                case OpRevoke(caller, grantee, role) =>
                  super == Some(caller) && caller in signers && (role == SuperAdmin ==> caller != grantee)
                case OpAssign(_, _) => Signs(super, signers)
                case OpSetAdmin(_) => s.admin == None || Signs(super, signers)
                case OpTransferAdmin(_) => Signs(super, signers)
                case OpTimelockedTransferAdmin(_) => Signs(s.admin, signers)
                case OpArm(backup, timeout) =>
                  Signs(s.admin, signers) && timeout >= 604_800 && s.admin != Some(backup)
                case OpDisarm => Signs(s.admin, signers)
                case OpHeartbeat => true
                case OpClaimAdmin(claimant) =>
                  && claimant in signers && s.backupAdmin == Some(claimant)
                  && s.dmsTimeout.Some? && s.lastHeartbeat.Some?
                  && now >= SaturatingAdd(s.lastHeartbeat.value, s.dmsTimeout.value)
              }
  {
    match op {
      case OpGrant(caller, _, _) => HolderIsUnique(s, caller, SuperAdmin);
      case OpRevoke(caller, _, _) => HolderIsUnique(s, caller, SuperAdmin);
      case _ =>
    }
  }

  /** Every error of a role operation tells the truth. */
  lemma ErrorsAreTrue(s: State, signers: set<Address>, now: int, op: Op)
    requires Consistent(s)
    ensures match Apply(s, signers, now, op)
            case Ok(_) => true
            case Err(AlreadyInitialized) => op.OpInitialize? && s.admin.Some?
            case Err(NotInitialized) => s.admin == None
            case Err(RoleNotFound) => (op.OpGrant? || op.OpRevoke?) && Holder(s, SuperAdmin) != Some(op.caller)
            case Err(InvalidRole) => op.OpRevoke? && op.role == SuperAdmin && op.caller == op.grantee
            case Err(NoBackupAdmin) => op.OpClaimAdmin? && s.backupAdmin == None
            case Err(DmsNotReady) =>
              && op.OpClaimAdmin? && s.lastHeartbeat.Some? && s.dmsTimeout.Some?
              && now < s.lastHeartbeat.value + s.dmsTimeout.value
            case Err(InvalidDmsConfig) =>
              || (op.OpArm? && (op.timeoutSeconds < 604_800 || s.admin == Some(op.backup)))
              || (op.OpClaimAdmin? && (s.dmsTimeout == None || s.lastHeartbeat == None))
            case Err(NotAuthorized) =>
              match op {
                case OpInitialize(admin) => admin !in signers
                case OpGrant(caller, _, _) => caller !in signers
                case OpRevoke(caller, _, _) => caller !in signers
                case OpClaimAdmin(claimant) => claimant !in signers || s.backupAdmin != Some(claimant)
                case OpArm(_, _) => !Signs(s.admin, signers)
                case OpDisarm => !Signs(s.admin, signers)
                case OpTimelockedTransferAdmin(_) => !Signs(s.admin, signers)
                case _ => !Signs(Holder(s, SuperAdmin), signers)
              }
  {
    match op {
      case OpGrant(caller, _, _) => HolderIsUnique(s, caller, SuperAdmin);
      case OpRevoke(caller, _, _) => HolderIsUnique(s, caller, SuperAdmin);
      case _ =>
    }
  }

  /** A claim through the dead man's switch moves the admin seat but no delegated role: in
      particular the claimant holds SuperAdmin afterwards only if it did before. */
  lemma ClaimKeepsSuperAdmin(s: State, signers: set<Address>, now: int, claimant: Address, account: Address)
    requires Consistent(s) && s.admin.Some? && ClaimAdmin(s, signers, now, claimant).Ok?
    ensures var t := ClaimAdmin(s, signers, now, claimant).value;
            && t.admin == Some(claimant)
            && (HasRole(t, account, SuperAdmin) <==> HasRole(s, account, SuperAdmin))
  {
    HolderIsUnique(s, account, SuperAdmin);
    var t := ClaimAdmin(s, signers, now, claimant).value;
    HolderIsUnique(t, account, SuperAdmin);
  }

  /** A claim is accepted exactly if the backup makes it and signs, and the timeout, at the
      largest time there is if it overflows, has passed since the last sign of life. */
  lemma ClaimsExactly(s: State, signers: set<Address>, now: int, claimant: Address)
    ensures ClaimAdmin(s, signers, now, claimant).Ok? <==>
              && claimant in signers && s.backupAdmin == Some(claimant) && s.dmsTimeout.Some? && s.lastHeartbeat.Some?
              && var due := s.lastHeartbeat.value + s.dmsTimeout.value;
                 now >= if due <= 0xFFFF_FFFF_FFFF_FFFF then due else 0xFFFF_FFFF_FFFF_FFFF
    ensures ClaimAdmin(s, signers, now, claimant).Ok? ==>
              ClaimAdmin(s, signers, now, claimant).value ==
              s.(admin := Some(claimant), backupAdmin := None, dmsTimeout := None, lastHeartbeat := None)
  {
  }

  /** The switch runs no earlier than from `since`, for at least a week. */
  ghost predicate SilentSince(s: State, since: int) {
    && (s.dmsTimeout.Some? ==> s.dmsTimeout.value >= 604_800)
    && (s.lastHeartbeat.Some? ==> s.lastHeartbeat.value >= since)
  }

  lemma SilenceGoesOn(s: State, call: Call, since: int)
    requires SilentSince(s, since) && call.now >= since
    ensures SilentSince(Step(s, call), since)
  {
  }

  /** A sign of life, or arming the switch, starts the silence afresh. */
  lemma SignOfLife(s: State, call: Call)
    requires SilentSince(s, 0) && Apply(s, call.signers, call.now, call.op).Ok?
    requires call.op.OpArm? || (call.op.OpHeartbeat? && s.backupAdmin.Some?)
    ensures SilentSince(Step(s, call), call.now)
  {
  }

  ghost predicate NobodyClaims(s: State, calls: seq<Call>)
    decreases |calls|
  {
    calls == [] ||
    (&& (calls[0].op.OpClaimAdmin? ==> Apply(s, calls[0].signers, calls[0].now, calls[0].op).Err?)
     && NobodyClaims(Step(s, calls[0]), calls[1..]))
  }

  /** For a week after that no claim is accepted, whatever else happens. */
  lemma {:induction false} NoClaimWithinAWeek(s: State, calls: seq<Call>, since: int)
    requires 0 <= since && since + 604_800 <= 0xFFFF_FFFF_FFFF_FFFF && SilentSince(s, since)
    requires forall i :: 0 <= i < |calls| ==> since <= calls[i].now < since + 604_800
    ensures NobodyClaims(s, calls)
    decreases |calls|
  {
    if calls != [] {
      SilenceGoesOn(s, calls[0], since);
      assert forall i :: 0 <= i < |calls[1..]| ==> calls[1..][i] == calls[i + 1];
      NoClaimWithinAWeek(Step(s, calls[0]), calls[1..], since);
    }
  }

  /** A run in which that happens: the backup claims the seat of an admin who went silent,
      and the old admin is still the only one with SuperAdmin. */
  lemma ClaimWithoutSuperAdmin(admin: Address, backup: Address, calls: seq<Call>)
    requires admin != backup && |calls| == 3
    requires calls[0] == Call({admin}, 0, OpInitialize(admin))
    requires calls[1] == Call({admin}, 0, OpArm(backup, MIN_DMS_TIMEOUT))
    requires calls[2] == Call({backup}, MIN_DMS_TIMEOUT, OpClaimAdmin(backup))
    ensures var s := Run(BLANK, calls);
            s.admin == Some(backup) && HasRole(s, admin, SuperAdmin) && !HasRole(s, backup, SuperAdmin)
  {
    var s1 := Step(BLANK, calls[0]);
    var s2 := Step(s1, calls[1]);
    assert calls[1..][0] == calls[1] && calls[1..][1..] == calls[2..];
    assert calls[2..][0] == calls[2] && calls[2..][1..] == [];
    assert Run(BLANK, calls) == Run(s1, calls[1..]) == Run(s2, calls[2..]);
    assert Run(s2, calls[2..]) == Run(Step(s2, calls[2]), []);
  }

  // ---------- the contract on stored fields ----------

  class Registry {
    var admin: Option<Address>
    var designated: map<Role, Address>
    var granted: map<(Address, Role), bool>
    var backupAdmin: Option<Address>
    var dmsTimeout: Option<int>
    var lastHeartbeat: Option<int>

    ghost function Now(): State
      reads this
    {
      State(admin, designated, granted, backupAdmin, dmsTimeout, lastHeartbeat)
    }

    constructor ()
      ensures Now() == BLANK
    {
      admin, designated, granted := None, map[], map[];
      backupAdmin, dmsTimeout, lastHeartbeat := None, None, None;
    }

    method SetRoleInternal(role: Role, account: Address)
      modifies this`designated, this`granted
      ensures Now() == SetRole(old(Now()), role, account)
    {
      if role in designated {
        var previous := designated[role];
        if previous != account {
          granted := granted[(previous, role) := false];
        }
      }
      designated := designated[role := account];
      granted := granted[(account, role) := true];
    }

    method RemoveRoleInternal(role: Role, account: Address)
      modifies this`designated, this`granted
      ensures Now() == RemoveRole(old(Now()), role, account)
    {
      if role in designated && designated[role] == account {
        designated := designated - {role};
      }
      granted := granted[(account, role) := false];
    }

    method InitializeContract(signers: set<Address>, newAdmin: Address) returns (r: Result<(), Error>)
      modifies this
      ensures Performed(Initialize(old(Now()), signers, newAdmin), old(Now()), Now(), r)
    {
      if admin.Some? {
        return Err(AlreadyInitialized);
      }
      if newAdmin !in signers {
        return Err(NotAuthorized);
      }
      admin := Some(newAdmin);
      SetRoleInternal(SuperAdmin, newAdmin);
      SetRoleInternal(TreasuryManager, newAdmin);
      SetRoleInternal(ComplianceOfficer, newAdmin);
      SetRoleInternal(FeeManager, newAdmin);
      SetRoleInternal(Pauser, newAdmin);
      return Ok(());
    }

    method Revoke(signers: set<Address>, caller: Address, grantee: Address, role: Role) returns (r: Result<(), Error>)
      modifies this
      ensures Performed(RevokeRole(old(Now()), signers, caller, grantee, role), old(Now()), Now(), r)
    {
      if !HasRole(Snapshot(), caller, SuperAdmin) {
        return Err(RoleNotFound);
      }
      if caller !in signers {
        return Err(NotAuthorized);
      }
      if role == SuperAdmin && caller == grantee {
        return Err(InvalidRole);
      }
      RemoveRoleInternal(role, grantee);
      return Ok(());
    }

    function Snapshot(): (s: State)
      reads this
      ensures s == Now()
    {
      State(admin, designated, granted, backupAdmin, dmsTimeout, lastHeartbeat)
    }

    method Transfer(signers: set<Address>, newAdmin: Address) returns (r: Result<(), Error>)
      modifies this
      ensures Performed(TransferAdmin(old(Now()), signers, newAdmin), old(Now()), Now(), r)
    {
      var current := RequireRole(Snapshot(), signers, SuperAdmin);
      if current.Err? {
        return Err(current.error);
      }
      RemoveRoleInternal(SuperAdmin, current.value);
      admin := Some(newAdmin);
      SetRoleInternal(SuperAdmin, newAdmin);
      return Ok(());
    }

    method Claim(signers: set<Address>, now: int, claimant: Address) returns (r: Result<(), Error>)
      modifies this
      ensures Performed(ClaimAdmin(old(Now()), signers, now, claimant), old(Now()), Now(), r)
    {
      if claimant !in signers {
        return Err(NotAuthorized);
      }
      if backupAdmin == None {
        return Err(NoBackupAdmin);
      }
      if backupAdmin.value != claimant {
        return Err(NotAuthorized);
      }
      if dmsTimeout == None || lastHeartbeat == None {
        return Err(InvalidDmsConfig);
      }
      if now < SaturatingAdd(lastHeartbeat.value, dmsTimeout.value) {
        return Err(DmsNotReady);
      }
      admin := Some(claimant);
      backupAdmin, lastHeartbeat, dmsTimeout := None, None, None;
      return Ok(());
    }
  }
}
