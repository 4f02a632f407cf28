/** M-of-N upgrade approval of the payment router: the signer group, its rotation, and the
    approvals collected for upgrades and for rotations. */
module Multisig {
  import opened ByteOrder
  import opened Wrappers

  type Hash = Bytes

  datatype Error =
    | InvalidThreshold | DuplicateSigner | MultisigNotInitialized | NotMultisigSigner
    | NotAuthorized | AlreadyApproved | InsufficientApprovals

  datatype Group = Group(signers: seq<Address>, threshold: nat)

  /** Config approvals are kept under the hash of the sorted signers and the threshold; the
      pair itself stands for that hash here. `installed` lists the code installed so far. */
  datatype State = State(
    group: Option<Group>,
    upgradeApprovals: map<Hash, seq<Address>>,
    configApprovals: map<Group, seq<Address>>,
    installed: seq<Hash>)

  const BLANK := State(None, map[], map[], [])

  // ---------- signer lists ----------

  predicate NoDuplicates(s: seq<Address>) {
    forall i, j :: 0 <= i < j < |s| ==> s[i] != s[j]
  }

  function ConfigError(signers: seq<Address>, threshold: nat): Option<Error> {
    var minThreshold := if |signers| >= 2 then 2 else 1;
    if signers == [] || threshold < minThreshold || threshold > |signers| then Some(InvalidThreshold)
    else if !NoDuplicates(signers) then Some(DuplicateSigner)
    else None
  }

  method ValidateMultisigConfig(signers: seq<Address>, threshold: nat) returns (e: Option<Error>)
    ensures e == ConfigError(signers, threshold)
  {
    var minThreshold := if |signers| >= 2 then 2 else 1;
    if |signers| == 0 || threshold < minThreshold || threshold > |signers| {
      return Some(InvalidThreshold);
    }
    for i := 0 to |signers|
      invariant forall a, b :: 0 <= a < i && a < b < |signers| ==> signers[a] != signers[b]
    {
      for j := i + 1 to |signers|
        invariant forall b :: i < b < j ==> signers[i] != signers[b]
      {
        if signers[i] == signers[j] {
          return Some(DuplicateSigner);
        }
      }
    }
    return None;
  }

  /** Where the new element goes: before the first one that is strictly greater. */
  method InsertionPoint(sorted: seq<Address>, signer: Address) returns (insertAt: nat)
    ensures insertAt <= |sorted|
    ensures sorted[..insertAt] + [signer] + sorted[insertAt..] == Insert(sorted, signer)
  {
    var current := 0;
    assert sorted[0..] == sorted;
    while current < |sorted|
      invariant 0 <= current <= |sorted|
      invariant sorted[..current] + Insert(sorted[current..], signer) == Insert(sorted, signer)
    {
      var order := CompareBytes(signer, sorted[current]);
      if order == Less {
        InsertHere(sorted, signer, current);
        return current;
      }
      InsertLater(sorted, signer, current);
      current := current + 1;
    }
    InsertHere(sorted, signer, current);
    return |sorted|;
  }

  lemma InsertHere(sorted: seq<Address>, signer: Address, i: nat)
    requires i <= |sorted| && (i < |sorted| ==> Compare(signer, sorted[i]) == Less)
    ensures sorted[..i] + [signer] + sorted[i..] == sorted[..i] + Insert(sorted[i..], signer)
  {
    assert Insert(sorted[i..], signer) == [signer] + sorted[i..];
  }

  lemma InsertLater(sorted: seq<Address>, signer: Address, i: nat)
    requires i < |sorted| && Compare(signer, sorted[i]) != Less
    ensures sorted[..i] + Insert(sorted[i..], signer) == sorted[..i + 1] + Insert(sorted[i + 1..], signer)
  {
    assert sorted[i..][1..] == sorted[i + 1..];
    assert Insert(sorted[i..], signer) == [sorted[i]] + Insert(sorted[i + 1..], signer);
    assert sorted[..i + 1] == sorted[..i] + [sorted[i]];
  }

  method SortedMultisigSigners(signers: seq<Address>) returns (sorted: seq<Address>)
    ensures sorted == Sort(signers)
  {
    sorted := [];
    var index := 0;
    while index < |signers|
      invariant 0 <= index <= |signers|
      invariant sorted == Sort(signers[..index])
    {
      var signer := signers[index];
      var insertAt := InsertionPoint(sorted, signer);
      sorted := sorted[..insertAt] + [signer] + sorted[insertAt..];
      assert signers[..index + 1][..index] == signers[..index];
      index := index + 1;
    }
    assert signers[..index] == signers;
  }

  lemma SortKeepsMembers(signers: seq<Address>, a: Address)
    ensures a in Sort(signers) <==> a in signers
  {
    SortSorts(signers);
    assert a in Sort(signers) <==> a in multiset(Sort(signers));
    assert a in signers <==> a in multiset(signers);
  }

  lemma NoDuplicatesCounts(s: seq<Address>)
    ensures NoDuplicates(s) <==> forall a :: a in multiset(s) ==> multiset(s)[a] == 1
  {
    if NoDuplicates(s) {
      forall a | a in multiset(s) ensures multiset(s)[a] == 1 {
        OnceInDistinct(s, a);
      }
    } else {
      var i, j :| 0 <= i < j < |s| && s[i] == s[j];
      assert s == s[..i] + [s[i]] + s[i + 1..j] + [s[j]] + s[j + 1..];
      assert multiset(s)[s[i]] >= 2;
    }
  }

  lemma {:induction false} OnceInDistinct(s: seq<Address>, a: Address)
    requires NoDuplicates(s) && a in multiset(s)
    ensures multiset(s)[a] == 1
  {
    var i :| 0 <= i < |s| && s[i] == a;
    assert s == s[..i] + [a] + s[i + 1..];
    assert a !in s[..i] && a !in s[i + 1..];
    assert multiset(s)[a] == multiset(s[..i])[a] + 1 + multiset(s[i + 1..])[a];
  }

  /** Whether a proposed group is acceptable does not depend on the order of its members. */
  lemma ConfigErrorForgetsOrder(a: seq<Address>, b: seq<Address>, threshold: nat)
    requires multiset(a) == multiset(b)
    ensures ConfigError(a, threshold) == ConfigError(b, threshold)
  {
    assert |multiset(a)| == |a| && |multiset(b)| == |b|;
    NoDuplicatesCounts(a);
    NoDuplicatesCounts(b);
  }

  // ---------- approvals ----------

  function Approvals<K>(m: map<K, seq<Address>>, k: K): seq<Address> {
    if k in m then m[k] else []
  }

  /** The stored approvals that count: those of current group members, in stored order. */
  function Effective(stored: seq<Address>, signers: seq<Address>): seq<Address> {
    if stored == [] then []
    else
      var rest := Effective(stored[..|stored| - 1], signers);
      if stored[|stored| - 1] in signers then rest + [stored[|stored| - 1]] else rest
  }

  method LoadEffectiveApprovals(stored: seq<Address>, signers: seq<Address>) returns (effective: seq<Address>)
    ensures effective == Effective(stored, signers)
  {
    effective := [];
    for i := 0 to |stored|
      invariant effective == Effective(stored[..i], signers)
    {
      assert stored[..i + 1][..i] == stored[..i];
      if stored[i] in signers {
        effective := effective + [stored[i]];
      }
    }
    assert stored[..|stored|] == stored;
  }

  function Without(s: seq<Address>, a: Address): seq<Address> {
    if s == [] then []
    else if s[0] == a then s[1..]
    else [s[0]] + Without(s[1..], a)
  }

  function StoreApprovals<K>(m: map<K, seq<Address>>, k: K, s: seq<Address>): map<K, seq<Address>> {
    if s == [] then m - {k} else m[k := s]
  }

  function ConfigKey(signers: seq<Address>, threshold: nat): Group {
    Group(Sort(signers), threshold)
  }

  function ApproveConfig(s: State, signed: bool, signers: seq<Address>, threshold: nat, signer: Address)
    : Result<State, Error>
  {
    if ConfigError(signers, threshold).Some? then Err(ConfigError(signers, threshold).value)
    else if s.group == None then Err(MultisigNotInitialized)
    else if signer !in s.group.value.signers then Err(NotMultisigSigner)
    else if !signed then Err(NotAuthorized)
    else
      var key := ConfigKey(signers, threshold);
      var approvals := Approvals(s.configApprovals, key);
      if signer in approvals then Err(AlreadyApproved)
      else Ok(s.(configApprovals := s.configApprovals[key := approvals + [signer]]))
  }

  /** Installs a new group; an existing one must have approved it with its own threshold. */
  function StoreConfig(s: State, signers: seq<Address>, threshold: nat): Result<State, Error> {
    if ConfigError(signers, threshold).Some? then Err(ConfigError(signers, threshold).value)
    else
      var key := ConfigKey(signers, threshold);
      if s.group == None then Ok(s.(group := Some(key)))
      else if |Effective(Approvals(s.configApprovals, key), s.group.value.signers)| < s.group.value.threshold
        then Err(InsufficientApprovals)
      else Ok(s.(group := Some(key), configApprovals := s.configApprovals - {key}))
  }

  function ApproveUpgrade(s: State, signed: bool, signer: Address, hash: Hash): Result<State, Error> {
    if s.group == None then Err(MultisigNotInitialized)
    else if signer !in s.group.value.signers then Err(NotMultisigSigner)
    else if !signed then Err(NotAuthorized)
    else if signer in Approvals(s.upgradeApprovals, hash) then Err(AlreadyApproved)
    else Ok(s.(upgradeApprovals := s.upgradeApprovals[hash := Approvals(s.upgradeApprovals, hash) + [signer]]))
  }

  function RevokeUpgradeApproval(s: State, signed: bool, signer: Address, hash: Hash): Result<State, Error> {
    if s.group == None then Err(MultisigNotInitialized)
    else if signer !in s.group.value.signers then Err(NotMultisigSigner)
    else if !signed then Err(NotAuthorized)
    else
      var approvals := Approvals(s.upgradeApprovals, hash);
      if signer !in approvals then Ok(s)
      else Ok(s.(upgradeApprovals := StoreApprovals(s.upgradeApprovals, hash, Without(approvals, signer))))
  }

  function CancelUpgrade(s: State, adminSigned: bool, hash: Hash): Result<State, Error> {
    if !adminSigned then Err(NotAuthorized) else Ok(s.(upgradeApprovals := s.upgradeApprovals - {hash}))
  }

  function UpgradeError(s: State, hash: Hash): Option<Error> {
    if s.group == None then Some(MultisigNotInitialized)
    else if |Effective(Approvals(s.upgradeApprovals, hash), s.group.value.signers)| < s.group.value.threshold
      then Some(InsufficientApprovals)
    else None
  }

  /** Installs the code and consumes its approvals. */
  function Install(s: State, hash: Hash): State {
    s.(installed := s.installed + [hash], upgradeApprovals := s.upgradeApprovals - {hash})
  }

  function Upgrade(s: State, hash: Hash): Result<State, Error> {
    if UpgradeError(s, hash).Some? then Err(UpgradeError(s, hash).value) else Ok(Install(s, hash))
  }

  // ---------- what is accepted ----------

  /** A group is acceptable exactly if it has members, none twice, and a threshold of at least
      one, at least two where there are two members, and at most all. */
  lemma GroupAcceptedExactly(signers: seq<Address>, threshold: nat)
    ensures ConfigError(signers, threshold) == None <==>
              && |signers| >= 1 && (forall i, j :: 0 <= i < j < |signers| ==> signers[i] != signers[j])
              && 1 <= threshold <= |signers| && (|signers| >= 2 ==> threshold >= 2)
  {
  }

  /** Members of the group in force, on their signature, may approve what they have not
      approved, and revoke; an approval adds the member to the tally of that proposal. */
  lemma ApprovalsAcceptedExactly(
      s: State, signed: bool, signer: Address, hash: Hash, signers: seq<Address>, threshold: nat)
    ensures var member := signed && s.group.Some? && signer in s.group.value.signers;
            && (ApproveUpgrade(s, signed, signer, hash).Ok? <==>
                  member && signer !in Approvals(s.upgradeApprovals, hash))
            && (RevokeUpgradeApproval(s, signed, signer, hash).Ok? <==> member)
            && (ApproveConfig(s, signed, signers, threshold, signer).Ok? <==>
                  && member && ConfigError(signers, threshold) == None
                  && signer !in Approvals(s.configApprovals, ConfigKey(signers, threshold)))
            && (CancelUpgrade(s, signed, hash).Ok? <==> signed)
  {
  }

  /** Every error of an upgrade, an approval or a rotation tells the truth. */
  lemma ErrorsAreTrue(s: State, signed: bool, op: Op)
    ensures match Apply(s, signed, op)
            case Ok(_) => true
            case Err(NotAuthorized) => !signed
            case Err(MultisigNotInitialized) => s.group == None
            case Err(NotMultisigSigner) =>
              && !op.OpSetConfig? && !op.OpCancel? && !op.OpUpgrade?
              && s.group.Some? && op.signer !in s.group.value.signers
            case Err(AlreadyApproved) =>
              || (op.OpApprove? && op.signer in Approvals(s.upgradeApprovals, op.hash))
              || (op.OpApproveConfig? &&
                  op.signer in Approvals(s.configApprovals, ConfigKey(op.signers, op.threshold)))
            case Err(InsufficientApprovals) =>
              && s.group.Some? && (op.OpUpgrade? || op.OpSetConfig?)
              && s.group.value.threshold >
                 |Effective(if op.OpUpgrade? then Approvals(s.upgradeApprovals, op.hash)
                            else Approvals(s.configApprovals, ConfigKey(op.signers, op.threshold)),
                            s.group.value.signers)|
            case Err(InvalidThreshold) =>
              && (op.OpApproveConfig? || op.OpSetConfig?)
              && (op.threshold < 1 || op.threshold > |op.signers| || (|op.signers| >= 2 && op.threshold < 2))
            case Err(DuplicateSigner) =>
              && (op.OpApproveConfig? || op.OpSetConfig?)
              && exists i, j :: 0 <= i < j < |op.signers| && op.signers[i] == op.signers[j]
  {
  }

  // ---------- order of submission ----------

  /** The same proposal submitted in another order is the same call on the same tally. */
  lemma RotationForgetsOrder(s: State, a: seq<Address>, b: seq<Address>, threshold: nat, signed: bool, signer: Address)
    requires multiset(a) == multiset(b)
    ensures ApproveConfig(s, signed, a, threshold, signer) == ApproveConfig(s, signed, b, threshold, signer)
    ensures StoreConfig(s, a, threshold) == StoreConfig(s, b, threshold)
  {
    ConfigErrorForgetsOrder(a, b, threshold);
    SortCanonical(a, b);
  }

  // ---------- runs ----------

  datatype Op =
    | OpApproveConfig(signers: seq<Address>, threshold: nat, signer: Address)
    | OpSetConfig(signers: seq<Address>, threshold: nat)
    | OpApprove(signer: Address, hash: Hash)
    | OpRevoke(signer: Address, hash: Hash)
    | OpCancel(hash: Hash)
    | OpUpgrade(hash: Hash)

  /** `signed` tells whether the account whose signature the call needs has given it. */
  function Apply(s: State, signed: bool, op: Op): Result<State, Error> {
    match op
    case OpApproveConfig(signers, threshold, signer) => ApproveConfig(s, signed, signers, threshold, signer)
    case OpSetConfig(signers, threshold) => if !signed then Err(NotAuthorized) else StoreConfig(s, signers, threshold)
    case OpApprove(signer, hash) => ApproveUpgrade(s, signed, signer, hash)
    case OpRevoke(signer, hash) => RevokeUpgradeApproval(s, signed, signer, hash)
    case OpCancel(hash) => CancelUpgrade(s, signed, hash)
    case OpUpgrade(hash) => Upgrade(s, hash)
  }

  /** The state after a run, and the operations that were accepted, oldest first. */
  function Run(calls: seq<(bool, Op)>): (State, seq<Op>) {
    if calls == [] then (BLANK, [])
    else
      var (s, history) := Run(calls[..|calls| - 1]);
      var (signed, op) := calls[|calls| - 1];
      match Apply(s, signed, op)
      case Ok(t) => (t, history + [op])
      case Err(_) => (s, history)
  }

  /** Whether `op` ends the approval of `hash` by `signer`. */
  predicate Ends(op: Op, signer: Address, hash: Hash) {
    match op
    case OpRevoke(a, h) => a == signer && h == hash
    case OpCancel(h) => h == hash
    case OpUpgrade(h) => h == hash
    case _ => false
  }

  /** In the accepted history, `signer` approved `hash` and nothing since then revoked,
      cancelled or consumed that approval. */
  ghost predicate Standing(history: seq<Op>, signer: Address, hash: Hash) {
    exists i :: 0 <= i < |history| && history[i] == OpApprove(signer, hash)
      && forall j :: i < j < |history| ==> !Ends(history[j], signer, hash)
  }

  /** The same for the approval of a rotation, which only its execution ends. */
  ghost predicate StandingConfig(history: seq<Op>, signer: Address, key: Group) {
    exists i :: 0 <= i < |history| && ApprovesConfig(history[i], signer, key)
      && forall j :: i < j < |history| ==> !ExecutesConfig(history[j], key)
  }

  predicate ApprovesConfig(op: Op, signer: Address, key: Group) {
    op.OpApproveConfig? && op.signer == signer && ConfigKey(op.signers, op.threshold) == key
  }

  predicate ExecutesConfig(op: Op, key: Group) {
    op.OpSetConfig? && ConfigKey(op.signers, op.threshold) == key
  }

  lemma StandingStep(history: seq<Op>, op: Op, signer: Address, hash: Hash)
    ensures Standing(history + [op], signer, hash) <==>
            op == OpApprove(signer, hash) || (Standing(history, signer, hash) && !Ends(op, signer, hash))
  {
    var longer := history + [op];
    if Standing(history, signer, hash) && !Ends(op, signer, hash) {
      var i :| 0 <= i < |history| && history[i] == OpApprove(signer, hash)
        && forall j :: i < j < |history| ==> !Ends(history[j], signer, hash);
      assert longer[i] == OpApprove(signer, hash);
    }
    if op == OpApprove(signer, hash) {
      assert longer[|history|] == OpApprove(signer, hash);
    }
    if Standing(longer, signer, hash) && op != OpApprove(signer, hash) {
      var i :| 0 <= i < |longer| && longer[i] == OpApprove(signer, hash)
        && forall j :: i < j < |longer| ==> !Ends(longer[j], signer, hash);
      assert history[i] == OpApprove(signer, hash);
      assert longer[|history|] == op;
      forall j | i < j < |history| ensures !Ends(history[j], signer, hash) {
        assert longer[j] == history[j];
      }
    }
  }

  lemma StandingConfigStep(history: seq<Op>, op: Op, signer: Address, key: Group)
    ensures StandingConfig(history + [op], signer, key) <==>
            ApprovesConfig(op, signer, key) || (StandingConfig(history, signer, key) && !ExecutesConfig(op, key))
  {
    var longer := history + [op];
    if StandingConfig(history, signer, key) && !ExecutesConfig(op, key) {
      var i :| 0 <= i < |history| && ApprovesConfig(history[i], signer, key)
        && forall j :: i < j < |history| ==> !ExecutesConfig(history[j], key);
      assert ApprovesConfig(longer[i], signer, key);
    }
    if ApprovesConfig(op, signer, key) {
      assert ApprovesConfig(longer[|history|], signer, key);
    }
    if StandingConfig(longer, signer, key) && !ApprovesConfig(op, signer, key) {
      var i :| 0 <= i < |longer| && ApprovesConfig(longer[i], signer, key)
        && forall j :: i < j < |longer| ==> !ExecutesConfig(longer[j], key);
      assert ApprovesConfig(history[i], signer, key);
      assert longer[|history|] == op;
      forall j | i < j < |history| ensures !ExecutesConfig(history[j], key) {
        assert longer[j] == history[j];
      }
    }
  }

  // ---------- what every run keeps ----------

  ghost predicate ValidGroup(s: State) {
    s.group.Some? ==> ConfigError(s.group.value.signers, s.group.value.threshold) == None
  }

  ghost predicate DistinctApprovals<K(!new)>(m: map<K, seq<Address>>) {
    forall k :: NoDuplicates(Approvals(m, k))
  }

  /** The stored lists are duplicate-free and say exactly whose approval still stands. */
  ghost predicate Tallied(s: State, history: seq<Op>) {
    && ValidGroup(s)
    && DistinctApprovals(s.upgradeApprovals)
    && DistinctApprovals(s.configApprovals)
    && (forall a, hash :: a in Approvals(s.upgradeApprovals, hash) <==> Standing(history, a, hash))
    && (forall a, key :: a in Approvals(s.configApprovals, key) <==> StandingConfig(history, a, key))
  }

  lemma {:induction false} WithoutRemoves(s: seq<Address>, a: Address)
    requires NoDuplicates(s)
    ensures NoDuplicates(Without(s, a))
    ensures forall x :: x in Without(s, a) <==> x in s && x != a
  {
    if s != [] {
      assert s == [s[0]] + s[1..];
      if s[0] == a {
        assert a !in s[1..];
      } else {
        WithoutRemoves(s[1..], a);
        var rest := Without(s[1..], a);
        assert s[0] !in s[1..];
        assert s[0] !in rest;
        assert Without(s, a) == [s[0]] + rest;
      }
    }
  }

  lemma {:induction false} EffectiveMembers(stored: seq<Address>, signers: seq<Address>)
    requires NoDuplicates(stored)
    ensures NoDuplicates(Effective(stored, signers))
    ensures forall x :: x in Effective(stored, signers) <==> x in stored && x in signers
  {
    if stored != [] {
      var n := |stored| - 1;
      EffectiveMembers(stored[..n], signers);
      assert stored == stored[..n] + [stored[n]];
      assert stored[n] !in stored[..n];
    }
  }

  lemma {:induction false} DistinctCount(s: seq<Address>)
    requires NoDuplicates(s)
    ensures |set a | a in s| == |s|
  {
    if s != [] {
      var n := |s| - 1;
      DistinctCount(s[..n]);
      assert s == s[..n] + [s[n]];
      assert (set a | a in s) == (set a | a in s[..n]) + {s[n]};
      assert s[n] !in s[..n];
    }
  }

  lemma SortKeepsValidity(signers: seq<Address>, threshold: nat)
    ensures ConfigError(Sort(signers), threshold) == ConfigError(signers, threshold)
  {
    SortSorts(signers);
    ConfigErrorForgetsOrder(Sort(signers), signers, threshold);
  }

  /** `op` takes `s` to `t`: as an accepted call, or, for an upgrade, as an installation whose
      quorum has been checked elsewhere. */
  ghost predicate Becomes(s: State, t: State, op: Op) {
    (exists signed :: Apply(s, signed, op) == Ok(t)) || (op.OpUpgrade? && t == Install(s, op.hash))
  }

  lemma UpgradeTallyStep(s: State, t: State, history: seq<Op>, op: Op, a: Address, hash: Hash)
    requires Tallied(s, history) && Becomes(s, t, op)
    ensures NoDuplicates(Approvals(t.upgradeApprovals, hash))
    ensures a in Approvals(t.upgradeApprovals, hash) <==> Standing(history + [op], a, hash)
  {
    StandingStep(history, op, a, hash);
    assert NoDuplicates(Approvals(s.upgradeApprovals, hash));
    if op.OpRevoke? && op.hash == hash {
      WithoutRemoves(Approvals(s.upgradeApprovals, hash), op.signer);
    }
  }

  lemma ConfigTallyStep(s: State, t: State, history: seq<Op>, op: Op, a: Address, key: Group)
    requires Tallied(s, history) && Becomes(s, t, op)
    requires Founded(s)
    ensures NoDuplicates(Approvals(t.configApprovals, key))
    ensures a in Approvals(t.configApprovals, key) <==> StandingConfig(history + [op], a, key)
  {
    StandingConfigStep(history, op, a, key);
    assert NoDuplicates(Approvals(s.configApprovals, key));
  }

  /** Before there is a group, nobody can approve anything. */
  ghost predicate Founded(s: State) {
    s.group == None ==> s.upgradeApprovals == map[] && s.configApprovals == map[]
  }

  lemma FoundedStep(s: State, t: State, op: Op)
    requires Founded(s) && Becomes(s, t, op)
    ensures Founded(t)
  {
  }

  lemma {:induction false} NoGroupNoApprovals(calls: seq<(bool, Op)>)
    ensures Founded(Run(calls).0)
  {
    if calls != [] {
      var n := |calls| - 1;
      NoGroupNoApprovals(calls[..n]);
      var s := Run(calls[..n]).0;
      var (signed, op) := calls[n];
      if Apply(s, signed, op).Ok? {
        FoundedStep(s, Apply(s, signed, op).value, op);
      }
    }
  }

  lemma {:induction false} RunIsTallied(calls: seq<(bool, Op)>)
    ensures Tallied(Run(calls).0, Run(calls).1)
  {
    if calls != [] {
      var n := |calls| - 1;
      RunIsTallied(calls[..n]);
      NoGroupNoApprovals(calls[..n]);
      var (s, history) := Run(calls[..n]);
      var (signed, op) := calls[n];
      if Apply(s, signed, op).Ok? {
        var t := Apply(s, signed, op).value;
        TalliedStep(s, t, history, op);
      }
    }
  }

  lemma TalliedStep(s: State, t: State, history: seq<Op>, op: Op)
    requires Tallied(s, history) && Founded(s) && Becomes(s, t, op)
    ensures Tallied(t, history + [op])
  {
    forall a, hash ensures a in Approvals(t.upgradeApprovals, hash) <==> Standing(history + [op], a, hash) {
      UpgradeTallyStep(s, t, history, op, a, hash);
    }
    forall hash ensures NoDuplicates(Approvals(t.upgradeApprovals, hash)) {
      UpgradeTallyStep(s, t, history, op, [], hash);
    }
    forall a, key ensures a in Approvals(t.configApprovals, key) <==> StandingConfig(history + [op], a, key) {
      ConfigTallyStep(s, t, history, op, a, key);
    }
    forall key ensures NoDuplicates(Approvals(t.configApprovals, key)) {
      ConfigTallyStep(s, t, history, op, [], key);
    }
    if op.OpSetConfig? {
      SortKeepsValidity(op.signers, op.threshold);
    }
  }

  // ---------- quorum ----------

  /** The members of the group in force whose approval of `hash` stands. */
  ghost function Supporters(s: State, history: seq<Op>, hash: Hash): set<Address>
    requires s.group.Some?
  {
    set a | a in s.group.value.signers && Standing(history, a, hash)
  }

  ghost function RotationSupporters(s: State, history: seq<Op>, key: Group): set<Address>
    requires s.group.Some?
  {
    set a | a in s.group.value.signers && StandingConfig(history, a, key)
  }

  /** After every run, an upgrade goes through exactly when at least `threshold` distinct
      members of the group in force have approved that hash and their approvals stand. */
  lemma UpgradeNeedsQuorum(calls: seq<(bool, Op)>, hash: Hash)
    ensures var (s, history) := Run(calls);
            Upgrade(s, hash).Ok? <==>
              s.group.Some? && |Supporters(s, history, hash)| >= s.group.value.threshold
  {
    RunIsTallied(calls);
    QuorumIsSupport(Run(calls).0, Run(calls).1, hash);
  }

  /** The group in force has a quorum of standing approvals. */
  ghost predicate Backed(s: State, history: seq<Op>, hash: Hash) {
    s.group.Some? && |Supporters(s, history, hash)| >= s.group.value.threshold
  }

  lemma QuorumIsSupport(s: State, history: seq<Op>, hash: Hash)
    requires Tallied(s, history)
    ensures UpgradeError(s, hash) == None <==> Backed(s, history, hash)
  {
    if s.group.Some? {
      var stored := Approvals(s.upgradeApprovals, hash);
      EffectiveMembers(stored, s.group.value.signers);
      DistinctCount(Effective(stored, s.group.value.signers));
      assert Supporters(s, history, hash) == set a | a in Effective(stored, s.group.value.signers);
    }
  }

  /** An existing group is replaced exactly when the new one is valid and at least
      `threshold` distinct current members have approved that very set and threshold. */
  lemma RotationNeedsQuorum(calls: seq<(bool, Op)>, signers: seq<Address>, threshold: nat)
    ensures var (s, history) := Run(calls);
            s.group.Some? ==>
              (StoreConfig(s, signers, threshold).Ok? <==>
                && ConfigError(signers, threshold) == None
                && |RotationSupporters(s, history, ConfigKey(signers, threshold))| >= s.group.value.threshold)
  {
    RunIsTallied(calls);
    RotationQuorumIsSupport(Run(calls).0, Run(calls).1, signers, threshold);
  }

  lemma RotationQuorumIsSupport(s: State, history: seq<Op>, signers: seq<Address>, threshold: nat)
    requires Tallied(s, history)
    ensures s.group.Some? ==>
              (StoreConfig(s, signers, threshold).Ok? <==>
                && ConfigError(signers, threshold) == None
                && |RotationSupporters(s, history, ConfigKey(signers, threshold))| >= s.group.value.threshold)
  {
    if s.group.Some? {
      var key := ConfigKey(signers, threshold);
      var stored := Approvals(s.configApprovals, key);
      EffectiveMembers(stored, s.group.value.signers);
      DistinctCount(Effective(stored, s.group.value.signers));
      assert RotationSupporters(s, history, key) == set a | a in Effective(stored, s.group.value.signers);
    }
  }

  /** A quorum is always at least one member, at least two when there are two, and never more
      than the group. */
  lemma ThresholdInBounds(calls: seq<(bool, Op)>)
    ensures var s := Run(calls).0;
            s.group.Some? ==>
              && NoDuplicates(s.group.value.signers)
              && 1 <= s.group.value.threshold <= |s.group.value.signers|
              && (|s.group.value.signers| >= 2 ==> s.group.value.threshold >= 2)
  {
    RunIsTallied(calls);
  }

  /** The hashes of the accepted upgrades of a history, oldest first. */
  function Upgrades(history: seq<Op>): seq<Hash> {
    if history == [] then []
    else
      var last := history[|history| - 1];
      Upgrades(history[..|history| - 1]) + if last.OpUpgrade? then [last.hash] else []
  }

  /** Code is installed by accepted upgrades and by nothing else. */
  lemma {:induction false} InstalledByUpgrades(calls: seq<(bool, Op)>)
    ensures Run(calls).0.installed == Upgrades(Run(calls).1)
  {
    if calls != [] {
      var n := |calls| - 1;
      InstalledByUpgrades(calls[..n]);
      var (s, history) := Run(calls[..n]);
      assert (history + [calls[n].1])[..|history|] == history;
    }
  }

  /** An accepted upgrade uses the approvals up: right afterwards the same hash is refused. */
  lemma UpgradeConsumesApprovals(calls: seq<(bool, Op)>, hash: Hash)
    requires Upgrade(Run(calls).0, hash).Ok?
    ensures Upgrade(Upgrade(Run(calls).0, hash).value, hash) == Err(InsufficientApprovals)
  {
    ThresholdInBounds(calls);
  }

  // ---------- the contract on stored fields ----------

  class Registry {
    var group: Option<Group>
    var upgradeApprovals: map<Hash, seq<Address>>
    var configApprovals: map<Group, seq<Address>>
    var installed: seq<Hash>

    ghost function Now(): State
      reads this
    {
      State(group, upgradeApprovals, configApprovals, installed)
    }

    constructor ()
      ensures Now() == BLANK
    {
      group, upgradeApprovals, configApprovals, installed := None, map[], map[], [];
    }

    method ApproveMultisigConfig(signed: bool, signers: seq<Address>, threshold: nat, signer: Address)
      returns (r: Result<(), Error>)
      modifies this
      ensures Performed(ApproveConfig(old(Now()), signed, signers, threshold, signer), old(Now()), Now(), r)
    {
      var invalid := ValidateMultisigConfig(signers, threshold);
      if invalid.Some? {
        return Err(invalid.value);
      }
      if group == None {
        return Err(MultisigNotInitialized);
      }
      if signer !in group.value.signers {
        return Err(NotMultisigSigner);
      }
      if !signed {
        return Err(NotAuthorized);
      }
      var sorted := SortedMultisigSigners(signers);
      var key := Group(sorted, threshold);
      var approvals := if key in configApprovals then configApprovals[key] else [];
      if signer in approvals {
        return Err(AlreadyApproved);
      }
      configApprovals := configApprovals[key := approvals + [signer]];
      return Ok(());
    }

    method StoreMultisigConfig(signers: seq<Address>, threshold: nat) returns (r: Result<(), Error>)
      modifies this
      ensures Performed(StoreConfig(old(Now()), signers, threshold), old(Now()), Now(), r)
    {
      var invalid := ValidateMultisigConfig(signers, threshold);
      if invalid.Some? {
        return Err(invalid.value);
      }
      var sorted := SortedMultisigSigners(signers);
      if group.Some? {
        var key := Group(sorted, threshold);
        var stored := if key in configApprovals then configApprovals[key] else [];
        var counted := LoadEffectiveApprovals(stored, group.value.signers);
        if |counted| < group.value.threshold {
          return Err(InsufficientApprovals);
        }
        configApprovals := configApprovals - {key};
      }
      group := Some(Group(sorted, threshold));
      return Ok(());
    }

    method Approve(signed: bool, signer: Address, hash: Hash) returns (r: Result<(), Error>)
      modifies this
      ensures Performed(ApproveUpgrade(old(Now()), signed, signer, hash), old(Now()), Now(), r)
    {
      if group == None {
        return Err(MultisigNotInitialized);
      }
      if signer !in group.value.signers {
        return Err(NotMultisigSigner);
      }
      if !signed {
        return Err(NotAuthorized);
      }
      var approvals := if hash in upgradeApprovals then upgradeApprovals[hash] else [];
      if signer in approvals {
        return Err(AlreadyApproved);
      }
      upgradeApprovals := upgradeApprovals[hash := approvals + [signer]];
      return Ok(());
    }

    method Revoke(signed: bool, signer: Address, hash: Hash) returns (r: Result<(), Error>)
      modifies this
      ensures Performed(RevokeUpgradeApproval(old(Now()), signed, signer, hash), old(Now()), Now(), r)
    {
      if group == None {
        return Err(MultisigNotInitialized);
      }
      if signer !in group.value.signers {
        return Err(NotMultisigSigner);
      }
      if !signed {
        return Err(NotAuthorized);
      }
      var approvals := if hash in upgradeApprovals then upgradeApprovals[hash] else [];
      if signer in approvals {
        var remaining := Without(approvals, signer);
        if remaining == [] {
          upgradeApprovals := upgradeApprovals - {hash};
        } else {
          upgradeApprovals := upgradeApprovals[hash := remaining];
        }
      }
      return Ok(());
    }

    method PerformUpgrade(hash: Hash) returns (r: Result<(), Error>)
      modifies this
      ensures Performed(Upgrade(old(Now()), hash), old(Now()), Now(), r)
    {
      if group == None {
        return Err(MultisigNotInitialized);
      }
      var stored := if hash in upgradeApprovals then upgradeApprovals[hash] else [];
      var approvals := LoadEffectiveApprovals(stored, group.value.signers);
      if |approvals| < group.value.threshold {
        return Err(InsufficientApprovals);
      }
      installed := installed + [hash];
      upgradeApprovals := upgradeApprovals - {hash};
      return Ok(());
    }
  }
}
