/** Runs from a new contract to each of the ways in which a batch of timelocked actions and
    their execution one by one come apart. */
module BatchWitnesses {
  import opened ByteOrder
  import opened Governance
  import opened Wrappers
  import Multisig
  import Roles
  import Timelock

  const A_DAY: int := Timelock.SECONDS_IN_24H

  /** One signer at a given time. */
  function By(signer: Address, now: int): Call {
    Timelock.Call({signer}, now)
  }

  // ---------- steps of a run ----------

  /** A contract with an admin and this group and approvals, and nothing else yet. */
  ghost predicate Holds(s: Timelock.State, settings: Timelock.Settings, admin: Address, m: Multisig.State) {
    s == Start(settings).state.(roles := s.roles, multisig := m) && s.roles.admin == Some(admin)
  }

  /** A state with exactly two queued entries, both due after a day. */
  ghost predicate TwoQueued(
      s: Timelock.State, admin: Address, m: Multisig.State, a: Timelock.Action, b: Timelock.Action)
  {
    && !s.frozen && !s.halted && s.roles.admin == Some(admin) && s.multisig == m
    && s.entries == map[1 := Timelock.Entry(0, a), 2 := Timelock.Entry(0, b)]
  }

  lemma AdvanceOnce(s: Timelock.State, calls: seq<(Call, Op)>, i: nat)
    requires i < |calls|
    ensures AdvanceAll(s, calls[i..]) == AdvanceAll(Advance(s, calls[i].0, calls[i].1), calls[i + 1..])
  {
    assert calls[i..][0] == calls[i] && calls[i..][1..] == calls[i + 1..];
  }

  /** The first call seats the admin. */
  lemma Initialized(settings: Timelock.Settings, admin: Address, calls: seq<(Call, Op)>) returns (s: Timelock.State)
    requires calls != [] && calls[0] == (By(admin, 0), OpRoles(Roles.OpInitialize(admin)))
    ensures Holds(s, settings, admin, Multisig.BLANK)
    ensures Run(Start(settings), calls).state == AdvanceAll(s, calls[1..])
  {
    s := Advance(Start(settings).state, calls[0].0, calls[0].1);
    RunAdvances(Start(settings), calls);
    assert calls[0..] == calls;
    AdvanceOnce(Start(settings).state, calls, 0);
  }

  /** A call that changes the group or the approvals. */
  lemma Administered(
      s: Timelock.State, settings: Timelock.Settings, admin: Address, m: Multisig.State, calls: seq<(Call, Op)>,
      i: nat, signer: Address, op: Multisig.Op, n: Multisig.State) returns (t: Timelock.State)
    requires i < |calls| && calls[i] == (By(signer, 0), OpMultisig(op)) && Holds(s, settings, admin, m)
    requires match op
             case OpSetConfig(_, _) => signer == admin
             case OpApproveConfig(_, _, member) => signer == member
             case OpApprove(member, _) => signer == member
             case _ => false
    requires Multisig.Apply(m, true, op) == Ok(n)
    ensures Holds(t, settings, admin, n)
    ensures AdvanceAll(s, calls[i..]) == AdvanceAll(t, calls[i + 1..])
  {
    t := Advance(s, calls[i].0, calls[i].1);
    AdvanceOnce(s, calls, i);
  }

  /** The last two calls queue two actions. */
  lemma QueuedTwo(
      s: Timelock.State, settings: Timelock.Settings, admin: Address, m: Multisig.State, calls: seq<(Call, Op)>,
      a: Timelock.Action, b: Timelock.Action)
    requires |calls| >= 2 && Holds(s, settings, admin, m)
    requires calls[|calls| - 2] == (By(admin, 0), OpQueue(a)) && calls[|calls| - 1] == (By(admin, 0), OpQueue(b))
    ensures TwoQueued(AdvanceAll(s, calls[|calls| - 2..]), admin, m, a, b)
  {
    var i := |calls| - 2;
    var t := Advance(s, By(admin, 0), OpQueue(a));
    AdvanceOnce(s, calls, i);
    AdvanceOnce(t, calls, i + 1);
    assert calls[i + 2..] == [];
  }

  // ---------- group and approvals ----------

  function OneOf(signer: Address): Multisig.Group {
    Multisig.ConfigKey([signer], 1)
  }

  lemma SortOne(signer: Address)
    ensures Sort([signer]) == [signer]
    ensures Multisig.ConfigError([signer], 1) == None
    ensures Multisig.Effective([signer], [signer]) == [signer]
  {
    SortSorts([signer]);
    Multisig.SortKeepsMembers([signer], Sort([signer])[0]);
    assert [signer][..0] == [];
  }

  lemma SortTwo(a: Address, b: Address)
    requires a != b
    ensures a in Sort([a, b]) && b in Sort([a, b])
    ensures Multisig.ConfigError([a, b], 2) == None && Multisig.ConfigError(Sort([a, b]), 2) == None
    ensures Multisig.Effective([a], Sort([a, b])) == [a] && Multisig.Effective([a, b], Sort([a, b])) == [a, b]
  {
    Multisig.SortKeepsMembers([a, b], a);
    Multisig.SortKeepsMembers([a, b], b);
    Multisig.SortKeepsValidity([a, b], 2);
    assert [a][..0] == [] && [a, b][..1] == [a];
    assert [a] + [b] == [a, b];
  }

  lemma Founds(signers: seq<Address>, threshold: nat)
    requires Multisig.ConfigError(signers, threshold) == None
    ensures Multisig.Apply(Multisig.BLANK, true, Multisig.OpSetConfig(signers, threshold)) ==
            Ok(Multisig.State(Some(Multisig.ConfigKey(signers, threshold)), map[], map[], []))
  {
  }

  lemma Approves(group: Multisig.Group, signer: Address, hash: Multisig.Hash)
    requires signer in group.signers
    ensures Multisig.Apply(Multisig.State(Some(group), map[], map[], []), true, Multisig.OpApprove(signer, hash)) ==
            Ok(Multisig.State(Some(group), map[hash := [signer]], map[], []))
  {
    assert [] + [signer] == [signer];
  }

  lemma ApprovesRotation(
      group: Multisig.Group, approvals: map<Multisig.Hash, seq<Address>>, signer: Address, target: Address)
    requires signer in group.signers
    ensures Multisig.Apply(Multisig.State(Some(group), approvals, map[], []), true,
                           Multisig.OpApproveConfig([target], 1, signer)) ==
            Ok(Multisig.State(Some(group), approvals, map[OneOf(target) := [signer]], []))
  {
    SortOne(target);
    assert [] + [signer] == [signer];
  }

  lemma ApprovesRotationToo(
      group: Multisig.Group, approvals: map<Multisig.Hash, seq<Address>>, first: Address, signer: Address,
      target: Address)
    requires signer in group.signers && first != signer
    ensures Multisig.Apply(Multisig.State(Some(group), approvals, map[OneOf(target) := [first]], []), true,
                           Multisig.OpApproveConfig([target], 1, signer)) ==
            Ok(Multisig.State(Some(group), approvals, map[OneOf(target) := [first, signer]], []))
  {
    SortOne(target);
    var key := OneOf(target);
    assert signer !in [first] && [first] + [signer] == [first, signer];
    assert map[key := [first]][key := [first, signer]] == map[key := [first, signer]];
  }

  // ---------- the runs ----------

  /** The admin hands its seat over inside a batch. */
  lemma HandoverIsReached(
      settings: Timelock.Settings, admin: Address, heir: Address, limit: int, calls: seq<(Call, Op)>)
    requires heir != admin && |calls| == 3
    requires calls[0] == (By(admin, 0), OpRoles(Roles.OpInitialize(admin)))
    requires calls[1] == (By(admin, 0), OpQueue(Timelock.TransferAdmin(heir)))
    requires calls[2] == (By(admin, 0), OpQueue(Timelock.SetMinLimit(limit)))
    ensures var s := Run(Start(settings), calls).state;
            && Timelock.ExecuteBatch(s, By(admin, A_DAY), [1, 2]).Ok?
            && Timelock.ExecuteEach(s, By(admin, A_DAY), [1, 2]) == Err(Timelock.NotAuthorized)
  {
    var s1 := Initialized(settings, admin, calls);
    QueuedTwo(s1, settings, admin, Multisig.BLANK, calls, Timelock.TransferAdmin(heir), Timelock.SetMinLimit(limit));
    hide Run, AdvanceAll, Holds;
    Timelock.BatchOutlivesHandover(Run(Start(settings), calls).state, By(admin, A_DAY), 1, 2, heir, limit);
  }

  /** One quorum for the same upgrade twice inside a batch. */
  lemma ReuseIsReached(
      settings: Timelock.Settings, admin: Address, a: Address, hash: Multisig.Hash, calls: seq<(Call, Op)>)
    requires |calls| == 5
    requires calls[0] == (By(admin, 0), OpRoles(Roles.OpInitialize(admin)))
    requires calls[1] == (By(admin, 0), OpMultisig(Multisig.OpSetConfig([a], 1)))
    requires calls[2] == (By(a, 0), OpMultisig(Multisig.OpApprove(a, hash)))
    requires calls[3] == (By(admin, 0), OpQueue(Timelock.Upgrade(hash)))
    requires calls[4] == (By(admin, 0), OpQueue(Timelock.Upgrade(hash)))
    ensures var s := Run(Start(settings), calls).state;
            && Timelock.ExecuteBatch(s, By(admin, A_DAY), [1, 2]).Ok?
            && Timelock.ExecuteBatch(s, By(admin, A_DAY), [1, 2]).value.multisig.installed == [hash, hash]
            && Timelock.ExecuteEach(s, By(admin, A_DAY), [1, 2])
               == Err(Timelock.OfMultisig(Multisig.InsufficientApprovals))
  {
    hide Run, AdvanceAll, Holds, Sort, Multisig.Apply;
    SortOne(a);
    var m1 := Multisig.State(Some(OneOf(a)), map[], map[], []);
    var m2 := Multisig.State(Some(OneOf(a)), map[hash := [a]], map[], []);
    Founds([a], 1);
    Approves(OneOf(a), a, hash);
    var s1 := Initialized(settings, admin, calls);
    var s2 := Administered(s1, settings, admin, Multisig.BLANK, calls, 1, admin, calls[1].1.multisig, m1);
    var s3 := Administered(s2, settings, admin, m1, calls, 2, a, calls[2].1.multisig, m2);
    QueuedTwo(s3, settings, admin, m2, calls, Timelock.Upgrade(hash), Timelock.Upgrade(hash));
    Timelock.BatchReusesQuorum(Run(Start(settings), calls).state, By(admin, A_DAY), 1, 2, hash);
    assert [] + [hash, hash] == [hash, hash];
  }

  /** The group {a}, its approvals of the code and of the rotation to {b}, and the two queued
      actions. */
  ghost predicate RotatesAway(calls: seq<(Call, Op)>, admin: Address, a: Address, b: Address, hash: Multisig.Hash) {
    && |calls| == 6
    && calls[0] == (By(admin, 0), OpRoles(Roles.OpInitialize(admin)))
    && calls[1] == (By(admin, 0), OpMultisig(Multisig.OpSetConfig([a], 1)))
    && calls[2] == (By(a, 0), OpMultisig(Multisig.OpApprove(a, hash)))
    && calls[3] == (By(a, 0), OpMultisig(Multisig.OpApproveConfig([b], 1, a)))
    && calls[4] == (By(admin, 0), OpQueue(Timelock.SetMultisigConfig([b], 1)))
    && calls[5] == (By(admin, 0), OpQueue(Timelock.Upgrade(hash)))
  }

  lemma RotatesAwayRuns(
      settings: Timelock.Settings, admin: Address, a: Address, b: Address, hash: Multisig.Hash, calls: seq<(Call, Op)>)
    requires RotatesAway(calls, admin, a, b, hash)
    ensures TwoQueued(Run(Start(settings), calls).state, admin,
                      Multisig.State(Some(OneOf(a)), map[hash := [a]], map[OneOf(b) := [a]], []),
                      Timelock.SetMultisigConfig([b], 1), Timelock.Upgrade(hash))
  {
    hide Run, AdvanceAll, Holds, TwoQueued, Sort, Multisig.Apply;
    SortOne(a);
    var group := OneOf(a);
    var m1 := Multisig.State(Some(group), map[], map[], []);
    var m2 := Multisig.State(Some(group), map[hash := [a]], map[], []);
    var m3 := Multisig.State(Some(group), map[hash := [a]], map[OneOf(b) := [a]], []);
    Founds([a], 1);
    Approves(group, a, hash);
    ApprovesRotation(group, map[hash := [a]], a, b);
    var s1 := Initialized(settings, admin, calls);
    var s2 := Administered(s1, settings, admin, Multisig.BLANK, calls, 1, admin, calls[1].1.multisig, m1);
    var s3 := Administered(s2, settings, admin, m1, calls, 2, a, calls[2].1.multisig, m2);
    var s4 := Administered(s3, settings, admin, m2, calls, 3, a, calls[3].1.multisig, m3);
    QueuedTwo(s4, settings, admin, m3, calls, Timelock.SetMultisigConfig([b], 1), Timelock.Upgrade(hash));
  }

  /** An upgrade that rides on the old group after a rotation inside a batch. */
  lemma IgnoredRotationIsReached(
      settings: Timelock.Settings, admin: Address, a: Address, b: Address, hash: Multisig.Hash, calls: seq<(Call, Op)>)
    requires a != b && RotatesAway(calls, admin, a, b, hash)
    ensures var s := Run(Start(settings), calls).state;
            && Timelock.ExecuteBatch(s, By(admin, A_DAY), [1, 2]).Ok?
            && Timelock.ExecuteEach(s, By(admin, A_DAY), [1, 2])
               == Err(Timelock.OfMultisig(Multisig.InsufficientApprovals))
  {
    RotatesAwayRuns(settings, admin, a, b, hash, calls);
    SortOne(a);
    SortOne(b);
    hide Run, RotatesAway, Sort;
    assert [a][..0] == [] && Multisig.Effective([a], [b]) == [];
    Timelock.BatchIgnoresRotation(Run(Start(settings), calls).state, By(admin, A_DAY), 1, 2, [b], 1, hash);
  }

  /** The group {a, b} with threshold 2, a's approval of the code, both approvals of the
      rotation to {a}, and the two queued actions. */
  ghost predicate RotatesToOne(calls: seq<(Call, Op)>, admin: Address, a: Address, b: Address, hash: Multisig.Hash) {
    && |calls| == 7
    && calls[0] == (By(admin, 0), OpRoles(Roles.OpInitialize(admin)))
    && calls[1] == (By(admin, 0), OpMultisig(Multisig.OpSetConfig([a, b], 2)))
    && calls[2] == (By(a, 0), OpMultisig(Multisig.OpApprove(a, hash)))
    && calls[3] == (By(a, 0), OpMultisig(Multisig.OpApproveConfig([a], 1, a)))
    && calls[4] == (By(b, 0), OpMultisig(Multisig.OpApproveConfig([a], 1, b)))
    && calls[5] == (By(admin, 0), OpQueue(Timelock.SetMultisigConfig([a], 1)))
    && calls[6] == (By(admin, 0), OpQueue(Timelock.Upgrade(hash)))
  }

  lemma RotatesToOneRuns(
      settings: Timelock.Settings, admin: Address, a: Address, b: Address, hash: Multisig.Hash, calls: seq<(Call, Op)>)
    requires a != b && RotatesToOne(calls, admin, a, b, hash)
    ensures TwoQueued(Run(Start(settings), calls).state, admin,
                      Multisig.State(
                        Some(Multisig.ConfigKey([a, b], 2)), map[hash := [a]], map[OneOf(a) := [a, b]], []),
                      Timelock.SetMultisigConfig([a], 1), Timelock.Upgrade(hash))
  {
    hide Run, AdvanceAll, Holds, TwoQueued, Sort, Multisig.Apply;
    SortTwo(a, b);
    var group := Multisig.ConfigKey([a, b], 2);
    var m1 := Multisig.State(Some(group), map[], map[], []);
    var m2 := Multisig.State(Some(group), map[hash := [a]], map[], []);
    var m3 := Multisig.State(Some(group), map[hash := [a]], map[OneOf(a) := [a]], []);
    var m4 := Multisig.State(Some(group), map[hash := [a]], map[OneOf(a) := [a, b]], []);
    Founds([a, b], 2);
    Approves(group, a, hash);
    ApprovesRotation(group, map[hash := [a]], a, a);
    ApprovesRotationToo(group, map[hash := [a]], a, b, a);
    var s1 := Initialized(settings, admin, calls);
    var s2 := Administered(s1, settings, admin, Multisig.BLANK, calls, 1, admin, calls[1].1.multisig, m1);
    var s3 := Administered(s2, settings, admin, m1, calls, 2, a, calls[2].1.multisig, m2);
    var s4 := Administered(s3, settings, admin, m2, calls, 3, a, calls[3].1.multisig, m3);
    var s5 := Administered(s4, settings, admin, m3, calls, 4, b, calls[4].1.multisig, m4);
    QueuedTwo(s5, settings, admin, m4, calls, Timelock.SetMultisigConfig([a], 1), Timelock.Upgrade(hash));
  }

  /** A batch that is refused for want of the old quorum, although its rotation brings the
      new one. */
  lemma RefusalIsReached(
      settings: Timelock.Settings, admin: Address, a: Address, b: Address, hash: Multisig.Hash, calls: seq<(Call, Op)>)
    requires a != b && RotatesToOne(calls, admin, a, b, hash)
    ensures var s := Run(Start(settings), calls).state;
            && Timelock.ExecuteBatch(s, By(admin, A_DAY), [1, 2]).Err?
            && Timelock.ExecuteEach(s, By(admin, A_DAY), [1, 2]).Ok?
            && Timelock.ExecuteEach(s, By(admin, A_DAY), [1, 2]).value.multisig.installed == [hash]
  {
    RotatesToOneRuns(settings, admin, a, b, hash, calls);
    SortOne(a);
    SortTwo(a, b);
    hide Run, RotatesToOne, Sort;
    var s := Run(Start(settings), calls).state;
    Timelock.BatchRefusesNewQuorum(s, By(admin, A_DAY), 1, 2, [a], 1, hash);
    assert [] + [hash] == [hash];
  }
}
