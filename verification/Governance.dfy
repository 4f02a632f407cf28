/** The router's administration as a whole: direct calls and timelocked actions on the same
    roles, signer group and approvals. */
module Governance {
  import opened ByteOrder
  import opened Wrappers
  import Multisig
  import Roles
  import Timelock

  type Call = Timelock.Call

  /** One installation of code, and whether the group then in force had a quorum of standing
      approvals for it at that moment. */
  datatype Installation = Installation(hash: Multisig.Hash, backed: bool)

  /** The state, the accepted operations on group and approvals, and the installations, oldest
      first. */
  datatype World = World(state: Timelock.State, history: seq<Multisig.Op>, installations: seq<Installation>)

  datatype Op =
    | OpQueue(action: Timelock.Action)
    | OpExecute(nonce: nat)
    | OpExecuteBatch(nonces: seq<nat>)
    | OpCancel(nonce: nat)
    | OpMultisig(multisig: Multisig.Op)
    | OpRoles(roles: Roles.Op)
    | OpElsewhere(frozen: bool, halted: bool, settings: Timelock.Settings)

  /** Whether the account whose signature the call needs has given it. */
  predicate Signed(s: Timelock.State, call: Call, op: Multisig.Op) {
    match op
    case OpApproveConfig(_, _, signer) => signer in call.signers
    case OpApprove(signer, _) => signer in call.signers
    case OpRevoke(signer, _) => signer in call.signers
    case OpUpgrade(_) => true
    case _ => s.roles.admin.Some? && s.roles.admin.value in call.signers
  }

  function Apply(s: Timelock.State, call: Call, op: Op): Result<Timelock.State, Timelock.Error> {
    match op
    case OpQueue(action) => Timelock.QueueAction(s, call, action)
    case OpExecute(nonce) => Timelock.ExecuteAction(s, call, nonce)
    case OpExecuteBatch(nonces) => Timelock.ExecuteBatch(s, call, nonces)
    case OpCancel(nonce) => Timelock.CancelAction(s, call, nonce)
    case OpMultisig(m) =>
      (match Multisig.Apply(s.multisig, Signed(s, call, m), m)
       case Ok(t) => Ok(s.(multisig := t))
       case Err(e) => Err(Timelock.OfMultisig(e)))
    case OpRoles(r) =>
      (match Roles.Apply(s.roles, call.signers, call.now, r)
       case Ok(t) => Ok(s.(roles := t))
       case Err(e) => Err(Timelock.OfRoles(e)))
    case OpElsewhere(frozen, halted, settings) => Ok(s.(frozen := frozen, halted := halted, settings := settings))
  }

  /** Members approve and revoke for themselves only, and the admin configures and cancels; an
      upgrade needs nobody's signature. Beyond that an operation is accepted as by itself. */
  lemma AdministeredOnWord(s: Timelock.State, call: Call, m: Multisig.Op)
    ensures Apply(s, call, OpMultisig(m)).Ok? <==>
              && Multisig.Apply(s.multisig, true, m).Ok?
              && (m.OpApproveConfig? || m.OpApprove? || m.OpRevoke? ==> m.signer in call.signers)
              && (m.OpSetConfig? || m.OpCancel? ==> s.roles.admin.Some? && s.roles.admin.value in call.signers)
    ensures Apply(s, call, OpMultisig(m)).Ok? ==>
              Apply(s, call, OpMultisig(m)).value == s.(multisig := Multisig.Apply(s.multisig, true, m).value)
  {
  }

  // ---------- what calls leave behind ----------

  /** A timelocked action as an operation on group and approvals. */
  function Trace(action: Timelock.Action): seq<Multisig.Op> {
    match action
    case Upgrade(hash) => [Multisig.OpUpgrade(hash)]
    case SetMultisigConfig(signers, threshold) => [Multisig.OpSetConfig(signers, threshold)]
    case _ => []
  }

  /** The installation that an operation is, judged by the group and the approvals before it. */
  ghost function Judged(w: World, op: Multisig.Op): seq<Installation> {
    if op.OpUpgrade? then [Installation(op.hash, Multisig.Backed(w.state.multisig, w.history, op.hash))] else []
  }

  /** The world after one action fires. */
  ghost function Fired(w: World, now: int, nonce: nat, action: Timelock.Action): World
    requires Timelock.Fire(w.state, now, nonce, action).Ok?
  {
    var t := Timelock.Fire(w.state, now, nonce, action).value;
    var trace := Trace(action);
    World(t, w.history + trace, w.installations + if trace == [] then [] else Judged(w, trace[0]))
  }

  /** The world after the actions fire in order, each installation judged at its own moment. */
  ghost function FireAll(w: World, now: int, nonces: seq<nat>, actions: seq<Timelock.Action>): World
    requires |nonces| == |actions| && Timelock.FireAll(w.state, now, nonces, actions).Ok?
    decreases |nonces|
  {
    if nonces == [] then w
    else FireAll(Fired(w, now, nonces[0], actions[0]), now, nonces[1..], actions[1..])
  }

  lemma {:induction false} FireAllState(w: World, now: int, nonces: seq<nat>, actions: seq<Timelock.Action>)
    requires |nonces| == |actions| && Timelock.FireAll(w.state, now, nonces, actions).Ok?
    ensures FireAll(w, now, nonces, actions).state == Timelock.FireAll(w.state, now, nonces, actions).value
    decreases |nonces|
  {
    if nonces != [] {
      FireAllState(Fired(w, now, nonces[0], actions[0]), now, nonces[1..], actions[1..]);
    }
  }

  /** The world after an accepted call. */
  ghost function Next(w: World, call: Call, op: Op): World
    requires Apply(w.state, call, op).Ok?
  {
    match op
    case OpExecute(nonce) =>
      SingleFire(w.state, call.now, nonce, w.state.entries[nonce].action);
      FireAll(w, call.now, [nonce], [w.state.entries[nonce].action])
    case OpExecuteBatch(nonces) =>
      if nonces == [] then w
      else
        Timelock.CheckedAreQueued(w.state, call, nonces);
        FireAll(w, call.now, nonces, Timelock.ActionsOf(w.state, nonces))
    case OpMultisig(m) =>
      World(Apply(w.state, call, op).value, w.history + [m], w.installations + Judged(w, m))
    case _ => w.(state := Apply(w.state, call, op).value)
  }

  lemma SingleFire(s: Timelock.State, now: int, nonce: nat, action: Timelock.Action)
    ensures Timelock.FireAll(s, now, [nonce], [action]) == Timelock.Fire(s, now, nonce, action)
  {
    assert [nonce][1..] == [] && [action][1..] == [];
    if Timelock.Fire(s, now, nonce, action).Ok? {
      var t := Timelock.Fire(s, now, nonce, action).value;
      assert Timelock.FireAll(t, now, [nonce][1..], [action][1..]) == Ok(t);
    }
  }

  ghost function Step(w: World, call: Call, op: Op): World {
    if Apply(w.state, call, op).Ok? then Next(w, call, op) else w
  }

  ghost function Run(w: World, calls: seq<(Call, Op)>): World
    decreases |calls|
  {
    if calls == [] then w else Run(Step(w, calls[0].0, calls[0].1), calls[1..])
  }

  function Start(settings: Timelock.Settings): World {
    World(Timelock.State(false, false, 0, map[], settings, Roles.BLANK, Multisig.BLANK), [], [])
  }

  /** The world moves to the state that the call computes. */
  lemma StepState(w: World, call: Call, op: Op)
    ensures Step(w, call, op).state == if Apply(w.state, call, op).Ok? then Apply(w.state, call, op).value else w.state
  {
    if Apply(w.state, call, op).Ok? {
      match op {
        case OpExecute(nonce) =>
          SingleFire(w.state, call.now, nonce, w.state.entries[nonce].action);
          FireAllState(w, call.now, [nonce], [w.state.entries[nonce].action]);
        case OpExecuteBatch(nonces) =>
          if nonces != [] {
            Timelock.CheckedAreQueued(w.state, call, nonces);
            FireAllState(w, call.now, nonces, Timelock.ActionsOf(w.state, nonces));
          }
        case _ =>
      }
    }
  }

  /** The states of a run, without the records kept beside them. */
  function Advance(s: Timelock.State, call: Call, op: Op): Timelock.State {
    match Apply(s, call, op)
    case Ok(t) => t
    case Err(_) => s
  }

  function AdvanceAll(s: Timelock.State, calls: seq<(Call, Op)>): Timelock.State
    decreases |calls|
  {
    if calls == [] then s else AdvanceAll(Advance(s, calls[0].0, calls[0].1), calls[1..])
  }

  lemma {:induction false} RunAdvances(w: World, calls: seq<(Call, Op)>)
    ensures Run(w, calls).state == AdvanceAll(w.state, calls)
    decreases |calls|
  {
    hide Step, Apply;
    if calls != [] {
      StepState(w, calls[0].0, calls[0].1);
      RunAdvances(Step(w, calls[0].0, calls[0].1), calls[1..]);
    }
  }

  // ---------- the tally over combined runs ----------

  function Hashes(installations: seq<Installation>): seq<Multisig.Hash> {
    seq(|installations|, i requires 0 <= i < |installations| => installations[i].hash)
  }

  /** The stored approvals are those that stand in the history, and the code installed is what
      the installations list. */
  ghost predicate Counted(w: World) {
    && Multisig.Tallied(w.state.multisig, w.history)
    && Multisig.Founded(w.state.multisig)
    && w.state.multisig.installed == Hashes(w.installations)
  }

  lemma CountedFire(w: World, now: int, nonce: nat, action: Timelock.Action)
    requires Counted(w) && Timelock.Fire(w.state, now, nonce, action).Ok?
    ensures Counted(Fired(w, now, nonce, action))
  {
    var s, t := w.state.multisig, Timelock.Fire(w.state, now, nonce, action).value.multisig;
    match action {
      case Upgrade(hash) =>
        CountedOp(s, t, w.history, Multisig.OpUpgrade(hash));
        HashesAppend(w.installations, Judged(w, Multisig.OpUpgrade(hash)));
      case SetMultisigConfig(signers, threshold) =>
        assert Multisig.Apply(s, true, Multisig.OpSetConfig(signers, threshold)) == Ok(t);
        CountedOp(s, t, w.history, Multisig.OpSetConfig(signers, threshold));
        HashesAppend(w.installations, []);
      case _ =>
        assert w.history + Trace(action) == w.history;
        HashesAppend(w.installations, []);
    }
  }

  lemma HashesAppend(a: seq<Installation>, b: seq<Installation>)
    ensures Hashes(a + b) == Hashes(a) + Hashes(b)
  {
  }

  lemma CountedOp(s: Multisig.State, t: Multisig.State, history: seq<Multisig.Op>, op: Multisig.Op)
    requires Multisig.Tallied(s, history) && Multisig.Founded(s) && Multisig.Becomes(s, t, op)
    ensures Multisig.Tallied(t, history + [op]) && Multisig.Founded(t)
  {
    Multisig.TalliedStep(s, t, history, op);
    Multisig.FoundedStep(s, t, op);
  }

  lemma {:induction false} CountedFireAll(w: World, now: int, nonces: seq<nat>, actions: seq<Timelock.Action>)
    requires |nonces| == |actions| && Timelock.FireAll(w.state, now, nonces, actions).Ok? && Counted(w)
    ensures Counted(FireAll(w, now, nonces, actions))
    decreases |nonces|
  {
    if nonces != [] {
      CountedFire(w, now, nonces[0], actions[0]);
      CountedFireAll(Fired(w, now, nonces[0], actions[0]), now, nonces[1..], actions[1..]);
    }
  }

  lemma CountedNext(w: World, call: Call, op: Op)
    requires Counted(w) && Apply(w.state, call, op).Ok?
    ensures Counted(Next(w, call, op))
  {
    match op {
      case OpExecute(nonce) =>
        SingleFire(w.state, call.now, nonce, w.state.entries[nonce].action);
        CountedFireAll(w, call.now, [nonce], [w.state.entries[nonce].action]);
      case OpExecuteBatch(nonces) =>
        if nonces != [] {
          Timelock.CheckedAreQueued(w.state, call, nonces);
          CountedFireAll(w, call.now, nonces, Timelock.ActionsOf(w.state, nonces));
        }
      case OpMultisig(m) =>
        var t := Apply(w.state, call, op).value.multisig;
        assert Multisig.Apply(w.state.multisig, Signed(w.state, call, m), m) == Ok(t);
        CountedOp(w.state.multisig, t, w.history, m);
        HashesAppend(w.installations, Judged(w, m));
      case _ =>
    }
  }

  /** After every run of direct and timelocked calls, single or in batches: the stored
      approvals are exactly the standing ones, and code is installed by the listed
      installations and nothing else. */
  lemma {:induction false} RunIsCounted(w: World, calls: seq<(Call, Op)>)
    requires Counted(w)
    ensures Counted(Run(w, calls))
    decreases |calls|
  {
    hide Counted, Next, Apply;
    if calls != [] {
      if Apply(w.state, calls[0].0, calls[0].1).Ok? {
        CountedNext(w, calls[0].0, calls[0].1);
      }
      RunIsCounted(Step(w, calls[0].0, calls[0].1), calls[1..]);
    }
  }

  lemma StartIsCounted(settings: Timelock.Settings)
    ensures Counted(Start(settings))
  {
  }

  /** So quorums mean the same for every reachable state: an upgrade, direct or timelocked and
      executed alone, goes through exactly when enough distinct members of the group in force
      stand by it, and so does a rotation; and the group is always valid. */
  lemma QuorumsInEveryRun(
      settings: Timelock.Settings, calls: seq<(Call, Op)>, hash: Multisig.Hash, signers: seq<Address>, threshold: nat)
    ensures var w := Run(Start(settings), calls);
            var m := w.state.multisig;
            && Multisig.ValidGroup(m)
            && m.installed == Hashes(w.installations)
            && (Multisig.Upgrade(m, hash).Ok? <==> Multisig.Backed(m, w.history, hash))
            && (m.group.Some? ==>
                  (Multisig.StoreConfig(m, signers, threshold).Ok? <==>
                    && Multisig.ConfigError(signers, threshold) == None
                    && |Multisig.RotationSupporters(m, w.history, Multisig.ConfigKey(signers, threshold))|
                       >= m.group.value.threshold))
  {
    StartIsCounted(settings);
    RunIsCounted(Start(settings), calls);
    var w := Run(Start(settings), calls);
    Multisig.QuorumIsSupport(w.state.multisig, w.history, hash);
    Multisig.RotationQuorumIsSupport(w.state.multisig, w.history, signers, threshold);
  }

  // ---------- which installations are backed ----------

  /** The installation that an action is, if it is one, as foreseen from what the actions before
      it will have left standing. */
  function ForeseenOne(
      s: Timelock.State, action: Timelock.Action, authority: Timelock.Authority): seq<Installation>
  {
    if action.Upgrade? then [Installation(action.hash, Timelock.Quorate(s, authority, action.hash))] else []
  }

  /** The installations of a list of actions, and whether each will be backed, read off the
      list before anything runs. */
  function Foreseen(s: Timelock.State, actions: seq<Timelock.Action>, authority: Timelock.Authority): seq<Installation>
    decreases |actions|
  {
    if actions == [] then []
    else ForeseenOne(s, actions[0], authority) + Foreseen(s, actions[1..], Timelock.After(authority, actions[0]))
  }

  lemma FiredInstalls(
      s: Timelock.State, w: World, now: int, nonce: nat, action: Timelock.Action, authority: Timelock.Authority)
    requires Timelock.Fire(w.state, now, nonce, action).Ok?
    requires Counted(w) && Timelock.Tracks(s, w.state, authority)
    ensures Fired(w, now, nonce, action).installations == w.installations + ForeseenOne(s, action, authority)
  {
    if action.Upgrade? {
      Timelock.TrackedQuorum(s, w.state, action.hash, authority);
      Multisig.QuorumIsSupport(w.state.multisig, w.history, action.hash);
    }
  }

  lemma {:induction false} FireAllInstalls(
      s: Timelock.State, w: World, now: int, nonces: seq<nat>, actions: seq<Timelock.Action>,
      authority: Timelock.Authority)
    requires |nonces| == |actions| && Timelock.FireAll(w.state, now, nonces, actions).Ok?
    requires Counted(w) && Timelock.Tracks(s, w.state, authority)
    ensures FireAll(w, now, nonces, actions).installations == w.installations + Foreseen(s, actions, authority)
    decreases |nonces|
  {
    hide Counted, Timelock.Tracks, Timelock.Fire, ForeseenOne;
    if nonces != [] {
      var action := actions[0];
      FiredInstalls(s, w, now, nonces[0], action, authority);
      CountedFire(w, now, nonces[0], action);
      Timelock.TracksFire(s, w.state, now, nonces[0], action, authority);
      var u := Fired(w, now, nonces[0], action);
      FireAllInstalls(s, u, now, nonces[1..], actions[1..], Timelock.After(authority, action));
    }
  }

  /** The installations that a call adds: a direct or single timelocked upgrade is always
      backed; one inside a batch exactly if the group in force at its place in the batch has a
      quorum for it that no earlier upgrade of the batch has used. */
  function Expected(s: Timelock.State, call: Call, op: Op): seq<Installation>
    requires Apply(s, call, op).Ok?
  {
    match op
    case OpMultisig(m) => if m.OpUpgrade? then [Installation(m.hash, true)] else []
    case OpExecute(nonce) =>
      var action := s.entries[nonce].action;
      if action.Upgrade? then [Installation(action.hash, true)] else []
    case OpExecuteBatch(nonces) =>
      if nonces == [] then []
      else
        Timelock.CheckedAreQueued(s, call, nonces);
        Foreseen(s, Timelock.ActionsOf(s, nonces), Timelock.Initial(s))
    case _ => []
  }

  lemma CallInstalls(w: World, call: Call, op: Op)
    requires Counted(w) && Apply(w.state, call, op).Ok?
    ensures Next(w, call, op).installations == w.installations + Expected(w.state, call, op)
  {
    var s := w.state;
    match op {
      case OpExecute(nonce) =>
        var action := s.entries[nonce].action;
        SingleFire(s, call.now, nonce, action);
        Timelock.TracksItself(s);
        FireAllInstalls(s, w, call.now, [nonce], [action], Timelock.Initial(s));
        assert [action][1..] == [] && Foreseen(s, [action][1..], Timelock.After(Timelock.Initial(s), action)) == [];
        if action.Upgrade? {
          Timelock.TrackedQuorum(s, s, action.hash, Timelock.Initial(s));
        }
      case OpExecuteBatch(nonces) =>
        if nonces != [] {
          Timelock.CheckedAreQueued(s, call, nonces);
          Timelock.TracksItself(s);
          FireAllInstalls(s, w, call.now, nonces, Timelock.ActionsOf(s, nonces), Timelock.Initial(s));
        }
      case OpMultisig(m) =>
        if m.OpUpgrade? {
          Multisig.QuorumIsSupport(s.multisig, w.history, m.hash);
        }
      case _ =>
    }
  }

  ghost predicate AllBacked(installations: seq<Installation>) {
    forall i :: 0 <= i < |installations| ==> installations[i].backed
  }

  /** Every accepted batch of the run keeps each of its upgrades within a quorum of its own. */
  ghost predicate BatchesQuorate(w: World, calls: seq<(Call, Op)>)
    decreases |calls|
  {
    calls == [] ||
    (&& (calls[0].1.OpExecuteBatch? && Apply(w.state, calls[0].0, calls[0].1).Ok? ==>
           AllBacked(Expected(w.state, calls[0].0, calls[0].1)))
     && BatchesQuorate(Step(w, calls[0].0, calls[0].1), calls[1..]))
  }

  /** Over every run, all code was installed on quorums of its own exactly if all batches kept
      to that; nothing else can install code without one. */
  lemma {:induction false} InstallationsAreBackedExactly(w: World, calls: seq<(Call, Op)>)
    requires Counted(w)
    ensures AllBacked(Run(w, calls).installations) <==> AllBacked(w.installations) && BatchesQuorate(w, calls)
    decreases |calls|
  {
    hide Counted, Next, Apply, Expected;
    if calls != [] {
      var (call, op) := calls[0];
      if Apply(w.state, call, op).Ok? {
        CountedNext(w, call, op);
        CallInstalls(w, call, op);
        OthersAreBacked(w.state, call, op);
        BackedAppend(w.installations, Expected(w.state, call, op));
      }
      InstallationsAreBackedExactly(Step(w, call, op), calls[1..]);
    }
  }

  lemma OthersAreBacked(s: Timelock.State, call: Call, op: Op)
    requires Apply(s, call, op).Ok?
    ensures !op.OpExecuteBatch? ==> AllBacked(Expected(s, call, op))
  {
  }

  lemma BackedAppend(a: seq<Installation>, b: seq<Installation>)
    ensures AllBacked(a + b) <==> AllBacked(a) && AllBacked(b)
  {
    if AllBacked(a + b) {
      forall i | 0 <= i < |a| ensures a[i].backed {
        assert (a + b)[i] == a[i];
      }
      forall i | 0 <= i < |b| ensures b[i].backed {
        assert (a + b)[|a| + i] == b[i];
      }
    }
  }
}
