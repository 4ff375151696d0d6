/**
 The last-owner guard of the staff service (apps/api/src/user/user.service.ts) as interleaved database
 transactions of one tenant. A request first snapshots the roles of its target, outside any transaction.
 Its transaction may then take the tenant's advisory lock, count the other active owners, write, and
 commit or roll back. Under READ COMMITTED a statement sees what is committed when it runs, and writes
 become visible with the commit, which also releases the lock.
 */
module OwnerGuard {
  import opened Wrappers
  import opened Links

  type UserId = nat
  type Role = string

  const OWNER: Role := "RESTAURANT_OWNER"

  datatype User = User(active: bool, deleted: bool, roles: set<Role>)

  /** The three kinds of writes on an existing user, and the creation of a user. */
  datatype Request =
    | Remove
    | Update(isActive: Option<bool>, roles: Option<set<Role>>)
    | Create(user: User)

  /** `checksLeft` counts the guard calls still ahead; `locked` says that the transaction holds the lock. */
  datatype Tx = Tx(target: UserId, request: Request, snapshot: set<Role>, checksLeft: nat, locked: bool)

  datatype State = State(users: map<UserId, User>, txs: map<nat, Tx>)

  datatype Step =
    | Snapshot(tx: nat, target: UserId, request: Request)
    | Lock(tx: nat)
    | Check(tx: nat)
    | Commit(tx: nat)
    | RollBack(tx: nat)

  ghost predicate ActiveOwner(u: User) {
    u.active && !u.deleted && OWNER in u.roles
  }

  ghost predicate HasOwner(users: map<UserId, User>) {
    exists u :: u in users && ActiveOwner(users[u])
  }

  /** The count inside `assertNotLastOwner` is positive. */
  ghost predicate HasOtherOwner(users: map<UserId, User>, target: UserId) {
    exists u :: u in users && u != target && ActiveOwner(users[u])
  }

  /** How often a request calls the guard: not at all if the snapshot shows no owner. */
  function GuardCalls(request: Request, snapshot: set<Role>): nat {
    if OWNER !in snapshot then 0
    else match request
      case Remove => 1
      case Update(isActive, roles) =>
        (if isActive == Some(false) then 1 else 0) + (if roles.Some? && OWNER !in roles.value then 1 else 0)
      case Create(_) => 0
  }

  function Write(u: User, request: Request, snapshot: set<Role>): User {
    match request
    case Remove => u.(deleted := true, active := false)
    case Update(isActive, roles) =>
      User(if isActive.Some? then isActive.value else u.active, u.deleted,
           if roles.Some? then Replaced(u.roles, snapshot, roles.value) else u.roles)
    case Create(user) => user
  }

  /** The role links that the request adds are there already, so its transaction fails. */
  predicate Refused(u: User, request: Request, snapshot: set<Role>) {
    request.Update? && request.roles.Some? && Clash(u.roles, snapshot, request.roles.value)
  }

  predicate LockFree(s: State) {
    forall t :: t in s.txs ==> !s.txs[t].locked
  }

  function Finish(s: State, tx: nat): State {
    s.(txs := s.txs - {tx})
  }

  ghost function Apply(s: State, step: Step): State {
    match step
    case Snapshot(tx, target, request) =>
      if tx in s.txs then s
      else if request.Create? then
        if target in s.users then s else s.(txs := s.txs[tx := Tx(target, request, {}, 0, false)])
      else if target !in s.users || s.users[target].deleted then s  // 404
      else
        var roles := s.users[target].roles;
        s.(txs := s.txs[tx := Tx(target, request, roles, GuardCalls(request, roles), false)])
    case Lock(tx) =>
      if tx in s.txs && s.txs[tx].checksLeft > 0 && LockFree(s)
      then s.(txs := s.txs[tx := s.txs[tx].(locked := true)]) else s
    case Check(tx) =>
      if tx !in s.txs || !s.txs[tx].locked || s.txs[tx].checksLeft == 0 then s
      else if !HasOtherOwner(s.users, s.txs[tx].target) then Finish(s, tx)  // 400, the transaction rolls back
      else s.(txs := s.txs[tx := s.txs[tx].(checksLeft := s.txs[tx].checksLeft - 1)])
    case Commit(tx) =>
      if tx !in s.txs || s.txs[tx].checksLeft > 0 then s
      else
        var t := s.txs[tx];
        if t.request.Create? then
          if t.target in s.users then Finish(s, tx) else Finish(s.(users := s.users[t.target := t.request.user]), tx)
        else if t.target !in s.users || Refused(s.users[t.target], t.request, t.snapshot) then Finish(s, tx)
        else Finish(s.(users := s.users[t.target := Write(s.users[t.target], t.request, t.snapshot)]), tx)
    case RollBack(tx) => Finish(s, tx)
  }

  ghost function Run(s: State, steps: seq<Step>): State {
    if steps == [] then s else Apply(Run(s, steps[..|steps| - 1]), steps[|steps| - 1])
  }

  /** Whether committing `request` would make an active owner `u` stop being one. */
  ghost predicate Demotes(u: User, t: Tx) {
    ActiveOwner(u) && !Refused(u, t.request, t.snapshot) && !ActiveOwner(Write(u, t.request, t.snapshot))
  }

  /** The user gained the owner role after the snapshot, so the guard was skipped. */
  ghost predicate Overtaken(s: State, tx: nat) {
    && tx in s.txs && !s.txs[tx].request.Create?
    && s.txs[tx].target in s.users && OWNER !in s.txs[tx].snapshot && OWNER in s.users[s.txs[tx].target].roles
  }

  /** No request commits a demotion of a target that gained the owner role since its snapshot. */
  ghost predicate NotOvertaken(s: State, step: Step) {
    step.Commit? && Overtaken(s, step.tx) ==> !Demotes(s.users[s.txs[step.tx].target], s.txs[step.tx])
  }

  ghost predicate GoodRun(s: State, steps: seq<Step>) {
    forall i :: 0 <= i < |steps| ==> NotOvertaken(Run(s, steps[..i]), steps[i])
  }

  /**
   What every run keeps: the lock has one holder, checks are only done by the holder, and the lock is only
   taken by requests that call the guard.
   */
  ghost predicate Locking(s: State) {
    && (forall a, b :: a in s.txs && b in s.txs && s.txs[a].locked && s.txs[b].locked ==> a == b)
    && (forall t :: t in s.txs && !s.txs[t].request.Create? ==>
          var calls := GuardCalls(s.txs[t].request, s.txs[t].snapshot);
          && s.txs[t].checksLeft <= calls
          && (s.txs[t].checksLeft < calls ==> s.txs[t].locked)
          && (s.txs[t].locked ==> calls > 0))
    && (forall t :: t in s.txs && s.txs[t].request.Create? ==> s.txs[t].checksLeft == 0 && !s.txs[t].locked)
  }

  /** Beyond that, as long as a transaction has passed checks, an owner other than its target is there. */
  ghost predicate Guarded(s: State) {
    && HasOwner(s.users) && Locking(s)
    && (forall t :: t in s.txs && !s.txs[t].request.Create?
                    && s.txs[t].checksLeft < GuardCalls(s.txs[t].request, s.txs[t].snapshot) ==>
          HasOtherOwner(s.users, s.txs[t].target))
  }

  lemma StepLocking(s: State, step: Step)
    requires Locking(s)
    ensures Locking(Apply(s, step))
  {
    hide HasOtherOwner, Write, Refused;
  }

  lemma {:induction false} RunLocking(s: State, steps: seq<Step>)
    requires Locking(s)
    ensures Locking(Run(s, steps))
  {
    if steps != [] {
      hide Locking, Apply;
      RunLocking(s, steps[..|steps| - 1]);
      StepLocking(Run(s, steps[..|steps| - 1]), steps[|steps| - 1]);
    }
  }

  /** Whoever takes the owner role away from an active owner has passed the guard and holds the lock. */
  lemma DemotionIsGuarded(s: State, tx: nat)
    requires Guarded(s) && tx in s.txs && s.txs[tx].checksLeft == 0 && !s.txs[tx].request.Create?
    requires s.txs[tx].target in s.users && Demotes(s.users[s.txs[tx].target], s.txs[tx]) && !Overtaken(s, tx)
    ensures s.txs[tx].locked && HasOtherOwner(s.users, s.txs[tx].target)
  {
    assert GuardCalls(s.txs[tx].request, s.txs[tx].snapshot) > 0;
  }

  /** The committed users after a commit: nobody but the target changes. */
  lemma CommitShape(s: State, tx: nat)
    requires tx in s.txs && s.txs[tx].checksLeft == 0
    ensures var t, s' := s.txs[tx], Apply(s, Commit(tx));
            && s'.txs == s.txs - {tx}
            && (forall u :: u in s.users ==>
                u in s'.users && (u != t.target || t.request.Create? ==> s'.users[u] == s.users[u]))
            && (t.target in s.users && !t.request.Create? ==>
                s'.users[t.target] == if Refused(s.users[t.target], t.request, t.snapshot) then s.users[t.target]
                                      else Write(s.users[t.target], t.request, t.snapshot))
            && (forall u :: u in s'.users && u !in s.users ==> t.request.Create?)
  {
  }

  /** What a committed request leaves of its target, column by column; nobody else changes. */
  lemma CommitEffect(s: State, tx: nat)
    requires tx in s.txs && s.txs[tx].checksLeft == 0
    ensures var t, s' := s.txs[tx], Apply(s, Commit(tx));
            && tx !in s'.txs
            && (forall u :: u in s.users && u != t.target ==> u in s'.users && s'.users[u] == s.users[u])
            && (t.request.Create? && t.target !in s.users ==> s'.users == s.users[t.target := t.request.user])
            && (t.target in s.users && t.request.Remove? ==>
                  && t.target in s'.users
                  && s'.users[t.target] == User(false, true, s.users[t.target].roles))
            && (t.target in s.users && t.request.Update?
                && (t.request.roles.Some? ==> t.snapshot == s.users[t.target].roles) ==>
                  && t.target in s'.users
                  && var was, now := s.users[t.target], s'.users[t.target];
                     && now.deleted == was.deleted
                     && now.active == (if t.request.isActive.Some? then t.request.isActive.value else was.active)
                     && now.roles == (if t.request.roles.Some? then t.request.roles.value else was.roles))
  {
    var t := s.txs[tx];
    if t.target in s.users && t.request.Update? && t.request.roles.Some? && t.snapshot == s.users[t.target].roles {
      assert !Clash(t.snapshot, t.snapshot, t.request.roles.value);
      assert Replaced(t.snapshot, t.snapshot, t.request.roles.value) == t.request.roles.value;
    }
  }

  /** Until it commits, a request changes no user, and it waits for the lock only while another one holds it. */
  lemma WaitingEffect(s: State, step: Step)
    requires !step.Commit?
    ensures Apply(s, step).users == s.users
    ensures step.Lock? && step.tx in s.txs && s.txs[step.tx].checksLeft > 0
            && (forall t :: t in s.txs ==> !s.txs[t].locked) ==>
              var s' := Apply(s, step); step.tx in s'.txs && s'.txs[step.tx].locked
    ensures step.Snapshot? && step.tx !in s.txs && !step.request.Create? && step.target in s.users
            && !s.users[step.target].deleted ==>
              var s' := Apply(s, step);
              step.tx in s'.txs && s'.txs[step.tx].snapshot == s.users[step.target].roles
              && s'.txs[step.tx].request == step.request && s'.txs[step.tx].target == step.target
  {
    hide HasOtherOwner;
  }

  /** A commit that demotes nobody keeps every other owner. */
  lemma HarmlessCommit(s: State, tx: nat, other: UserId)
    requires tx in s.txs && s.txs[tx].checksLeft == 0
    requires var t := s.txs[tx]; !t.request.Create? && t.target in s.users ==> !Demotes(s.users[t.target], t)
    ensures HasOwner(s.users) ==> HasOwner(Apply(s, Commit(tx)).users)
    ensures HasOtherOwner(s.users, other) ==> HasOtherOwner(Apply(s, Commit(tx)).users, other)
  {
    hide Apply;
    CommitShape(s, tx);
    var s' := Apply(s, Commit(tx));
    assert forall u :: u in s.users && ActiveOwner(s.users[u]) ==> u in s'.users && ActiveOwner(s'.users[u]);
  }

  lemma CommitGuarded(s: State, tx: nat)
    requires Guarded(s) && NotOvertaken(s, Commit(tx)) && tx in s.txs && s.txs[tx].checksLeft == 0
    ensures Guarded(Apply(s, Commit(tx)))
  {
    StepLocking(s, Commit(tx));
    hide Apply, ActiveOwner, Write, Refused, Locking;
    var t, s' := s.txs[tx], Apply(s, Commit(tx));
    CommitShape(s, tx);
    if !t.request.Create? && t.target in s.users && Demotes(s.users[t.target], t) {
      DemotionIsGuarded(s, tx);
      var u :| u in s.users && u != t.target && ActiveOwner(s.users[u]);
      assert u in s'.users && ActiveOwner(s'.users[u]);
    } else {
      HarmlessCommit(s, tx, 0);
      forall b | b in s'.txs && HasOtherOwner(s.users, s.txs[b].target)
        ensures HasOtherOwner(s'.users, s'.txs[b].target)
      {
        HarmlessCommit(s, tx, s.txs[b].target);
      }
    }
  }

  lemma StepGuarded(s: State, step: Step)
    requires Guarded(s) && NotOvertaken(s, step)
    ensures Guarded(Apply(s, step))
  {
    if step.Commit? {
      if step.tx in s.txs && s.txs[step.tx].checksLeft == 0 { CommitGuarded(s, step.tx); }
    } else {
      StepLocking(s, step);
      hide HasOwner, HasOtherOwner, Locking;
    }
  }

  /** The main theorem: in every interleaving, a tenant that starts with an active owner keeps one. */
  lemma {:induction false} RunKeepsOwner(s: State, steps: seq<Step>)
    requires Guarded(s) && GoodRun(s, steps)
    ensures Guarded(Run(s, steps)) && HasOwner(Run(s, steps).users)
  {
    if steps != [] {
      var init := steps[..|steps| - 1];
      assert forall i :: 0 <= i < |init| ==> init[..i] == steps[..i];
      RunKeepsOwner(s, init);
      StepGuarded(Run(s, init), steps[|steps| - 1]);
    }
  }

  /** A tenant at rest with an active owner is where runs start. */
  lemma AtRest(users: map<UserId, User>)
    requires HasOwner(users)
    ensures Guarded(State(users, map[]))
  {
  }

  /** The guard turns a request away exactly when no other active owner is left, and then nothing changes. */
  lemma GuardVerdict(s: State, tx: nat)
    requires tx in s.txs && s.txs[tx].locked && s.txs[tx].checksLeft > 0
    ensures var s' := Apply(s, Check(tx));
            && s'.users == s.users
            && (tx !in s'.txs <==> !HasOtherOwner(s.users, s.txs[tx].target))
            && (Guarded(s) && s.txs[tx].checksLeft < GuardCalls(s.txs[tx].request, s.txs[tx].snapshot) ==> tx in s'.txs)
  {
  }

  /** The request takes the target out of service, whatever its roles are. */
  predicate Deactivates(request: Request) {
    request.Remove? || (request.Update? && request.isActive == Some(false))
  }

  /**
   The step commits against the only active owner: either it has passed the guard, and the owner that it
   counted is gone since, or its snapshot shows no owner and it takes the target out of service.
   */
  ghost predicate LosesLast(s: State, step: Step) {
    && step.Commit? && step.tx in s.txs && s.txs[step.tx].checksLeft == 0
    && var t := s.txs[step.tx];
       && !t.request.Create? && t.target in s.users && !HasOtherOwner(s.users, t.target)
       && !Refused(s.users[t.target], t.request, t.snapshot)
       && (t.locked || (OWNER !in t.snapshot && Deactivates(t.request)))
  }

  /** What the request makes of an active owner can be told from the snapshot. */
  lemma DemotesExactly(s: State, tx: nat)
    requires Locking(s) && tx in s.txs && s.txs[tx].checksLeft == 0 && !s.txs[tx].request.Create?
    requires s.txs[tx].target in s.users && ActiveOwner(s.users[s.txs[tx].target])
    ensures var t := s.txs[tx];
            Demotes(s.users[t.target], t) <==>
            && !Refused(s.users[t.target], t.request, t.snapshot)
            && (t.locked || (OWNER !in t.snapshot && Deactivates(t.request)))
  {
    var t, u := s.txs[tx], s.users[s.txs[tx].target];
    assert t.locked <==> GuardCalls(t.request, t.snapshot) > 0;
    if t.request.Update? && t.request.roles.Some? {
      var desired := t.request.roles.value;
      assert OWNER in Replaced(u.roles, t.snapshot, desired) <==> OWNER !in t.snapshot || OWNER in desired;
      if OWNER in Additions(t.snapshot, desired) {
        assert OWNER in Additions(t.snapshot, desired) * u.roles;
      }
    }
  }

  /** Exactly when a step leaves the tenant without an owner, in every state that a run can reach. */
  lemma LastOwnerLost(s: State, step: Step)
    requires Locking(s) && HasOwner(s.users)
    ensures !HasOwner(Apply(s, step).users) <==> LosesLast(s, step)
  {
    if step.Commit? && step.tx in s.txs && s.txs[step.tx].checksLeft == 0 {
      CommitShape(s, step.tx);
      hide Apply, Write, Refused, Deactivates, Locking, ActiveOwner;
      var t, s' := s.txs[step.tx], Apply(s, step);
      var u :| u in s.users && ActiveOwner(s.users[u]);
      if t.request.Create? {
        assert u in s'.users && ActiveOwner(s'.users[u]);
      } else if HasOtherOwner(s.users, t.target) {
        var other :| other in s.users && other != t.target && ActiveOwner(s.users[other]);
        assert other in s'.users && ActiveOwner(s'.users[other]);
      } else {
        assert u == t.target;
        DemotesExactly(s, step.tx);
        assert forall v :: v in s'.users && ActiveOwner(s'.users[v]) ==> v == t.target;
        assert u in s'.users;
      }
    } else {
      hide HasOwner, HasOtherOwner;
      assert Apply(s, step).users == s.users;
    }
  }

  ghost predicate OwnerAlong(s: State, steps: seq<Step>) {
    forall k :: 0 <= k <= |steps| ==> HasOwner(Run(s, steps[..k]).users)
  }

  ghost predicate NeverLosesLast(s: State, steps: seq<Step>) {
    forall k :: 0 <= k < |steps| ==> !LosesLast(Run(s, steps[..k]), steps[k])
  }

  lemma AlongSnoc(s: State, steps: seq<Step>)
    requires steps != []
    ensures var init, step := steps[..|steps| - 1], steps[|steps| - 1];
            && (OwnerAlong(s, steps) <==> OwnerAlong(s, init) && HasOwner(Run(s, steps).users))
            && (NeverLosesLast(s, steps) <==> NeverLosesLast(s, init) && !LosesLast(Run(s, init), step))
            && (OwnerAlong(s, init) ==> HasOwner(Run(s, init).users))
  {
    hide HasOwner, LosesLast, Run;
    var n := |steps| - 1;
    var init := steps[..n];
    assert forall k :: 0 <= k <= n ==> init[..k] == steps[..k];
    assert forall k :: 0 <= k < n ==> init[k] == steps[k];
    assert steps[..|steps|] == steps && init[..n] == init;
  }

  /** Exactly when an owner is there all along a run, over every interleaving and without any condition on it. */
  lemma {:induction false} OwnerAlongExactly(s: State, steps: seq<Step>)
    requires Locking(s) && HasOwner(s.users)
    ensures OwnerAlong(s, steps) <==> NeverLosesLast(s, steps)
  {
    if steps != [] {
      hide Locking, HasOwner, LosesLast, Apply, OwnerAlong, NeverLosesLast;
      var init, step := steps[..|steps| - 1], steps[|steps| - 1];
      OwnerAlongExactly(s, init);
      AlongSnoc(s, steps);
      RunLocking(s, init);
      if OwnerAlong(s, init) {
        LastOwnerLost(Run(s, init), step);
      }
    }
  }

  /** Two users, of whom user 2 is made owner while a deactivation of user 2 is already under way. */
  ghost function OvertakingSteps(): seq<Step> {
    var off, grant := Update(Some(false), None), Update(None, Some({OWNER}));
    [Snapshot(0, 2, off), Snapshot(1, 2, grant), Commit(1), Snapshot(2, 1, off), Lock(2), Check(2)]
  }

  ghost function OvertakingState(i: nat): State {
    var off, grant := Update(Some(false), None), Update(None, Some({OWNER}));
    var owner, staff := User(true, false, {OWNER}), User(true, false, {});
    var t0, t1 := Tx(2, off, {}, 0, false), Tx(2, grant, {}, 0, false);
    match i
    case 0 => State(map[1 := owner, 2 := staff], map[])
    case 1 => State(map[1 := owner, 2 := staff], map[0 := t0])
    case 2 => State(map[1 := owner, 2 := staff], map[0 := t0, 1 := t1])
    case 3 => State(map[1 := owner, 2 := owner], map[0 := t0])
    case 4 => State(map[1 := owner, 2 := owner], map[0 := t0, 2 := Tx(1, off, {OWNER}, 1, false)])
    case 5 => State(map[1 := owner, 2 := owner], map[0 := t0, 2 := Tx(1, off, {OWNER}, 1, true)])
    case _ => State(map[1 := owner, 2 := owner], map[0 := t0, 2 := Tx(1, off, {OWNER}, 0, true)])
  }

  lemma OvertakingStep(i: nat)
    requires i < 6
    ensures OvertakingState(i + 1) == Apply(OvertakingState(i), OvertakingSteps()[i])
  {
    var s, s' := OvertakingState(i), OvertakingState(i + 1);
    var step := OvertakingSteps()[i];
    if i == 2 {
      assert Replaced({}, {}, {OWNER}) == {OWNER};
    } else if i == 5 {
      assert 2 in s.users && ActiveOwner(s.users[2]);
    }
    assert Apply(s, step).users == s'.users;
    assert Apply(s, step).txs == s'.txs;
  }

  lemma OvertakingRun()
    ensures Run(OvertakingState(0), OvertakingSteps()) == OvertakingState(6)
    ensures Guarded(OvertakingState(0))
  {
    var s := OvertakingState(0);
    assert 1 in s.users && ActiveOwner(s.users[1]);
    var states := seq(7, i requires 0 <= i < 7 => OvertakingState(i));
    forall i | 0 <= i < 6 ensures states[i + 1] == Apply(states[i], OvertakingSteps()[i]) {
      OvertakingStep(i);
    }
    RunPrefixes(s, OvertakingSteps(), states);
  }

  /** One of the two pending deactivations is committed; the owner that is left is the target of the other. */
  lemma CommitOff(s: State, tx: nat)
    requires tx in s.txs && s.txs[tx].checksLeft == 0 && s.txs[tx].request == Update(Some(false), None)
    requires s.txs[tx].target in s.users
    ensures var t := s.txs[tx];
            Apply(s, Commit(tx)) ==
            State(s.users[t.target := s.users[t.target].(active := false)], s.txs - {tx})
  {
  }

  /** The two deactivations in either order leave nobody. */
  lemma BothOff(first: nat, second: nat)
    requires {first, second} == {0, 2} && first != second
    ensures !HasOwner(Apply(Apply(OvertakingState(6), Commit(first)), Commit(second)).users)
  {
    hide Apply;
    var s := OvertakingState(6);
    assert first in {0, 2} && second in {0, 2};
    CommitOff(s, first);
    CommitOff(Apply(s, Commit(first)), second);
    var users := Apply(Apply(s, Commit(first)), Commit(second)).users;
    assert users.Keys == {1, 2} && !users[1].active && !users[2].active;
  }

  lemma RunTwice(s: State, steps: seq<Step>, a: Step, b: Step)
    ensures Run(s, steps + [a, b]) == Apply(Apply(Run(s, steps), a), b)
  {
    hide Apply;
    assert (steps + [a, b])[..|steps| + 1] == steps + [a] && (steps + [a])[..|steps|] == steps;
  }

  /** The owner is lost to the deactivation that skipped the guard. */
  lemma OvertakenRunLosesOwner()
    ensures Guarded(OvertakingState(0))
    ensures !HasOwner(Run(OvertakingState(0), OvertakingSteps() + [Commit(2), Commit(0)]).users)
  {
    OvertakingRun();
    BothOff(2, 0);
    hide OvertakingState, OvertakingSteps, Apply, Guarded;
    RunTwice(OvertakingState(0), OvertakingSteps(), Commit(2), Commit(0));
  }

  /** In the other order it is lost to the one that passed the guard, because the owner it counted is gone. */
  lemma GuardedCommitLosesOwner()
    ensures Guarded(OvertakingState(0))
    ensures !HasOwner(Run(OvertakingState(0), OvertakingSteps() + [Commit(0), Commit(2)]).users)
    ensures var s := Run(OvertakingState(0), OvertakingSteps()); 2 in s.txs && s.txs[2].locked
  {
    OvertakingRun();
    BothOff(0, 2);
    assert 2 in OvertakingState(6).txs && OvertakingState(6).txs[2].locked;
    hide OvertakingState, OvertakingSteps, Apply, Guarded;
    RunTwice(OvertakingState(0), OvertakingSteps(), Commit(0), Commit(2));
  }

  lemma {:induction false} RunPrefixes(s: State, steps: seq<Step>, states: seq<State>)
    requires |states| == |steps| + 1 && states[0] == s
    requires forall i :: 0 <= i < |steps| ==> states[i + 1] == Apply(states[i], steps[i])
    ensures Run(s, steps) == states[|steps|]
  {
    hide Apply;
    if steps != [] {
      RunPrefixes(s, steps[..|steps| - 1], states[..|steps|]);
    }
  }
}
