/**
 Who may grant which role (apps/api/src/user/user.service.ts). A token carries the roles and permissions
 that its holder had at login (apps/api/src/auth/auth.service.ts), and a role may be granted if the token
 names it or covers all its permissions.
 */
module RoleGrants {
  import opened Links

  type Role = string
  type UserId = nat

  /** A permission row: resource and action. Tokens carry the resource in lower case. */
  datatype Permission = Permission(resource: string, action: string)

  const PLATFORM_OWNER: Role := "PLATFORM_OWNER"

  type RoleTable = map<Role, set<Permission>>

  function LowerChar(c: char): char {
    if 'A' <= c <= 'Z' then (c as int + 32) as char else c
  }

  function Lower(s: string): string {
    seq(|s|, i requires 0 <= i < |s| => LowerChar(s[i]))
  }

  function Claimed(p: Permission): Permission {
    Permission(Lower(p.resource), p.action)
  }

  /** The permissions that the given roles put into a token. */
  function Capability(table: RoleTable, roles: set<Role>): (r: set<Permission>)
    ensures forall p :: p in r <==> exists n, q :: n in roles && n in table && q in table[n] && p == Claimed(q)
  {
    set n, q | n in roles && n in table && q in table[n] :: Claimed(q)
  }

  datatype Claims = Claims(roles: set<Role>, permissions: set<Permission>)

  /** What login puts into a token, with its defaults for a user without roles or without permissions. */
  function Login(table: RoleTable, roles: set<Role>): Claims {
    var permissions := Capability(table, roles);
    Claims(if roles == {} then {"RESTAURANT_OWNER"} else roles,
           if permissions == {} then
             {Permission("menu", "create"), Permission("menu", "update"), Permission("orders", "read")}
           else permissions)
  }

  /** `assertCanGrantRoles` */
  predicate CanGrant(table: RoleTable, requested: set<Role>, actor: Claims) {
    || PLATFORM_OWNER in actor.roles
    || (PLATFORM_OWNER !in requested
        && forall n :: n in requested && n !in actor.roles && n in table ==> table[n] <= actor.permissions)
  }

  datatype State = State(users: map<UserId, set<Role>>, tokens: set<Claims>)

  /** `snapshot` is what the update read of the target's roles before its transaction. */
  datatype Step =
    | LogIn(user: UserId)
    | CreateUser(actor: Claims, user: UserId, requested: set<Role>)
    | SetRoles(actor: Claims, user: UserId, snapshot: set<Role>, requested: set<Role>)

  function Apply(table: RoleTable, s: State, step: Step): State {
    match step
    case LogIn(user) =>
      if user in s.users then s.(tokens := s.tokens + {Login(table, s.users[user])}) else s
    case CreateUser(actor, user, requested) =>
      if actor in s.tokens && user !in s.users && CanGrant(table, requested, actor) && Resolve(table, requested).Ok?
      then s.(users := s.users[user := requested]) else s
    case SetRoles(actor, user, snapshot, requested) =>
      if actor in s.tokens && user in s.users && CanGrant(table, requested, actor) && Resolve(table, requested).Ok?
      then s.(users := s.users[user := Changed(s.users[user], snapshot, requested)]) else s
  }

  function Run(table: RoleTable, s: State, steps: seq<Step>): State {
    if steps == [] then s else Apply(table, Run(table, s, steps[..|steps| - 1]), steps[|steps| - 1])
  }

  // ----- what requests do -----

  /** Everybody else keeps the roles, and tokens stay. */
  ghost predicate OnlyUser(s: State, t: State, user: UserId) {
    && t.tokens == s.tokens && t.users.Keys == s.users.Keys + {user}
    && forall u :: u in s.users && u != user ==> t.users[u] == s.users[u]
  }

  /** An accepted creation or role change, from a snapshot that is not overtaken, stores exactly what was asked for. */
  lemma RequestEffect(table: RoleTable, s: State, step: Step)
    requires !step.LogIn? && step.actor in s.tokens && CanGrant(table, step.requested, step.actor)
    requires step.requested <= table.Keys
    requires if step.CreateUser? then step.user !in s.users
             else step.user in s.users && step.snapshot == s.users[step.user]
    ensures var t := Apply(table, s, step); OnlyUser(s, t, step.user) && t.users[step.user] == step.requested
  {
    assert step.requested - table.Keys == {};
    if step.SetRoles? {
      assert Changed(step.snapshot, step.snapshot, step.requested) == step.requested;
    }
    hide CanGrant;
  }

  /** Whatever the snapshot: roles that were asked for and could be seen stay or come, and unseen ones stay. */
  lemma ChangeEffect(table: RoleTable, s: State, step: Step)
    requires step.SetRoles? && step.actor in s.tokens && CanGrant(table, step.requested, step.actor)
    requires step.requested <= table.Keys && step.user in s.users
    ensures var t, was := Apply(table, s, step), s.users[step.user];
            && OnlyUser(s, t, step.user)
            && if exists n :: n in step.requested && n in was && n !in step.snapshot then t == s
               else forall n :: n in t.users[step.user] <==>
                      if n in step.snapshot then n in step.requested && n in was else n in step.requested || n in was
  {
    assert step.requested - table.Keys == {};
    hide CanGrant;
    var was := s.users[step.user];
    assert Clash(was, step.snapshot, step.requested) <==>
           exists n :: n in step.requested && n in was && n !in step.snapshot by {
      assert forall n :: n in Additions(step.snapshot, step.requested) * was <==>
                         n in step.requested && n in was && n !in step.snapshot;
    }
    if Clash(was, step.snapshot, step.requested) {
      assert s.users[step.user := was] == s.users;
    }
  }

  /** Requests of others change nothing: no token, no right to grant, unknown roles, or no such user. */
  lemma RefusedRequest(table: RoleTable, s: State, step: Step)
    requires !step.LogIn?
    requires || step.actor !in s.tokens || !CanGrant(table, step.requested, step.actor)
             || !(step.requested <= table.Keys) || (step.CreateUser? <==> step.user in s.users)
    ensures Apply(table, s, step) == s
  {
    hide CanGrant;
    if !(step.requested <= table.Keys) {
      var n :| n in step.requested && n !in table;
      assert n in step.requested - table.Keys;
    }
  }

  // ----- what a token can grant -----

  /** The roles that the token of a member of staff may hand out. */
  function Grantable(table: RoleTable, actor: Claims): set<Role> {
    set n | n in table && n != PLATFORM_OWNER && (n in actor.roles || table[n] <= actor.permissions)
  }

  /** A request goes through exactly if it asks for grantable roles only. */
  lemma GrantableExactly(table: RoleTable, requested: set<Role>, actor: Claims)
    requires PLATFORM_OWNER !in actor.roles
    ensures CanGrant(table, requested, actor) && Resolve(table, requested).Ok? <==> requested <= Grantable(table, actor)
  {
    assert Resolve(table, requested).Ok? <==> requested - table.Keys == {};
    assert requested - table.Keys == {} <==> forall n :: n in requested ==> n in table by {
      assert forall n :: n in requested - table.Keys <==> n in requested && n !in table;
    }
  }

  lemma CapabilityGrows(table: RoleTable, small: set<Role>, large: set<Role>)
    requires small <= large
    ensures Capability(table, small) <= Capability(table, large)
  {
    forall p | p in Capability(table, small) ensures p in Capability(table, large) {
      var n, q :| n in small && n in table && q in table[n] && p == Claimed(q);
      assert n in large;
    }
  }

  lemma LowerTwice(s: string)
    ensures Lower(Lower(s)) == Lower(s)
  {
  }

  /** A token that says what is stored never hands out more than it covers. */
  lemma GrantWithinToken(table: RoleTable, actor: Claims)
    requires actor.permissions == Capability(table, actor.roles)
    ensures Capability(table, Grantable(table, actor)) <= actor.permissions
  {
    forall p | p in Capability(table, Grantable(table, actor)) ensures p in actor.permissions {
      var n, q :| n in Grantable(table, actor) && n in table && q in table[n] && p == Claimed(q);
      if n !in actor.roles {
        assert q in actor.permissions;
        var m, r :| m in actor.roles && m in table && r in table[m] && q == Claimed(r);
        LowerTwice(r.resource);
        assert p == q;
      }
    }
  }

  /** One of the roles has this permission, with the resource in lower case. */
  ghost predicate Confers(table: RoleTable, roles: set<Role>, p: Permission) {
    exists n, q :: n in roles && n in table && q in table[n] && p == Permission(Lower(q.resource), q.action)
  }

  /** What a token says: the stored roles or the owner role, and their permissions or three default ones. */
  lemma LoginEffect(table: RoleTable, roles: set<Role>)
    ensures var c := Login(table, roles);
            && c.roles == (if roles == {} then {"RESTAURANT_OWNER"} else roles)
            && if exists p :: Confers(table, roles, p) then forall p :: p in c.permissions <==> Confers(table, roles, p)
               else c.permissions ==
                    {Permission("menu", "create"), Permission("menu", "update"), Permission("orders", "read")}
  {
    var held := Capability(table, roles);
    forall p ensures p in held <==> Confers(table, roles, p) {
      if p in held {
        var n, q :| n in roles && n in table && q in table[n] && p == Claimed(q);
        assert p == Permission(Lower(q.resource), q.action);
      }
      if Confers(table, roles, p) {
        var n, q :| n in roles && n in table && q in table[n] && p == Permission(Lower(q.resource), q.action);
        assert p == Claimed(q);
      }
    }
    hide Capability, Confers;
  }

  /** A token says what is stored exactly when its holder has a role and a permission. */
  lemma LoginIsExact(table: RoleTable, roles: set<Role>)
    ensures Login(table, roles) == Claims(roles, Capability(table, roles))
            <==> roles != {} && Capability(table, roles) != {}
  {
    if roles == {} {
      assert "RESTAURANT_OWNER" in Login(table, roles).roles;
    } else if Capability(table, roles) == {} {
      assert Permission("menu", "create") in Login(table, roles).permissions;
    }
  }

  // ----- within what a single user had -----

  /** Some user of the beginning had all these permissions. */
  ghost predicate Bounded(table: RoleTable, initial: map<UserId, set<Role>>, permissions: set<Permission>) {
    exists u :: u in initial && permissions <= Capability(table, initial[u])
  }

  ghost predicate UsersBounded(table: RoleTable, initial: map<UserId, set<Role>>, s: State) {
    forall u :: u in s.users ==> Bounded(table, initial, Capability(table, s.users[u]))
  }

  /** Every user has, and every token of staff can grant, at most what a single user of the beginning had. */
  ghost predicate Contained(table: RoleTable, initial: map<UserId, set<Role>>, s: State) {
    && UsersBounded(table, initial, s)
    && (forall c :: c in s.tokens && PLATFORM_OWNER !in c.roles ==>
          Bounded(table, initial, Capability(table, Grantable(table, c))))
  }

  lemma Narrower(table: RoleTable, initial: map<UserId, set<Role>>, small: set<Permission>, large: set<Permission>)
    requires small <= large && Bounded(table, initial, large)
    ensures Bounded(table, initial, small)
  {
    hide Capability;
    var u :| u in initial && large <= Capability(table, initial[u]);
    assert small <= Capability(table, initial[u]);
  }

  /**
   Actors are staff. What a new token can grant is bounded, and what a role change leaves on its target is
   covered by what it asks for or by what the target had.
   */
  ghost predicate Tame(table: RoleTable, initial: map<UserId, set<Role>>, s: State, step: Step) {
    match step
    case LogIn(user) => user in s.users && PLATFORM_OWNER !in s.users[user] ==>
      Bounded(table, initial, Capability(table, Grantable(table, Login(table, s.users[user]))))
    case CreateUser(actor, _, _) => PLATFORM_OWNER !in actor.roles
    case SetRoles(actor, user, snapshot, requested) =>
      PLATFORM_OWNER !in actor.roles && (user in s.users ==> Covered(table, s.users[user], snapshot, requested))
  }

  ghost predicate Covered(table: RoleTable, current: set<Role>, snapshot: set<Role>, requested: set<Role>) {
    var left := Capability(table, Changed(current, snapshot, requested));
    left <= Capability(table, requested) || left <= Capability(table, current)
  }

  ghost predicate TameRun(table: RoleTable, initial: map<UserId, set<Role>>, s: State, steps: seq<Step>) {
    forall i :: 0 <= i < |steps| ==> Tame(table, initial, Run(table, s, steps[..i]), steps[i])
  }

  /** Whatever staff may ask for is bounded. */
  lemma RequestBounded(table: RoleTable, initial: map<UserId, set<Role>>, s: State, actor: Claims, requested: set<Role>)
    requires Contained(table, initial, s) && actor in s.tokens && PLATFORM_OWNER !in actor.roles
    requires CanGrant(table, requested, actor) && Resolve(table, requested).Ok?
    ensures Bounded(table, initial, Capability(table, requested))
  {
    hide Capability, Bounded, Grantable;
    GrantableExactly(table, requested, actor);
    CapabilityGrows(table, requested, Grantable(table, actor));
    Narrower(table, initial, Capability(table, requested), Capability(table, Grantable(table, actor)));
  }

  lemma StepContained(table: RoleTable, initial: map<UserId, set<Role>>, s: State, step: Step)
    requires Contained(table, initial, s) && Tame(table, initial, s, step)
    ensures Contained(table, initial, Apply(table, s, step))
  {
    hide Capability, Bounded, CanGrant, Resolve, Changed, Grantable;
    if !step.LogIn? && step.actor in s.tokens && CanGrant(table, step.requested, step.actor)
       && Resolve(table, step.requested).Ok? {
      RequestBounded(table, initial, s, step.actor, step.requested);
      if step.SetRoles? && step.user in s.users {
        var left := Capability(table, Changed(s.users[step.user], step.snapshot, step.requested));
        if left <= Capability(table, step.requested) {
          Narrower(table, initial, left, Capability(table, step.requested));
        } else {
          Narrower(table, initial, left, Capability(table, s.users[step.user]));
        }
      }
    }
  }

  lemma StartContained(table: RoleTable, initial: map<UserId, set<Role>>)
    ensures Contained(table, initial, State(initial, {}))
  {
    hide Capability;
    forall u | u in initial ensures Bounded(table, initial, Capability(table, initial[u])) {
      assert Capability(table, initial[u]) <= Capability(table, initial[u]);
    }
  }

  /** The main theorem: no run of creations and role changes puts together more than one user had at first. */
  lemma {:induction false} RunContained(table: RoleTable, initial: map<UserId, set<Role>>, steps: seq<Step>)
    requires TameRun(table, initial, State(initial, {}), steps)
    ensures Contained(table, initial, Run(table, State(initial, {}), steps))
  {
    hide Contained, Tame, Apply;
    if steps == [] {
      StartContained(table, initial);
    } else {
      var init := steps[..|steps| - 1];
      assert forall i :: 0 <= i < |init| ==> init[..i] == steps[..i];
      RunContained(table, initial, init);
      StepContained(table, initial, Run(table, State(initial, {}), init), steps[|steps| - 1]);
    }
  }

  // ----- the conditions are exact -----

  lemma RunSnoc(table: RoleTable, s: State, steps: seq<Step>, step: Step)
    ensures Run(table, s, steps + [step]) == Apply(table, Run(table, s, steps), step)
  {
    assert (steps + [step])[..|steps|] == steps;
  }

  ghost predicate StaffCreations(steps: seq<Step>) {
    forall i :: 0 <= i < |steps| ==> steps[i].CreateUser? && PLATFORM_OWNER !in steps[i].actor.roles
  }

  lemma {:induction false} CreationsContained(
    table: RoleTable, initial: map<UserId, set<Role>>, s: State, steps: seq<Step>)
    requires Contained(table, initial, s) && StaffCreations(steps)
    ensures Contained(table, initial, Run(table, s, steps))
  {
    if steps != [] {
      hide Contained, Apply;
      CreationsContained(table, initial, s, steps[..|steps| - 1]);
      StepContained(table, initial, Run(table, s, steps[..|steps| - 1]), steps[|steps| - 1]);
    }
  }

  lemma {:induction false} FreshUser(users: set<UserId>) returns (u: UserId)
    ensures u !in users && forall v :: v in users ==> v < u
  {
    if users == {} {
      u := 0;
    } else {
      var v :| v in users;
      var w := FreshUser(users - {v});
      u := if v < w then w else v + 1;
      forall x | x in users ensures x < u {
        if x != v { assert x in users - {v}; }
      }
    }
  }

  /** A token that can grant too much makes one creation break the bound. */
  lemma WideTokenEscalates(table: RoleTable, initial: map<UserId, set<Role>>, s: State, c: Claims)
    returns (steps: seq<Step>)
    requires c in s.tokens && PLATFORM_OWNER !in c.roles
    requires !Bounded(table, initial, Capability(table, Grantable(table, c)))
    ensures StaffCreations(steps) && !UsersBounded(table, initial, Run(table, s, steps))
  {
    hide Capability, Bounded, Grantable, CanGrant;
    var u := FreshUser(s.users.Keys);
    var all := Grantable(table, c);
    GrantableExactly(table, all, c);
    steps := [CreateUser(c, u, all)];
    RunSnoc(table, s, [], steps[0]);
    assert [] + [steps[0]] == steps;
    var t := Run(table, s, steps);
    assert t.users == s.users[u := all];
    assert u in t.users && t.users[u] == all;
  }

  /** Containment is exactly what keeps every further creation by staff within the bound. */
  lemma ContainedExactly(table: RoleTable, initial: map<UserId, set<Role>>, s: State)
    ensures Contained(table, initial, s) <==>
            forall steps :: StaffCreations(steps) ==> UsersBounded(table, initial, Run(table, s, steps))
  {
    hide Bounded, Capability, Grantable;
    if Contained(table, initial, s) {
      forall steps | StaffCreations(steps) ensures UsersBounded(table, initial, Run(table, s, steps)) {
        CreationsContained(table, initial, s, steps);
      }
    } else if UsersBounded(table, initial, s) {
      var c :| c in s.tokens && PLATFORM_OWNER !in c.roles
               && !Bounded(table, initial, Capability(table, Grantable(table, c)));
      var steps := WideTokenEscalates(table, initial, s, c);
    } else {
      var none: seq<Step> := [];
      assert StaffCreations(none) && Run(table, s, none) == s;
    }
  }

  /** Being covered is exactly what keeps a role change within the bound, whoever was there at first. */
  lemma CoveredExactly(table: RoleTable, current: set<Role>, snapshot: set<Role>, requested: set<Role>)
    ensures Covered(table, current, snapshot, requested) <==>
            forall initial :: Bounded(table, initial, Capability(table, requested))
                              && Bounded(table, initial, Capability(table, current)) ==>
              Bounded(table, initial, Capability(table, Changed(current, snapshot, requested)))
  {
    hide Capability, Changed;
    var left := Capability(table, Changed(current, snapshot, requested));
    if Covered(table, current, snapshot, requested) {
      forall initial | Bounded(table, initial, Capability(table, requested))
                       && Bounded(table, initial, Capability(table, current))
        ensures Bounded(table, initial, left)
      {
        if left <= Capability(table, requested) {
          Narrower(table, initial, left, Capability(table, requested));
        } else {
          Narrower(table, initial, left, Capability(table, current));
        }
      }
    } else {
      var two: map<UserId, set<Role>> := map[0 := requested, 1 := current];
      assert two[0] == requested && two[1] == current;
      assert Bounded(table, two, Capability(table, requested)) && Bounded(table, two, Capability(table, current));
      assert !Bounded(table, two, left);
    }
  }

  // ----- without overlap and without defaults -----

  /** Logins of users with a role and a permission, actors that are staff. */
  ghost predicate Exact(table: RoleTable, s: State, step: Step) {
    match step
    case LogIn(user) => user in s.users ==> s.users[user] != {} && Capability(table, s.users[user]) != {}
    case CreateUser(actor, _, _) => PLATFORM_OWNER !in actor.roles
    case SetRoles(actor, _, _, _) => PLATFORM_OWNER !in actor.roles
  }

  /** No role change of the target was committed between its snapshot and its own commit. */
  ghost predicate Current(s: State, step: Step) {
    step.SetRoles? && step.user in s.users ==> step.snapshot == s.users[step.user]
  }

  lemma ExactIsTame(table: RoleTable, initial: map<UserId, set<Role>>, s: State, step: Step)
    requires Contained(table, initial, s) && Exact(table, s, step) && Current(s, step)
    ensures Tame(table, initial, s, step)
  {
    hide Capability, Bounded, Grantable, Login;
    match step
    case CreateUser(actor, user, requested) =>
    case LogIn(user) =>
      if user in s.users {
        var roles := s.users[user];
        LoginIsExact(table, roles);
        GrantWithinToken(table, Login(table, roles));
        Narrower(table, initial, Capability(table, Grantable(table, Login(table, roles))), Capability(table, roles));
      }
    case SetRoles(actor, user, snapshot, requested) =>
      if user in s.users {
        assert Changed(s.users[user], snapshot, requested) == requested;
      }
  }

  /** With exact tokens and fresh snapshots, every user stays within what a single user had at first. */
  lemma {:induction false} ExactRunContained(table: RoleTable, initial: map<UserId, set<Role>>, steps: seq<Step>)
    requires forall i :: 0 <= i < |steps| ==>
               var s := Run(table, State(initial, {}), steps[..i]); Exact(table, s, steps[i]) && Current(s, steps[i])
    ensures Contained(table, initial, Run(table, State(initial, {}), steps))
  {
    hide Contained, Exact, Current, Tame, Apply;
    if steps == [] {
      StartContained(table, initial);
    } else {
      var init, last := steps[..|steps| - 1], |steps| - 1;
      assert forall i :: 0 <= i < |init| ==> init[..i] == steps[..i];
      ExactRunContained(table, initial, init);
      var s := Run(table, State(initial, {}), init);
      assert Exact(table, s, steps[last]) && Current(s, steps[last]);
      ExactIsTame(table, initial, s, steps[last]);
      StepContained(table, initial, s, steps[last]);
    }
  }

  // ----- with overlap: within what all users had -----

  ghost predicate Held(table: RoleTable, initial: map<UserId, set<Role>>, p: Permission) {
    exists u :: u in initial && p in Capability(table, initial[u])
  }

  /** Nobody has, and no token of staff claims, a permission that nobody had at first. */
  ghost predicate NothingNew(table: RoleTable, initial: map<UserId, set<Role>>, s: State) {
    && (forall u, p :: u in s.users && p in Capability(table, s.users[u]) ==> Held(table, initial, p))
    && (forall c :: c in s.tokens ==> c.permissions == Capability(table, c.roles))
    && (forall c, p :: c in s.tokens && p in c.permissions ==> Held(table, initial, p))
  }

  lemma CapabilityOfUnion(table: RoleTable, a: set<Role>, b: set<Role>, p: Permission)
    ensures p in Capability(table, a + b) <==> p in Capability(table, a) || p in Capability(table, b)
  {
    CapabilityGrows(table, a, a + b);
    CapabilityGrows(table, b, a + b);
    if p in Capability(table, a + b) {
      var n, q :| n in a + b && n in table && q in table[n] && p == Claimed(q);
    }
  }

  lemma StepNothingNew(table: RoleTable, initial: map<UserId, set<Role>>, s: State, step: Step)
    requires NothingNew(table, initial, s) && Exact(table, s, step)
    ensures NothingNew(table, initial, Apply(table, s, step))
  {
    hide Capability, Held, CanGrant, Resolve, Login, Grantable;
    if step.LogIn? {
      if step.user in s.users { LoginIsExact(table, s.users[step.user]); }
    } else if step.actor in s.tokens && CanGrant(table, step.requested, step.actor)
              && Resolve(table, step.requested).Ok? {
      GrantableExactly(table, step.requested, step.actor);
      GrantWithinToken(table, step.actor);
      CapabilityGrows(table, step.requested, Grantable(table, step.actor));
      assert forall p :: p in Capability(table, step.requested) ==> p in step.actor.permissions;
      if step.SetRoles? && step.user in s.users {
        var current := s.users[step.user];
        CapabilityGrows(table, Changed(current, step.snapshot, step.requested), current + step.requested);
        forall p | p in Capability(table, current + step.requested) ensures Held(table, initial, p) {
          CapabilityOfUnion(table, current, step.requested, p);
        }
      }
    }
  }

  /** Whatever the snapshots and however role changes overlap: every permission was held by somebody at first. */
  lemma {:induction false} RunNothingNew(table: RoleTable, initial: map<UserId, set<Role>>, steps: seq<Step>)
    requires forall i :: 0 <= i < |steps| ==> Exact(table, Run(table, State(initial, {}), steps[..i]), steps[i])
    ensures NothingNew(table, initial, Run(table, State(initial, {}), steps))
  {
    hide Capability, Exact, Apply;
    if steps != [] {
      hide NothingNew;
      var init := steps[..|steps| - 1];
      assert forall i :: 0 <= i < |init| ==> init[..i] == steps[..i];
      RunNothingNew(table, initial, init);
      assert Exact(table, Run(table, State(initial, {}), steps[..|steps| - 1]), steps[|steps| - 1]);
      StepNothingNew(table, initial, Run(table, State(initial, {}), init), steps[|steps| - 1]);
    }
  }

  // ----- two runs that escalate -----

  lemma SingleCapability(table: RoleTable, n: Role, p: Permission)
    requires n in table && table[n] == {p} && Claimed(p) == p
    ensures Capability(table, {n}) == {p}
  {
    assert p in Capability(table, {n});
  }

  lemma Plain(p: Permission)
    requires p.resource == "user" || p.resource == "menu"
    ensures Claimed(p) == p
  {
  }

  /** A user without any role logs in as an owner, makes itself an owner, and may have what nobody had. */
  lemma RolelessRunEscalates(table: RoleTable, initial: map<UserId, set<Role>>, u: UserId, p: Permission)
    requires u in initial && initial[u] == {} && "RESTAURANT_OWNER" in table
    requires p in Capability(table, {"RESTAURANT_OWNER"}) && !Held(table, initial, p)
    ensures var steps := [LogIn(u), SetRoles(Login(table, {}), u, {}, {"RESTAURANT_OWNER"})];
            var s := Run(table, State(initial, {}), steps);
            && u in s.users && p in Capability(table, s.users[u])
            && !UsersBounded(table, initial, s) && !NothingNew(table, initial, s)
  {
    hide Run, Login, CanGrant, Capability, Grantable, Resolve;
    var owner := {"RESTAURANT_OWNER"};
    var token := Login(table, {});
    TokenOfNobody(table);
    GrantableExactly(table, owner, token);
    RolelessStates(table, initial, u, token, owner);
  }

  lemma NoRoles(table: RoleTable)
    ensures Capability(table, {}) == {}
  {
  }

  lemma TokenOfNobody(table: RoleTable)
    requires "RESTAURANT_OWNER" in table
    ensures {"RESTAURANT_OWNER"} <= Grantable(table, Login(table, {})) && PLATFORM_OWNER !in Login(table, {}).roles
  {
    assert |PLATFORM_OWNER| != |"RESTAURANT_OWNER"|;
  }

  lemma RolelessStates(table: RoleTable, initial: map<UserId, set<Role>>, u: UserId, token: Claims, owner: set<Role>)
    requires u in initial && initial[u] == {} && token == Login(table, {})
    requires CanGrant(table, owner, token) && Resolve(table, owner).Ok?
    ensures Run(table, State(initial, {}), [LogIn(u), SetRoles(token, u, {}, owner)]).users == initial[u := owner]
  {
    hide Login, CanGrant, Resolve, Run;
    var s := State(initial, {});
    var first, second := LogIn(u), SetRoles(token, u, {}, owner);
    RunNone(table, s);
    RunSnoc(table, s, [], first);
    assert [] + [first] == [first] && [first] + [second] == [first, second];
    assert Run(table, s, [first]).tokens == {token};
    RunSnoc(table, s, [first], second);
    assert Changed({}, {}, owner) == owner;
  }

  lemma RunNone(table: RoleTable, s: State)
    ensures Run(table, s, []) == s
  {
  }

  /** Two actors change the roles of a third user from the same snapshot: it ends up with more than any one had. */
  lemma OverlapRunEscalates()
    ensures var p, q := Permission("user", "delete"), Permission("menu", "delete");
            var table: RoleTable := map["A" := {p}, "B" := {q}];
            var initial: map<UserId, set<Role>> := map[1 := {"A"}, 2 := {"B"}, 3 := {}];
            var a, b := Login(table, {"A"}), Login(table, {"B"});
            var steps := [LogIn(1), LogIn(2), SetRoles(a, 3, {}, {"A"}), SetRoles(b, 3, {}, {"B"})];
            !UsersBounded(table, initial, Run(table, State(initial, {}), steps))
  {
    var p, q := Permission("user", "delete"), Permission("menu", "delete");
    var table: RoleTable := map["A" := {p}, "B" := {q}];
    var initial: map<UserId, set<Role>> := map[1 := {"A"}, 2 := {"B"}, 3 := {}];
    Plain(p);
    Plain(q);
    SingleCapability(table, "A", p);
    SingleCapability(table, "B", q);
    var a, b := Login(table, {"A"}), Login(table, {"B"});
    var s := State(initial, {});
    TokenOf(table, "A");
    TokenOf(table, "B");
    GrantableExactly(table, {"A"}, a);
    GrantableExactly(table, {"B"}, b);
    OverlapStates(table, s, a, b);
    hide Run, Login, Apply, CanGrant;
    var steps := [LogIn(1), LogIn(2), SetRoles(a, 3, {}, {"A"}), SetRoles(b, 3, {}, {"B"})];
    var t := Run(table, s, steps);
    BothHeld(table, initial, p, q);
    assert 3 in t.users && t.users[3] == {"A", "B"};
  }

  lemma TokenOf(table: RoleTable, n: Role)
    requires n in table && n != PLATFORM_OWNER
    ensures {n} <= Grantable(table, Login(table, {n})) && PLATFORM_OWNER !in Login(table, {n}).roles
  {
  }

  lemma BothHeld(table: RoleTable, initial: map<UserId, set<Role>>, p: Permission, q: Permission)
    requires p != q && initial == map[1 := {"A"}, 2 := {"B"}, 3 := {}]
    requires Capability(table, {"A"}) == {p} && Capability(table, {"B"}) == {q}
    ensures !Bounded(table, initial, Capability(table, {"A", "B"}))
  {
    CapabilityGrows(table, {"A"}, {"A", "B"});
    CapabilityGrows(table, {"B"}, {"A", "B"});
    NoRoles(table);
    hide Capability;
    var both := Capability(table, {"A", "B"});
    assert p in both && q in both;
    forall u | u in initial ensures !(both <= Capability(table, initial[u])) {
      assert initial[u] == {"A"} || initial[u] == {"B"} || initial[u] == {};
    }
  }

  lemma OverlapStates(table: RoleTable, s: State, a: Claims, b: Claims)
    requires s.users == map[1 := {"A"}, 2 := {"B"}, 3 := {}] && s.tokens == {}
    requires a == Login(table, {"A"}) && b == Login(table, {"B"})
    requires CanGrant(table, {"A"}, a) && Resolve(table, {"A"}).Ok?
    requires CanGrant(table, {"B"}, b) && Resolve(table, {"B"}).Ok?
    ensures var steps := [LogIn(1), LogIn(2), SetRoles(a, 3, {}, {"A"}), SetRoles(b, 3, {}, {"B"})];
            var t := Run(table, s, steps); 3 in t.users && t.users[3] == {"A", "B"}
  {
    hide Login, CanGrant, Resolve, Run;
    var s1, s2, s3, s4 := LogIn(1), LogIn(2), SetRoles(a, 3, {}, {"A"}), SetRoles(b, 3, {}, {"B"});
    RunNone(table, s);
    RunSnoc(table, s, [], s1);
    assert [] + [s1] == [s1] && [s1] + [s2] == [s1, s2];
    RunSnoc(table, s, [s1], s2);
    assert Run(table, s, [s1, s2]) == State(s.users, {a, b});
    assert [s1, s2] + [s3] == [s1, s2, s3] && [s1, s2, s3] + [s4] == [s1, s2, s3, s4];
    RunSnoc(table, s, [s1, s2], s3);
    assert Changed({}, {}, {"A"}) == {"A"} && Changed({"A"}, {}, {"B"}) == {"A", "B"};
    RunSnoc(table, s, [s1, s2, s3], s4);
  }

  // ----- platform owners -----

  ghost predicate NoPlatformOwner(s: State) {
    && (forall u :: u in s.users ==> PLATFORM_OWNER !in s.users[u])
    && (forall c :: c in s.tokens ==> PLATFORM_OWNER !in c.roles)
  }

  /** In every run without a platform owner at first, nobody becomes one and no token says so. */
  lemma {:induction false} RunGrantsNoPlatformOwner(
    table: RoleTable, initial: map<UserId, set<Role>>, steps: seq<Step>)
    requires forall u :: u in initial ==> PLATFORM_OWNER !in initial[u]
    ensures NoPlatformOwner(Run(table, State(initial, {}), steps))
  {
    if steps != [] {
      hide Capability, Resolve;
      RunGrantsNoPlatformOwner(table, initial, steps[..|steps| - 1]);
    }
  }
}
