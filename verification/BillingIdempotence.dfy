/** Redelivery changes nothing, and statuses stay in step, with the exact condition for it. */
module BillingIdempotence {
  import opened Wrappers
  import opened Billing

  // ----- once and only once -----

  /** Handling deliveries one after another without any memory of event ids. */
  ghost function Replay(db: Db, log: seq<Announcement>, ds: seq<Delivery>): (Db, seq<Announcement>) {
    if ds == [] then (db, log)
    else
      var (db1, log1) := Replay(db, log, ds[..|ds| - 1]);
      var r := Handle(db1, ds[|ds| - 1]);
      (r.db, log1 + r.said)
  }

  /** One of these deliveries was of the same event. */
  ghost predicate Again(kept: seq<Delivery>, d: Delivery) {
    d.event.id.Some? && exists i :: 0 <= i < |kept| && kept[i].event.id == d.event.id
  }

  /** One of these deliveries was of the same event, less than 30 days ago. */
  ghost predicate Recent(kept: seq<Delivery>, d: Delivery) {
    d.event.id.Some? &&
    exists i :: 0 <= i < |kept| && kept[i].event.id == d.event.id && d.at < kept[i].at + IDEMPOTENCY_TTL
  }

  /** A delivery is kept if it is handled to the point of being marked and no repetition within 30 days. */
  ghost function Keep(db: Db, log: seq<Announcement>, kept: seq<Delivery>, d: Delivery): seq<Delivery> {
    if Recent(kept, d) || !Handle(Replay(db, log, kept).0, d).done then kept else kept + [d]
  }

  ghost function Kept(db: Db, log: seq<Announcement>, ds: seq<Delivery>): seq<Delivery> {
    if ds == [] then [] else Keep(db, log, Kept(db, log, ds[..|ds| - 1]), ds[|ds| - 1])
  }

  /** Only the first marked delivery of each event id, whatever the times. */
  ghost function FirstOnly(db: Db, log: seq<Announcement>, ds: seq<Delivery>): seq<Delivery> {
    if ds == [] then []
    else
      var kept, d := FirstOnly(db, log, ds[..|ds| - 1]), ds[|ds| - 1];
      if Again(kept, d) || !Handle(Replay(db, log, kept).0, d).done then kept else kept + [d]
  }

  /** An event that is not marked has not done anything either. */
  lemma UnmarkedIsIdle(db: Db, d: Delivery)
    ensures !Handle(db, d).done ==> Handle(db, d) == Effect(db, [], false)
    ensures Handle(db, d).done ==> d.event.payload.Some?
  {
  }

  /** The cache knows exactly the ids that were kept, each until 30 days after it was kept last. */
  ghost predicate Remembers(marks: map<string, nat>, kept: seq<Delivery>) {
    && (forall i :: 0 <= i < |kept| && kept[i].event.id.Some? ==>
          kept[i].event.id.value in marks && kept[i].at + IDEMPOTENCY_TTL <= marks[kept[i].event.id.value])
    && (forall id :: id in marks ==> KeptAs(kept, id, marks[id]))
  }

  ghost predicate KeptAs(kept: seq<Delivery>, id: string, until: nat) {
    exists i :: 0 <= i < |kept| && kept[i].event.id == Some(id) && until == kept[i].at + IDEMPOTENCY_TTL
  }

  lemma DuplicateIsRecent(s: State, kept: seq<Delivery>, d: Delivery)
    requires Remembers(s.marks, kept)
    ensures Duplicate(s, d) <==> d.event.payload.Some? && Recent(kept, d)
  {
  }

  lemma RemembersMore(marks: map<string, nat>, kept: seq<Delivery>, d: Delivery)
    requires Remembers(marks, kept) && !Recent(kept, d)
    ensures var marks' := if d.event.id.Some? then marks[d.event.id.value := d.at + IDEMPOTENCY_TTL] else marks;
            Remembers(marks', kept + [d])
  {
    var more := kept + [d];
    var marks' := if d.event.id.Some? then marks[d.event.id.value := d.at + IDEMPOTENCY_TTL] else marks;
    assert more[|kept|] == d && forall i :: 0 <= i < |kept| ==> more[i] == kept[i];
    forall id | id in marks' ensures KeptAs(more, id, marks'[id]) {
      if d.event.id != Some(id) {
        assert KeptAs(kept, id, marks[id]);
        var i :| 0 <= i < |kept| && kept[i].event.id == Some(id) && marks[id] == kept[i].at + IDEMPOTENCY_TTL;
        assert more[i] == kept[i];
      }
    }
  }

  ghost predicate Replayed(s: State, db: Db, log: seq<Announcement>, kept: seq<Delivery>) {
    (s.db, s.log) == Replay(db, log, kept) && Remembers(s.marks, kept)
  }

  lemma StepIsReplay(s: State, db: Db, log: seq<Announcement>, kept: seq<Delivery>, d: Delivery)
    requires Replayed(s, db, log, kept)
    ensures Replayed(Deliver(s, d), db, log, Keep(db, log, kept, d))
    ensures Recent(kept, d) ==> Deliver(s, d) == s
  {
    hide Handle, Duplicate, Recent, Remembers;
    UnmarkedIsIdle(s.db, d);
    DuplicateIsRecent(s, kept, d);
    if Recent(kept, d) || !Handle(s.db, d).done {
      assert s.log + [] == s.log;
      hide Replay;
    } else {
      RemembersMore(s.marks, kept, d);
      assert (kept + [d])[..|kept|] == kept;
    }
  }

  /** The service with its cache does what a service without memory does on the kept deliveries alone. */
  lemma {:induction false} RunIsReplay(s: State, ds: seq<Delivery>)
    requires s.marks == map[]
    ensures var t, kept := Run(s, ds), Kept(s.db, s.log, ds);
            (t.db, t.log) == Replay(s.db, s.log, kept) && Remembers(t.marks, kept)
  {
    if ds != [] {
      hide Keep, Remembers, Deliver, Replay;
      var init := ds[..|ds| - 1];
      RunIsReplay(s, init);
      StepIsReplay(Run(s, init), s.db, s.log, Kept(s.db, s.log, init), ds[|ds| - 1]);
    }
  }

  /** Deliveries of one event arrive within 30 days of each other. */
  ghost predicate InWindow(ds: seq<Delivery>) {
    forall i, j :: 0 <= i < j < |ds| && ds[i].event.id.Some? && ds[i].event.id == ds[j].event.id ==>
      ds[j].at < ds[i].at + IDEMPOTENCY_TTL
  }

  lemma {:induction false} KeptFromDeliveries(db: Db, log: seq<Announcement>, ds: seq<Delivery>)
    ensures forall i :: 0 <= i < |Kept(db, log, ds)| ==> Kept(db, log, ds)[i] in ds
  {
    if ds != [] {
      hide Handle, Recent;
      KeptFromDeliveries(db, log, ds[..|ds| - 1]);
    }
  }

  lemma {:induction false} KeptIsFirst(db: Db, log: seq<Announcement>, ds: seq<Delivery>)
    requires InWindow(ds)
    ensures Kept(db, log, ds) == FirstOnly(db, log, ds)
  {
    if ds != [] {
      var init, d := ds[..|ds| - 1], ds[|ds| - 1];
      KeptIsFirst(db, log, init);
      KeptFromDeliveries(db, log, init);
      var kept := Kept(db, log, init);
      if Again(kept, d) {
        var i :| 0 <= i < |kept| && kept[i].event.id == d.event.id;
        var j :| 0 <= j < |init| && init[j] == kept[i];
        assert ds[j] == kept[i] && ds[|ds| - 1] == d;
        assert Recent(kept, d);
      }
      hide Handle;
    }
  }

  /**
   Idempotence: however often events are redelivered within 30 days, rows and announcements are those of the
   first marked delivery of each event id.
   */
  lemma RedeliveryIsIdempotent(s: State, ds: seq<Delivery>)
    requires s.marks == map[] && InWindow(ds)
    ensures var t := Run(s, ds); (t.db, t.log) == Replay(s.db, s.log, FirstOnly(s.db, s.log, ds))
  {
    hide InWindow, Replay, Run;
    RunIsReplay(s, ds);
    KeptIsFirst(s.db, s.log, ds);
  }

  lemma {:induction false} RunConcat(s: State, a: seq<Delivery>, b: seq<Delivery>)
    ensures Run(s, a + b) == Run(Run(s, a), b)
  {
    if b == [] {
      assert a + b == a;
    } else {
      assert (a + b)[..|a + b| - 1] == a + b[..|b| - 1];
      RunConcat(s, a, b[..|b| - 1]);
    }
  }

  /** An event that was kept less than 30 days ago may be delivered again: the whole run stays as it was. */
  lemma RedeliveryIsInvisible(s: State, a: seq<Delivery>, d: Delivery, b: seq<Delivery>)
    requires s.marks == map[] && Recent(Kept(s.db, s.log, a), d)
    ensures Run(s, a + [d] + b) == Run(s, a + b)
  {
    var before := Run(s, a);
    RunIsReplay(s, a);
    StepIsReplay(before, s.db, s.log, Kept(s.db, s.log, a), d);
    hide Kept, Recent, Deliver;
    RunConcat(s, a + [d], b);
    RunConcat(s, a, [d]);
    RunConcat(s, a, b);
    assert [d][..0] == [];
    assert Run(before, [d]) == Deliver(before, d);
  }

  /** After 30 days the same event is handled once more. */
  lemma LateRedeliveryCounts()
    ensures var p := Payload("subscription", None, None, None, Some("t"), "", map[]);
            var e := Event(Some("e"), "customer.subscription.trial_will_end", Some(p));
            var late := [Delivery(e, 0, true), Delivery(e, IDEMPOTENCY_TTL, true)];
            !InWindow(late) && |Run(State(Db([], []), map[], []), late).log| == 2
  {
    var p := Payload("subscription", None, None, None, Some("t"), "", map[]);
    var e := Event(Some("e"), "customer.subscription.trial_will_end", Some(p));
    var first, second := Delivery(e, 0, true), Delivery(e, IDEMPOTENCY_TTL, true);
    var s := State(Db([], []), map[], []);
    var late := [first, second];
    assert late[..1] == [first] && [first][..0] == [];
    assert Run(s, [first]) == Deliver(s, first);
    assert Run(s, late) == Deliver(Deliver(s, first), second);
    assert late[0].event.id == late[1].event.id;
  }

  // ----- tenant and subscription in step -----

  ghost predicate InStep(db: Db) {
    forall i, j :: 0 <= i < |db.tenants| && 0 <= j < |db.subscriptions|
                   && db.subscriptions[j].tenant == db.tenants[i].id ==>
      db.subscriptions[j].status == db.tenants[i].status
  }

  ghost predicate HasTenant(db: Db, id: string) {
    exists i :: 0 <= i < |db.tenants| && db.tenants[i].id == id
  }

  lemma {:induction false} FindTenantById(ts: seq<Tenant>, id: string)
    ensures FindTenant(ts, (t: Tenant) => t.id == id).Some? <==> exists i :: 0 <= i < |ts| && ts[i].id == id
  {
    if ts != [] {
      FindTenantById(ts[1..], id);
      assert forall i :: 0 <= i < |ts[1..]| ==> ts[1..][i] == ts[i + 1];
      if exists i :: 0 <= i < |ts| && ts[i].id == id {
        var i :| 0 <= i < |ts| && ts[i].id == id;
        if i > 0 { assert ts[1..][i - 1].id == id; }
      }
    }
  }

  /** The change of `tenant` to `status` reaches its own subscription, or finds it there, and disturbs no other. */
  ghost predicate Hits(db: Db, tenant: string, subscription: Option<string>, status: Status) {
    forall j :: 0 <= j < |db.subscriptions| ==>
      var r := db.subscriptions[j];
      && (r.tenant == tenant ==> Reached(r, tenant, subscription) || r.status == status)
      && (r.tenant != tenant && Reached(r, tenant, subscription) && HasTenant(db, r.tenant) ==> r.status == status)
  }

  /** The rows after a status change, field by field. */
  ghost predicate StatusSet(db: Db, after: Db, tenant: string, subscription: Option<string>, status: Status) {
    && |after.tenants| == |db.tenants| && |after.subscriptions| == |db.subscriptions|
    && (forall i :: 0 <= i < |db.tenants| ==>
          && after.tenants[i].id == db.tenants[i].id
          && after.tenants[i].status == if db.tenants[i].id == tenant then status else db.tenants[i].status)
    && (forall j :: 0 <= j < |db.subscriptions| ==>
          && after.subscriptions[j].tenant == db.subscriptions[j].tenant
          && after.subscriptions[j].status ==
             if Reached(db.subscriptions[j], tenant, subscription) then status else db.subscriptions[j].status)
  }

  lemma SetStatusSets(
    db: Db, tenant: string, subscription: Option<string>, status: Status, details: map<string, int>)
    ensures StatusSet(db, SetStatus(db, tenant, subscription, status, details), tenant, subscription, status)
  {
    hide Reached;
  }

  lemma InStepHits(db: Db, after: Db, tenant: string, subscription: Option<string>, status: Status)
    requires InStep(db) && HasTenant(db, tenant) && StatusSet(db, after, tenant, subscription, status) && InStep(after)
    ensures Hits(db, tenant, subscription, status)
  {
    hide Reached;
    forall j | 0 <= j < |db.subscriptions| && HasTenant(db, db.subscriptions[j].tenant)
      ensures var r := db.subscriptions[j];
              if r.tenant == tenant then Reached(r, tenant, subscription) || r.status == status
              else Reached(r, tenant, subscription) ==> r.status == status
    {
      var i :| 0 <= i < |db.tenants| && db.tenants[i].id == db.subscriptions[j].tenant;
      assert after.subscriptions[j].tenant == after.tenants[i].id;
    }
  }

  lemma HitsInStep(db: Db, after: Db, tenant: string, subscription: Option<string>, status: Status)
    requires InStep(db) && StatusSet(db, after, tenant, subscription, status) && Hits(db, tenant, subscription, status)
    ensures InStep(after)
  {
    hide Reached;
    forall i, j | 0 <= i < |after.tenants| && 0 <= j < |after.subscriptions|
                  && after.subscriptions[j].tenant == after.tenants[i].id
      ensures after.subscriptions[j].status == after.tenants[i].status
    {
      assert db.subscriptions[j].tenant == db.tenants[i].id;
      assert HasTenant(db, db.subscriptions[j].tenant);
    }
  }

  /** Exactly when a committed status change leaves all tenants and subscriptions in step. */
  lemma InStepExactly(db: Db, tenant: string, subscription: Option<string>, status: Status, details: map<string, int>)
    requires InStep(db) && HasTenant(db, tenant)
    ensures InStep(SetStatus(db, tenant, subscription, status, details)) <==> Hits(db, tenant, subscription, status)
  {
    hide InStep, HasTenant, Hits, SetStatus, StatusSet;
    var after := SetStatus(db, tenant, subscription, status, details);
    SetStatusSets(db, tenant, subscription, status, details);
    if InStep(after) { InStepHits(db, after, tenant, subscription, status); }
    if Hits(db, tenant, subscription, status) { HitsInStep(db, after, tenant, subscription, status); }
  }

  /** One-to-one links: `owner` says whose each Stripe subscription is, and the stored links agree with it. */
  ghost predicate Coherent(db: Db, owner: map<string, string>) {
    && (forall j :: 0 <= j < |db.subscriptions| && db.subscriptions[j].stripeId.Some? ==>
          db.subscriptions[j].stripeId.value in owner
            && owner[db.subscriptions[j].stripeId.value] == db.subscriptions[j].tenant)
    && (forall i, j :: 0 <= i < |db.subscriptions| && 0 <= j < |db.subscriptions|
                       && db.subscriptions[i].tenant == db.subscriptions[j].tenant ==>
          i == j)
  }

  /** The subscription of a tenant is linked to the Stripe id. */
  ghost predicate LinkedTo(db: Db, tenant: string, stripeId: string) {
    exists j :: 0 <= j < |db.subscriptions| && db.subscriptions[j].tenant == tenant
      && db.subscriptions[j].stripeId == Some(stripeId)
  }

  /** The event speaks of a subscription that is stored for the tenant it resolves to; a checkout links its own. */
  ghost predicate Fitting(db: Db, owner: map<string, string>, d: Delivery) {
    d.event.payload.Some? ==>
      var p := d.event.payload.value;
      if d.event.kind == "checkout.session.completed" then
        p.subscription.Some? && p.tenant.Some? ==>
          p.subscription.value in owner && owner[p.subscription.value] == p.tenant.value
      else
        var tenant, subscription := ResolveTenant(db, p.customer, SubscriptionOf(p), p.tenant), SubscriptionOf(p);
        tenant.Some? && subscription.Some? && ChangeOf(d.event.kind, p.status).To? ==>
          LinkedTo(db, tenant.value, subscription.value)
  }

  /** With coherent links, the Stripe id reaches the tenant's own subscription and no other. */
  lemma LinksHit(db: Db, owner: map<string, string>, tenant: string, subscription: Option<string>, status: Status)
    requires Coherent(db, owner) && (subscription.Some? ==> LinkedTo(db, tenant, subscription.value))
    ensures Hits(db, tenant, subscription, status)
  {
    if subscription.Some? {
      var k :| 0 <= k < |db.subscriptions| && db.subscriptions[k].tenant == tenant
        && db.subscriptions[k].stripeId == subscription;
      forall j | 0 <= j < |db.subscriptions|
        ensures Reached(db.subscriptions[j], tenant, subscription) <==> db.subscriptions[j].tenant == tenant
      {
        if db.subscriptions[j].tenant == tenant { assert j == k; }
      }
    }
  }

  lemma SetStatusCoherent(
    db: Db, owner: map<string, string>, tenant: string, subscription: Option<string>, status: Status,
    details: map<string, int>)
    requires Coherent(db, owner)
    ensures Coherent(SetStatus(db, tenant, subscription, status, details), owner)
  {
    var after := SetStatus(db, tenant, subscription, status, details);
    assert |after.subscriptions| == |db.subscriptions| && forall j :: 0 <= j < |db.subscriptions| ==>
      after.subscriptions[j].tenant == db.subscriptions[j].tenant
        && after.subscriptions[j].stripeId == db.subscriptions[j].stripeId;
    hide SetStatus;
  }

  lemma LinkKeeps(
    db: Db, owner: map<string, string>, tenant: string, customer: Option<string>, subscription: Option<string>)
    requires Coherent(db, owner) && InStep(db)
             && (subscription.Some? ==> subscription.value in owner && owner[subscription.value] == tenant)
    ensures Coherent(Link(db, tenant, customer, subscription), owner)
            && InStep(Link(db, tenant, customer, subscription))
  {
    var after := Link(db, tenant, customer, subscription);
    assert |after.tenants| == |db.tenants| && |after.subscriptions| == |db.subscriptions|;
    assert forall i :: 0 <= i < |db.tenants| ==>
           after.tenants[i].id == db.tenants[i].id && after.tenants[i].status == db.tenants[i].status;
    assert forall j :: 0 <= j < |db.subscriptions| ==>
      var a, b := after.subscriptions[j], db.subscriptions[j];
      && a.tenant == b.tenant && a.status == b.status
      && a.stripeId == if b.tenant == tenant && b.stripeId.None? then subscription else b.stripeId;
    hide Link;
  }

  lemma HandleKeeps(db: Db, owner: map<string, string>, d: Delivery)
    requires Coherent(db, owner) && InStep(db) && Fitting(db, owner, d)
    ensures Coherent(Handle(db, d).db, owner) && InStep(Handle(db, d).db)
  {
    hide Coherent, InStep, SetStatus, Link, FindTenant, FindSubscription;
    var e := d.event;
    if e.payload.Some? {
      var p := e.payload.value;
      if e.kind == "checkout.session.completed" {
        if p.tenant.Some? { LinkKeeps(db, owner, p.tenant.value, p.customer, p.subscription); }
      } else if e.kind != "customer.subscription.trial_will_end" {
        var tenant, change := ResolveTenant(db, p.customer, SubscriptionOf(p), p.tenant), ChangeOf(e.kind, p.status);
        if tenant.Some? && change.To? && TenantExists(db, tenant.value) {
          FindTenantById(db.tenants, tenant.value);
          LinksHit(db, owner, tenant.value, SubscriptionOf(p), change.status);
          InStepExactly(db, tenant.value, SubscriptionOf(p), change.status, DetailsOf(e, p));
          SetStatusCoherent(db, owner, tenant.value, SubscriptionOf(p), change.status, DetailsOf(e, p));
        }
      }
    }
  }

  ghost predicate FittingRun(s: State, owner: map<string, string>, ds: seq<Delivery>) {
    forall i :: 0 <= i < |ds| ==> Duplicate(Run(s, ds[..i]), ds[i]) || Fitting(Run(s, ds[..i]).db, owner, ds[i])
  }

  /** In every such run, each tenant and its subscription show the same status. */
  lemma {:induction false} RunInStep(s: State, owner: map<string, string>, ds: seq<Delivery>)
    requires Coherent(s.db, owner) && InStep(s.db) && FittingRun(s, owner, ds)
    ensures Coherent(Run(s, ds).db, owner) && InStep(Run(s, ds).db)
  {
    if ds != [] {
      hide Coherent, InStep, Fitting, Handle, Duplicate;
      var init, d := ds[..|ds| - 1], ds[|ds| - 1];
      assert forall i :: 0 <= i < |init| ==> init[..i] == ds[..i];
      RunInStep(s, owner, init);
      if !Duplicate(Run(s, init), d) {
        HandleKeeps(Run(s, init).db, owner, d);
      }
    }
  }

  /** A payment for a subscription whose id is not stored yet moves the tenant alone. */
  lemma UnlinkedFallsOutOfStep()
    ensures var db := Db([Tenant("t", None, TRIALING)], [Subscription("t", None, TRIALING, map[])]);
            var p := Payload("invoice", None, None, Some("sub"), Some("t"), "", map[]);
            InStep(db) && !InStep(Handle(db, Delivery(Event(None, "invoice.payment_succeeded", Some(p)), 0, true)).db)
  {
    var db := Db([Tenant("t", None, TRIALING)], [Subscription("t", None, TRIALING, map[])]);
    var p := Payload("invoice", None, None, Some("sub"), Some("t"), "", map[]);
    var d := Delivery(Event(None, "invoice.payment_succeeded", Some(p)), 0, true);
    assert db.subscriptions[1..] == [];
    assert FindSubscription(db.subscriptions, (r: Subscription) => r.stripeId == Some("sub")).None?;
    assert TenantExists(db, "t");
    assert Handle(db, d).db == SetStatus(db, "t", Some("sub"), ACTIVE, map[]);
    InStepExactly(db, "t", Some("sub"), ACTIVE, map[]);
    assert db.tenants[0].id == "t" && db.subscriptions[0].tenant == "t";
  }

  // ----- links are written once, and statuses change with an announcement -----

  /** The same rows in the same places, and every Stripe id that was stored is still stored. */
  ghost predicate LinksKept(a: Db, b: Db) {
    && |a.tenants| == |b.tenants| && |a.subscriptions| == |b.subscriptions|
    && (forall i :: 0 <= i < |a.tenants| ==>
        a.tenants[i].id == b.tenants[i].id
        && (a.tenants[i].customer.Some? ==> b.tenants[i].customer == a.tenants[i].customer))
    && (forall j :: 0 <= j < |a.subscriptions| ==>
          a.subscriptions[j].tenant == b.subscriptions[j].tenant
            && (a.subscriptions[j].stripeId.Some? ==> b.subscriptions[j].stripeId == a.subscriptions[j].stripeId))
  }

  /** At most one announcement, and whoever's status changed got the status that it announces. */
  ghost predicate Announced(a: Db, b: Db, said: seq<Announcement>) {
    && |a.tenants| == |b.tenants| && |a.subscriptions| == |b.subscriptions| && |said| <= 1
    && (forall i :: 0 <= i < |a.tenants| && a.tenants[i].status != b.tenants[i].status ==>
          said != [] && said[0].tenant == a.tenants[i].id && said[0].status == b.tenants[i].status)
    && (forall j :: 0 <= j < |a.subscriptions| && a.subscriptions[j].status != b.subscriptions[j].status ==>
          said != [] && said[0].status == b.subscriptions[j].status)
  }

  lemma KeepsAll(db: Db)
    ensures LinksKept(db, db) && Announced(db, db, [])
  {
  }

  lemma LinkShape(db: Db, tenant: string, customer: Option<string>, subscription: Option<string>)
    ensures LinksKept(db, Link(db, tenant, customer, subscription))
    ensures Announced(db, Link(db, tenant, customer, subscription), [])
  {
  }

  lemma SetStatusShape(
    db: Db, tenant: string, subscription: Option<string>, status: Status, details: map<string, int>,
    a: Announcement)
    requires a.tenant == tenant && a.status == status
    ensures LinksKept(db, SetStatus(db, tenant, subscription, status, details))
    ensures Announced(db, SetStatus(db, tenant, subscription, status, details), [a])
  {
    hide Reached;
  }

  lemma HandleShape(db: Db, d: Delivery)
    ensures LinksKept(db, Handle(db, d).db) && Announced(db, Handle(db, d).db, Handle(db, d).said)
  {
    KeepsAll(db);
    hide FindTenant, FindSubscription, ChangeOf, Reached, LinksKept, SetStatus, Link, Announced, ResolveTenant;
    var e, r := d.event, Handle(db, d);
    if e.payload.Some? {
      var p := e.payload.value;
      if e.kind == "checkout.session.completed" {
        if p.tenant.Some? { LinkShape(db, p.tenant.value, p.customer, p.subscription); }
      } else if e.kind == "customer.subscription.trial_will_end" {
        AnyAnnouncement(db, r.said);
      } else if r.said != [] {
        var a := r.said[0];
        assert r.said == [a];
        SetStatusShape(db, a.tenant, SubscriptionOf(p), a.status, DetailsOf(e, p), a);
      }
    }
  }

  lemma AnyAnnouncement(db: Db, said: seq<Announcement>)
    requires |said| <= 1
    ensures Announced(db, db, said)
  {
  }

  /** No delivery ever overwrites a customer or subscription id. */
  lemma {:induction false} RunKeepsLinks(s: State, ds: seq<Delivery>)
    ensures LinksKept(s.db, Run(s, ds).db)
  {
    if ds != [] {
      hide Handle, Duplicate;
      var before := Run(s, ds[..|ds| - 1]);
      RunKeepsLinks(s, ds[..|ds| - 1]);
      HandleShape(before.db, ds[|ds| - 1]);
    }
  }

  // ----- one delivery -----

  /**
   What one delivery does to a service that has kept some deliveries: a recent repetition changes nothing at
   all, any other event is handled on top of them. Links are never overwritten, no status changes without an
   announcement, and fitting events keep tenants and subscriptions in step.
   */
  ghost predicate Honest(before: State, after: State, d: Delivery) {
    && (forall db, log, kept :: Replayed(before, db, log, kept) ==>
          Replayed(after, db, log, Keep(db, log, kept, d)) && (Recent(kept, d) ==> after == before))
    && LinksKept(before.db, after.db)
    && before.log <= after.log && Announced(before.db, after.db, after.log[|before.log|..])
    && (forall owner :: Coherent(before.db, owner) && InStep(before.db) && Fitting(before.db, owner, d) ==>
          Coherent(after.db, owner) && InStep(after.db))
  }

  lemma DeliverIsHonest(s: State, d: Delivery)
    ensures Honest(s, Deliver(s, d), d)
  {
    HandleShape(s.db, d);
    hide Handle, Coherent, InStep, Fitting, Replayed, Keep, Recent, LinksKept, Announced;
    KeepsAll(s.db);
    var said := Handle(s.db, d).said;
    assert (s.log + said)[|s.log|..] == said && s.log[|s.log|..] == [];
    forall db, log, kept | Replayed(s, db, log, kept)
      ensures Replayed(Deliver(s, d), db, log, Keep(db, log, kept, d)) && (Recent(kept, d) ==> Deliver(s, d) == s)
    {
      StepIsReplay(s, db, log, kept, d);
    }
    forall owner | Coherent(s.db, owner) && InStep(s.db) && Fitting(s.db, owner, d)
      ensures Coherent(Deliver(s, d).db, owner) && InStep(Deliver(s, d).db)
    {
      HandleKeeps(s.db, owner, d);
    }
  }
}
