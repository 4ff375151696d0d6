/**
 The Stripe webhook (apps/api/src/billing/billing.service.ts): events are delivered any number of times, a
 cache remembers for 30 days which event ids were processed, and every status change is announced.
 */
module Billing {
  import opened Wrappers

  datatype Status = TRIALING | ACTIVE | PAST_DUE | UNPAID | CANCELED

  datatype Tenant = Tenant(id: string, customer: Option<string>, status: Status)

  datatype Subscription = Subscription(
    tenant: string, stripeId: Option<string>, status: Status, details: map<string, int>)

  datatype Db = Db(tenants: seq<Tenant>, subscriptions: seq<Subscription>)

  /** `data.object` of an event; `None` stands for null and for the empty string. */
  datatype Payload = Payload(
    objectType: string, id: Option<string>, customer: Option<string>, subscription: Option<string>,
    tenant: Option<string>, status: string, details: map<string, int>)

  datatype Event = Event(id: Option<string>, kind: string, payload: Option<Payload>)

  /** One delivery: when it arrives, and whether the database transaction that it may need succeeds. */
  datatype Delivery = Delivery(event: Event, at: nat, commits: bool)

  /** The domain event that listeners turn into notifications. */
  datatype Announcement = Announcement(
    tenant: string, previous: Option<Status>, status: Status, kind: string, eventId: Option<string>)

  /** `marks` says until when an event id counts as processed. */
  datatype State = State(db: Db, marks: map<string, nat>, log: seq<Announcement>)

  const IDEMPOTENCY_TTL: nat := 30 * 24 * 60 * 60

  // ----- lookups and updates -----

  function FindTenant(tenants: seq<Tenant>, p: Tenant -> bool): Option<Tenant> {
    if tenants == [] then None else if p(tenants[0]) then Some(tenants[0]) else FindTenant(tenants[1..], p)
  }

  function FindSubscription(subs: seq<Subscription>, p: Subscription -> bool): Option<Subscription> {
    if subs == [] then None else if p(subs[0]) then Some(subs[0]) else FindSubscription(subs[1..], p)
  }

  function TenantExists(db: Db, id: string): bool {
    FindTenant(db.tenants, (t: Tenant) => t.id == id).Some?
  }

  function UpdateAll<T>(rows: seq<T>, p: T -> bool, f: T -> T): seq<T> {
    seq(|rows|, i requires 0 <= i < |rows| => if p(rows[i]) then f(rows[i]) else rows[i])
  }

  /** The subscription id that an event object carries, by its type. */
  function SubscriptionOf(p: Payload): Option<string> {
    if p.objectType == "subscription" then p.id
    else if p.objectType == "invoice" then p.subscription
    else if p.customer.None? then None
    else if p.subscription.Some? then p.subscription else p.id
  }

  /** By customer, else by subscription, else by the metadata. */
  function ResolveTenant(
    db: Db, customer: Option<string>, subscription: Option<string>, metadata: Option<string>): Option<string>
  {
    var byCustomer := if customer.Some? then FindTenant(db.tenants, (t: Tenant) => t.customer == customer) else None;
    var bySubscription :=
      if subscription.Some? then FindSubscription(db.subscriptions, (r: Subscription) => r.stripeId == subscription)
      else None;
    if byCustomer.Some? then Some(byCustomer.value.id)
    else if bySubscription.Some? then Some(bySubscription.value.tenant)
    else metadata
  }

  /** Whether the event type is handled at all, and the status it sets, if any. */
  datatype Change = Ignored | NoChange | To(status: Status)

  function ChangeOf(kind: string, stripeStatus: string): Change {
    if kind == "invoice.payment_succeeded" then To(ACTIVE)
    else if kind == "invoice.payment_failed" then To(PAST_DUE)
    else if kind == "customer.subscription.deleted" then To(CANCELED)
    else if kind == "customer.subscription.updated" then
      if stripeStatus == "active" then To(ACTIVE)
      else if stripeStatus == "past_due" then To(PAST_DUE)
      else if stripeStatus == "unpaid" then To(UNPAID)
      else if stripeStatus == "canceled" then To(CANCELED)
      else NoChange
    else Ignored
  }

  // ----- the handlers -----

  /** What handling an event does; `done` says that the code reached the point where it marks the event. */
  datatype Effect = Effect(db: Db, said: seq<Announcement>, done: bool)

  /** The subscriptions that a status change reaches: by Stripe id if the event has one, else by tenant. */
  predicate Reached(r: Subscription, tenant: string, subscription: Option<string>) {
    if subscription.Some? then r.stripeId == subscription else r.tenant == tenant
  }

  function SetStatus(
    db: Db, tenant: string, subscription: Option<string>, status: Status, details: map<string, int>): Db
  {
    Db(UpdateAll(db.tenants, (t: Tenant) => t.id == tenant, (t: Tenant) => t.(status := status)),
       UpdateAll(db.subscriptions, (r: Subscription) => Reached(r, tenant, subscription),
                 (r: Subscription) => r.(status := status, details := r.details + details)))
  }

  /** Billing details come with updates of a subscription that the event identifies. */
  function DetailsOf(e: Event, p: Payload): map<string, int> {
    if e.kind == "customer.subscription.updated" && SubscriptionOf(p).Some? then p.details else map[]
  }

  function StatusOf(r: Option<Subscription>): Option<Status> {
    if r.Some? then Some(r.value.status) else None
  }

  function HandleStatus(db: Db, e: Event, p: Payload, commits: bool): Effect {
    var subscription := SubscriptionOf(p);
    var tenant := ResolveTenant(db, p.customer, subscription, p.tenant);
    var change := ChangeOf(e.kind, p.status);
    if tenant.None? || change.Ignored? then Effect(db, [], false)
    else if change.NoChange? || !commits || !TenantExists(db, tenant.value) then Effect(db, [], true)
    else
      var current := FindSubscription(db.subscriptions, (r: Subscription) => Reached(r, tenant.value, subscription));
      Effect(SetStatus(db, tenant.value, subscription, change.status, DetailsOf(e, p)),
             [Announcement(tenant.value, StatusOf(current), change.status, e.kind, e.id)], true)
  }

  /** Stores the customer and subscription ids where there are none yet. */
  function Link(db: Db, tenant: string, customer: Option<string>, subscription: Option<string>): Db {
    Db(UpdateAll(db.tenants, (t: Tenant) => t.id == tenant && t.customer.None?,
                 (t: Tenant) => t.(customer := customer)),
       UpdateAll(db.subscriptions, (r: Subscription) => r.tenant == tenant && r.stripeId.None?,
                 (r: Subscription) => r.(stripeId := subscription)))
  }

  function HandleCheckout(db: Db, e: Event, p: Payload, commits: bool): Effect {
    if p.tenant.None? || !TenantExists(db, p.tenant.value) then Effect(db, [], false)
    else Effect(if commits then Link(db, p.tenant.value, p.customer, p.subscription) else db, [], true)
  }

  function HandleTrial(db: Db, e: Event, p: Payload): Effect {
    var tenant := ResolveTenant(db, p.customer, p.id, p.tenant);
    if tenant.None? then Effect(db, [], false)
    else Effect(db, [Announcement(tenant.value, Some(TRIALING), TRIALING, e.kind, e.id)], true)
  }

  function Handle(db: Db, d: Delivery): Effect {
    var e := d.event;
    if e.payload.None? then Effect(db, [], false)  // 400
    else if e.kind == "checkout.session.completed" then HandleCheckout(db, e, e.payload.value, d.commits)
    else if e.kind == "customer.subscription.trial_will_end" then HandleTrial(db, e, e.payload.value)
    else HandleStatus(db, e, e.payload.value, d.commits)
  }

  // ----- deliveries -----

  predicate Duplicate(s: State, d: Delivery) {
    d.event.payload.Some? && d.event.id.Some? && d.event.id.value in s.marks && d.at < s.marks[d.event.id.value]
  }

  function Deliver(s: State, d: Delivery): State {
    if Duplicate(s, d) then s
    else
      var r := Handle(s.db, d);
      var marks := if r.done && d.event.id.Some? then s.marks[d.event.id.value := d.at + IDEMPOTENCY_TTL] else s.marks;
      State(r.db, marks, s.log + r.said)
  }

  function Run(s: State, ds: seq<Delivery>): State {
    if ds == [] then s else Deliver(Run(s, ds[..|ds| - 1]), ds[|ds| - 1])
  }
}
