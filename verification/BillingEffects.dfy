/**
 What each Stripe event does to the rows, without reference to the handler: which tenant it is about, which
 status it brings, which rows get it, and what is announced.
 */
module BillingEffects {
  import opened Wrappers
  import opened Billing

  // ----- whom an event is about -----

  ghost predicate FirstTenant(ts: seq<Tenant>, customer: Option<string>, i: nat) {
    i < |ts| && ts[i].customer == customer && forall j :: 0 <= j < i ==> ts[j].customer != customer
  }

  ghost predicate FirstLinked(rs: seq<Subscription>, stripeId: Option<string>, i: nat) {
    i < |rs| && rs[i].stripeId == stripeId && forall j :: 0 <= j < i ==> rs[j].stripeId != stripeId
  }

  /** The tenant with the customer id; else that of the subscription with the Stripe id; else the metadata. */
  ghost predicate Resolves(
    db: Db, customer: Option<string>, subscription: Option<string>, metadata: Option<string>, who: Option<string>)
  {
    if customer.Some? && exists i: nat :: FirstTenant(db.tenants, customer, i) then
      exists i: nat :: FirstTenant(db.tenants, customer, i) && who == Some(db.tenants[i].id)
    else if subscription.Some? && exists j: nat :: FirstLinked(db.subscriptions, subscription, j) then
      exists j: nat :: FirstLinked(db.subscriptions, subscription, j) && who == Some(db.subscriptions[j].tenant)
    else who == metadata
  }

  lemma {:induction false} FindTenantFirst(ts: seq<Tenant>, p: Tenant -> bool)
    ensures var r := FindTenant(ts, p);
            if r.None? then forall i :: 0 <= i < |ts| ==> !p(ts[i])
            else exists i :: 0 <= i < |ts| && ts[i] == r.value && p(ts[i]) && forall j :: 0 <= j < i ==> !p(ts[j])
  {
    if ts != [] {
      FindTenantFirst(ts[1..], p);
      assert forall i :: 0 < i < |ts| ==> ts[i] == ts[1..][i - 1];
      if p(ts[0]) {
        assert ts[0] == FindTenant(ts, p).value;
      } else if FindTenant(ts[1..], p).Some? {
        var i :| 0 <= i < |ts[1..]| && ts[1..][i] == FindTenant(ts, p).value && p(ts[1..][i])
                 && forall j :: 0 <= j < i ==> !p(ts[1..][j]);
        assert ts[i + 1] == ts[1..][i];
        assert forall j :: 0 <= j < i + 1 ==> !p(ts[j]);
      }
    }
  }

  lemma {:induction false} FindSubscriptionFirst(rs: seq<Subscription>, p: Subscription -> bool)
    ensures var r := FindSubscription(rs, p);
            if r.None? then forall i :: 0 <= i < |rs| ==> !p(rs[i])
            else exists i :: 0 <= i < |rs| && rs[i] == r.value && p(rs[i]) && forall j :: 0 <= j < i ==> !p(rs[j])
  {
    if rs != [] {
      FindSubscriptionFirst(rs[1..], p);
      assert forall i :: 0 < i < |rs| ==> rs[i] == rs[1..][i - 1];
      if p(rs[0]) {
        assert rs[0] == FindSubscription(rs, p).value;
      } else if FindSubscription(rs[1..], p).Some? {
        var i :| 0 <= i < |rs[1..]| && rs[1..][i] == FindSubscription(rs, p).value && p(rs[1..][i])
                 && forall j :: 0 <= j < i ==> !p(rs[1..][j]);
        assert rs[i + 1] == rs[1..][i];
        assert forall j :: 0 <= j < i + 1 ==> !p(rs[j]);
      }
    }
  }

  lemma TenantByCustomer(ts: seq<Tenant>, customer: Option<string>)
    ensures var r := FindTenant(ts, (t: Tenant) => t.customer == customer);
            && (r.Some? <==> exists i: nat :: FirstTenant(ts, customer, i))
            && (r.Some? ==> exists i: nat :: FirstTenant(ts, customer, i) && ts[i] == r.value)
  {
    var p := (t: Tenant) => t.customer == customer;
    FindTenantFirst(ts, p);
    var r := FindTenant(ts, p);
    if r.Some? {
      var i :| 0 <= i < |ts| && ts[i] == r.value && p(ts[i]) && forall j :: 0 <= j < i ==> !p(ts[j]);
      assert forall j :: 0 <= j < i ==> ts[j].customer != customer by { assert forall j :: 0 <= j < i ==> !p(ts[j]); }
      assert FirstTenant(ts, customer, i);
    } else {
      assert forall i :: 0 <= i < |ts| ==> !p(ts[i]);
    }
  }

  lemma SubscriptionByLink(rs: seq<Subscription>, stripeId: Option<string>)
    ensures var r := FindSubscription(rs, (r: Subscription) => r.stripeId == stripeId);
            && (r.Some? <==> exists i: nat :: FirstLinked(rs, stripeId, i))
            && (r.Some? ==> exists i: nat :: FirstLinked(rs, stripeId, i) && rs[i] == r.value)
  {
    var p := (r: Subscription) => r.stripeId == stripeId;
    FindSubscriptionFirst(rs, p);
    var r := FindSubscription(rs, p);
    if r.Some? {
      var i :| 0 <= i < |rs| && rs[i] == r.value && p(rs[i]) && forall j :: 0 <= j < i ==> !p(rs[j]);
      assert forall j :: 0 <= j < i ==> rs[j].stripeId != stripeId by { assert forall j :: 0 <= j < i ==> !p(rs[j]); }
      assert FirstLinked(rs, stripeId, i);
    } else {
      assert forall i :: 0 <= i < |rs| ==> !p(rs[i]);
    }
  }

  lemma ResolveEffect(db: Db, customer: Option<string>, subscription: Option<string>, metadata: Option<string>)
    ensures Resolves(db, customer, subscription, metadata, ResolveTenant(db, customer, subscription, metadata))
  {
    hide FindTenant, FindSubscription, FirstTenant, FirstLinked;
    TenantByCustomer(db.tenants, customer);
    SubscriptionByLink(db.subscriptions, subscription);
  }

  // ----- what it brings -----

  /** The status that an event type brings, for an update by the Stripe status it carries. */
  ghost predicate Brings(kind: string, stripeStatus: string, status: Status) {
    || (kind == "invoice.payment_succeeded" && status == ACTIVE)
    || (kind == "invoice.payment_failed" && status == PAST_DUE)
    || (kind == "customer.subscription.deleted" && status == CANCELED)
    || (kind == "customer.subscription.updated" &&
        (stripeStatus, status) in
        {("active", ACTIVE), ("past_due", PAST_DUE), ("unpaid", UNPAID), ("canceled", CANCELED)})
  }

  ghost predicate Handled(kind: string) {
    kind in {"invoice.payment_succeeded", "invoice.payment_failed",
             "customer.subscription.deleted", "customer.subscription.updated"}
  }

  lemma ChangeEffect(kind: string, stripeStatus: string)
    ensures ChangeOf(kind, stripeStatus).Ignored? <==> !Handled(kind)
    ensures forall status :: ChangeOf(kind, stripeStatus) == To(status) <==> Brings(kind, stripeStatus, status)
  {
  }

  /** The subscription id that the event object carries. */
  ghost predicate Carries(p: Payload, subscription: Option<string>) {
    if p.objectType == "subscription" then subscription == p.id
    else if p.objectType == "invoice" then subscription == p.subscription
    else if p.customer.None? then subscription.None?
    else subscription == if p.subscription.Some? then p.subscription else p.id
  }

  // ----- which rows get it -----

  ghost predicate OnRow(r: Subscription, who: string, subscription: Option<string>) {
    if subscription.Some? then r.stripeId == subscription else r.tenant == who
  }

  ghost predicate Exists(db: Db, who: string) {
    exists i :: 0 <= i < |db.tenants| && db.tenants[i].id == who
  }

  /** The tenant and the subscriptions on its account have the status; all else is as it was. */
  ghost predicate StatusWritten(
    db: Db, after: Db, who: string, subscription: Option<string>, status: Status, details: map<string, int>)
  {
    && |after.tenants| == |db.tenants| && |after.subscriptions| == |db.subscriptions|
    && (forall i :: 0 <= i < |db.tenants| ==>
          var t := db.tenants[i];
          after.tenants[i] == Tenant(t.id, t.customer, if t.id == who then status else t.status))
    && (forall j :: 0 <= j < |db.subscriptions| ==>
          var r := db.subscriptions[j];
          after.subscriptions[j] ==
          if OnRow(r, who, subscription) then Subscription(r.tenant, r.stripeId, status, r.details + details) else r)
  }

  /** The status that the first of those subscriptions had. */
  ghost predicate Was(db: Db, who: string, subscription: Option<string>, previous: Option<Status>) {
    if exists j :: 0 <= j < |db.subscriptions| && OnRow(db.subscriptions[j], who, subscription) then
      exists j :: 0 <= j < |db.subscriptions| && OnRow(db.subscriptions[j], who, subscription)
        && previous == Some(db.subscriptions[j].status)
        && forall i :: 0 <= i < j ==> !OnRow(db.subscriptions[i], who, subscription)
    else previous == None
  }

  ghost predicate StatusHandled(
    db: Db, e: Event, p: Payload, commits: bool, who: Option<string>, subscription: Option<string>, r: Effect)
  {
    if who.None? || !Handled(e.kind) then r == Effect(db, [], false)
    else if !commits || !Exists(db, who.value) || !exists status :: Brings(e.kind, p.status, status) then
      r == Effect(db, [], true)
    else
      exists status, previous ::
        && Brings(e.kind, p.status, status) && Was(db, who.value, subscription, previous)
        && StatusWritten(db, r.db, who.value, subscription, status,
             if e.kind == "customer.subscription.updated" && subscription.Some? then p.details else map[])
        && r.said == [Announcement(who.value, previous, status, e.kind, e.id)] && r.done
  }

  lemma TenantById(db: Db, who: string)
    ensures TenantExists(db, who) <==> Exists(db, who)
  {
    var p := (t: Tenant) => t.id == who;
    FindTenantFirst(db.tenants, p);
    hide FindTenant;
    if Exists(db, who) {
      var i :| 0 <= i < |db.tenants| && db.tenants[i].id == who;
      assert p(db.tenants[i]);
    }
  }

  lemma PreviousEffect(db: Db, who: string, subscription: Option<string>)
    ensures Was(db, who, subscription,
                StatusOf(FindSubscription(db.subscriptions, (r: Subscription) => Reached(r, who, subscription))))
  {
    var p := (r: Subscription) => Reached(r, who, subscription);
    FindSubscriptionFirst(db.subscriptions, p);
    assert forall r :: p(r) <==> OnRow(r, who, subscription);
    hide FindSubscription, Reached, OnRow;
    var found := FindSubscription(db.subscriptions, p);
    if found.Some? {
      var i :| 0 <= i < |db.subscriptions| && db.subscriptions[i] == found.value && p(db.subscriptions[i])
               && forall j :: 0 <= j < i ==> !p(db.subscriptions[j]);
      assert OnRow(db.subscriptions[i], who, subscription);
      assert forall j :: 0 <= j < i ==> !OnRow(db.subscriptions[j], who, subscription) by {
        assert forall j :: 0 <= j < i ==> !p(db.subscriptions[j]);
      }
    } else {
      assert forall i :: 0 <= i < |db.subscriptions| ==> !p(db.subscriptions[i]);
    }
  }

  lemma SetStatusEffect(
    db: Db, who: string, subscription: Option<string>, status: Status, details: map<string, int>)
    ensures StatusWritten(db, SetStatus(db, who, subscription, status, details), who, subscription, status, details)
  {
  }

  lemma StatusEffect(db: Db, e: Event, p: Payload, commits: bool)
    ensures exists who, subscription ::
              && Carries(p, subscription) && Resolves(db, p.customer, subscription, p.tenant, who)
              && StatusHandled(db, e, p, commits, who, subscription, HandleStatus(db, e, p, commits))
  {
    var subscription := SubscriptionOf(p);
    assert Carries(p, subscription);
    var who := ResolveTenant(db, p.customer, subscription, p.tenant);
    ResolveEffect(db, p.customer, subscription, p.tenant);
    ChangeEffect(e.kind, p.status);
    var change := ChangeOf(e.kind, p.status);
    assert change.To? ==> Brings(e.kind, p.status, change.status);
    assert !change.To? ==> !exists status :: Brings(e.kind, p.status, status);
    hide Carries, Resolves, ResolveTenant, ChangeOf, Brings, Handled, SubscriptionOf, SetStatus, FindSubscription;
    if who.Some? {
      TenantById(db, who.value);
      PreviousEffect(db, who.value, subscription);
      if change.To? {
        SetStatusEffect(db, who.value, subscription, change.status, DetailsOf(e, p));
      }
    }
    hide Was, StatusWritten, Exists, TenantExists, StatusOf;
    assert subscription == SubscriptionOf(p);
    assert StatusHandled(db, e, p, commits, who, subscription, HandleStatus(db, e, p, commits));
  }

  // ----- checkouts and ending trials -----

  /** Stripe ids are stored where there were none; all else is as it was. */
  ghost predicate LinksWritten(
    db: Db, after: Db, who: string, customer: Option<string>, subscription: Option<string>)
  {
    && |after.tenants| == |db.tenants| && |after.subscriptions| == |db.subscriptions|
    && (forall i :: 0 <= i < |db.tenants| ==>
          var t := db.tenants[i];
          after.tenants[i] == if t.id == who && t.customer.None? then Tenant(t.id, customer, t.status) else t)
    && (forall j :: 0 <= j < |db.subscriptions| ==>
          var r := db.subscriptions[j];
          after.subscriptions[j] ==
          if r.tenant == who && r.stripeId.None? then Subscription(r.tenant, subscription, r.status, r.details) else r)
  }

  ghost predicate CheckoutHandled(db: Db, p: Payload, commits: bool, r: Effect) {
    if p.tenant.None? || !Exists(db, p.tenant.value) then r == Effect(db, [], false)
    else r.said == [] && r.done
         && if commits then LinksWritten(db, r.db, p.tenant.value, p.customer, p.subscription) else r.db == db
  }

  ghost predicate TrialHandled(db: Db, e: Event, who: Option<string>, r: Effect) {
    r == if who.None? then Effect(db, [], false)
         else Effect(db, [Announcement(who.value, Some(TRIALING), TRIALING, e.kind, e.id)], true)
  }

  lemma CheckoutEffect(db: Db, e: Event, p: Payload, commits: bool)
    ensures CheckoutHandled(db, p, commits, HandleCheckout(db, e, p, commits))
  {
    if p.tenant.Some? { TenantById(db, p.tenant.value); }
    hide TenantExists, Exists;
  }

  lemma TrialEffect(db: Db, e: Event, p: Payload)
    ensures exists who ::
              Resolves(db, p.customer, p.id, p.tenant, who) && TrialHandled(db, e, who, HandleTrial(db, e, p))
  {
    ResolveEffect(db, p.customer, p.id, p.tenant);
    hide ResolveTenant, Resolves;
  }

  // ----- one delivery -----

  /** What one event does, by its type. */
  ghost predicate EventHandled(db: Db, d: Delivery, r: Effect) {
    var e := d.event;
    if e.payload.None? then r == Effect(db, [], false)
    else
      var p := e.payload.value;
      if e.kind == "checkout.session.completed" then CheckoutHandled(db, p, d.commits, r)
      else if e.kind == "customer.subscription.trial_will_end" then
        exists who :: Resolves(db, p.customer, p.id, p.tenant, who) && TrialHandled(db, e, who, r)
      else
        exists who, subscription ::
          && Carries(p, subscription) && Resolves(db, p.customer, subscription, p.tenant, who)
          && StatusHandled(db, e, p, d.commits, who, subscription, r)
  }

  lemma HandleEffect(db: Db, d: Delivery)
    ensures EventHandled(db, d, Handle(db, d))
  {
    hide HandleStatus, HandleCheckout, HandleTrial, StatusHandled, CheckoutHandled, TrialHandled, Resolves, Carries;
    var e := d.event;
    if e.payload.Some? {
      CheckoutEffect(db, e, e.payload.value, d.commits);
      TrialEffect(db, e, e.payload.value);
      StatusEffect(db, e, e.payload.value, d.commits);
    }
  }

  /** An event that is not remembered has its effect, and is remembered for 30 days if it was handled. */
  ghost predicate Delivered(before: State, after: State, d: Delivery) {
    var id := d.event.id;
    if d.event.payload.Some? && id.Some? && id.value in before.marks && d.at < before.marks[id.value]
    then after == before
    else
      exists r: Effect ::
        && EventHandled(before.db, d, r)
        && after == State(r.db, if r.done && id.Some? then before.marks[id.value := d.at + 2592000] else before.marks,
                          before.log + r.said)
  }

  lemma DeliverEffect(s: State, d: Delivery)
    ensures Delivered(s, Deliver(s, d), d)
  {
    hide EventHandled, Handle;
    HandleEffect(s.db, d);
  }
}
