/** The webhook handler as an object over its two tables, the cache of event ids and the announcements. */
module BillingService {
  import opened Wrappers
  import opened Billing
  import opened BillingIdempotence
  import opened BillingEffects

  class Service {
    var tenants: seq<Tenant>
    var subscriptions: seq<Subscription>
    var marks: map<string, nat>
    var log: seq<Announcement>

    ghost function Value(): State
      reads this
    {
      State(Db(tenants, subscriptions), marks, log)
    }

    /** The transaction of a status change: first the subscriptions that are reached, then the tenant. */
    method ChangeStatus(tenant: string, subscription: Option<string>, status: Status, details: map<string, int>)
      modifies `tenants, `subscriptions
      ensures Db(tenants, subscriptions) ==
              SetStatus(old(Db(tenants, subscriptions)), tenant, subscription, status, details)
    {
      ghost var after := SetStatus(Db(tenants, subscriptions), tenant, subscription, status, details);
      for i := 0 to |subscriptions|
        invariant |subscriptions| == |old(subscriptions)| && tenants == old(tenants)
        invariant forall j :: i <= j < |subscriptions| ==> subscriptions[j] == old(subscriptions)[j]
        invariant forall j :: 0 <= j < i ==> subscriptions[j] == after.subscriptions[j]
      {
        var r := subscriptions[i];
        if Reached(r, tenant, subscription) {
          subscriptions := subscriptions[i := r.(status := status, details := r.details + details)];
        }
      }
      assert subscriptions == after.subscriptions;
      for i := 0 to |tenants|
        invariant |tenants| == |old(tenants)| && subscriptions == after.subscriptions
        invariant forall j :: i <= j < |tenants| ==> tenants[j] == old(tenants)[j]
        invariant forall j :: 0 <= j < i ==> tenants[j] == after.tenants[j]
      {
        if tenants[i].id == tenant {
          tenants := tenants[i := tenants[i].(status := status)];
        }
      }
      assert tenants == after.tenants;
    }

    method HandleStripeWebhook(d: Delivery)
      modifies this
      ensures Value() == Deliver(old(Value()), d)
      ensures Delivered(old(Value()), Value(), d)
      ensures Honest(old(Value()), Value(), d)
    {
      DeliverEffect(Value(), d);
      hide Honest, Delivered, SetStatus, Link, ResolveTenant, SubscriptionOf, DetailsOf, Reached;
      hide FindTenant, FindSubscription;
      DeliverIsHonest(Value(), d);
      var e := d.event;
      if e.payload.None? {
        return;
      }
      var p := e.payload.value;
      if e.id.Some? && e.id.value in marks && d.at < marks[e.id.value] {
        return;
      }
      if e.kind == "checkout.session.completed" {
        if p.tenant.None? || !TenantExists(Db(tenants, subscriptions), p.tenant.value) {
          return;
        }
        if d.commits {
          var linked := Link(Db(tenants, subscriptions), p.tenant.value, p.customer, p.subscription);
          tenants, subscriptions := linked.tenants, linked.subscriptions;
        }
      } else if e.kind == "customer.subscription.trial_will_end" {
        var tenant := ResolveTenant(Db(tenants, subscriptions), p.customer, p.id, p.tenant);
        if tenant.None? {
          return;
        }
        log := log + [Announcement(tenant.value, Some(TRIALING), TRIALING, e.kind, e.id)];
      } else {
        var subscription := SubscriptionOf(p);
        var tenant := ResolveTenant(Db(tenants, subscriptions), p.customer, subscription, p.tenant);
        if tenant.None? {
          return;
        }
        var change := ChangeOf(e.kind, p.status);
        if change.Ignored? {
          return;
        }
        if change.To? && d.commits && TenantExists(Db(tenants, subscriptions), tenant.value) {
          var current := FindSubscription(subscriptions, (r: Subscription) => Reached(r, tenant.value, subscription));
          ChangeStatus(tenant.value, subscription, change.status, DetailsOf(e, p));
          log := log + [Announcement(tenant.value, StatusOf(current), change.status, e.kind, e.id)];
        }
      }
      if e.id.Some? {
        marks := marks[e.id.value := d.at + IDEMPOTENCY_TTL];
      }
    }
  }
}
