/**
 Under a tenant's context the shared table behaves like a private table of that tenant. The two layers
 refine a store that knows one thing about the other tenants: which ids their rows have taken. Whatever
 the caller passes, the rows of the others stay as they are, and a reply depends on them only where an
 id that the caller brings in is taken.
 */
module TenantIsolation {
  import opened Wrappers
  import opened TenantScope

  ghost function Own(rows: Rows, t: Tenant): Rows {
    map id | id in rows && rows[id].tenant == t :: rows[id]
  }

  ghost function Foreign(rows: Rows, t: Tenant): Rows {
    map id | id in rows && rows[id].tenant != t :: rows[id]
  }

  // ----- the private store: what the repository promises, without the rows of others -----

  /** What a tenant can tell of the table: its own rows, and the ids it cannot use. */
  datatype View = View(own: Rows, taken: set<Id>)

  ghost function ViewOf(rows: Rows, t: Tenant): View {
    View(Own(rows, t), Foreign(rows, t).Keys)
  }

  ghost predicate Visible(own: Rows, softDeletable: bool, id: Id) {
    id in own && (softDeletable ==> own[id].deletedAt.None?)
  }

  /** The caller's filter; what it says about tenants does not matter. */
  ghost predicate Passes(where: Where, softDeletable: bool, id: Id, row: Row) {
    Matches(where - {"tenantId"}, id, row) && (softDeletable && "deletedAt" !in where ==> row.deletedAt.None?)
  }

  ghost function Filtered(own: Rows, softDeletable: bool, where: Where): Rows {
    map id | id in own && Passes(where, softDeletable, id, own[id]) :: own[id]
  }

  /** The operation on a table that holds nothing but the rows of `t`. */
  ghost function Alone(own: Rows, t: Tenant, softDeletable: bool, op: Op, listing: Listing): (Rows, Reply) {
    match op
    case FindById(id) => (own, Found(if Visible(own, softDeletable, id) then Some((id, own[id])) else None))
    case FindIncludingDeleted(id) => (own, Found(if id in own then Some((id, own[id])) else None))
    case FindManyOp(where, take, skip) =>
      var limit := if take.Some? then take.value else DEFAULT_MAX_ROWS;
      (own, Listed(Page(listing(Filtered(own, softDeletable, where)), limit, skip)))
    case CountOp(where) => (own, Counted(|Filtered(own, softDeletable, where)|))
    case CreateOp(data, generated) =>
      if Set(data.tenant) && data.tenant.value != t then (own, Failed(CrossTenant))
      else Insert(own, data.(tenant := Some(t)), generated)
    case UpdateOp(id, data) =>
      if Visible(own, softDeletable, id) then Rewrite(own, id, data) else (own, Failed(NotFound))
    case DeleteOp(id) =>
      if Visible(own, softDeletable, id) then (own - {id}, Found(Some((id, own[id])))) else (own, Failed(NotFound))
    case SoftDeleteOp(id, extra, now) =>
      if id !in own then (own, Failed(NotFound))
      else if own[id].deletedAt.Some? then (own, Found(Some((id, own[id]))))
      else Rewrite(own, id, extra.(deletedAt := Some(Some(now))))
    case RestoreOp(id, extra) =>
      if id !in own then (own, Failed(NotFound))
      else if own[id].deletedAt.None? then (own, Found(Some((id, own[id]))))
      else Rewrite(own, id, extra.(deletedAt := Some(None)))
  }

  ghost function Payload(op: Op): Option<Data> {
    match op
    case CreateOp(data, _) => Some(data)
    case UpdateOp(_, data) => Some(data)
    case SoftDeleteOp(_, extra, _) => Some(extra)
    case RestoreOp(_, extra) => Some(extra)
    case _ => None
  }

  /** An update finds the row that it is to change. */
  ghost predicate Reaches(own: Rows, softDeletable: bool, op: Op) {
    match op
    case UpdateOp(id, _) => Visible(own, softDeletable, id)
    case SoftDeleteOp(id, _, _) => id in own && own[id].deletedAt.None?
    case RestoreOp(id, _) => id in own && own[id].deletedAt.Some?
    case _ => false
  }

  /** The id that the operation brings in and is about to store a row under, if it gets that far. */
  ghost function NewId(own: Rows, t: Tenant, softDeletable: bool, op: Op): Option<Id> {
    if op.CreateOp? then
      if Set(op.data.tenant) && op.data.tenant.value != t then None
      else Some(if op.data.id.Some? then op.data.id.value else op.generated)
    else if Reaches(own, softDeletable, op) then Payload(op).value.id
    else None
  }

  /** The id that comes in is that of a row of somebody else. */
  ghost predicate Collides(v: View, t: Tenant, softDeletable: bool, op: Op) {
    var id := NewId(v.own, t, softDeletable, op);
    id.Some? && id.value in v.taken
  }

  /** A row whose payload names another tenant leaves the store; its id stays taken. */
  ghost function Private(v: View, t: Tenant, softDeletable: bool, op: Op, listing: Listing): (View, Reply) {
    if Collides(v, t, softDeletable, op) then (v, Failed(Constraint))
    else
      var p := Alone(v.own, t, softDeletable, op, listing);
      (View(Own(p.0, t), v.taken + Foreign(p.0, t).Keys), p.1)
  }

  /** The database lists what it selected and nothing else. */
  ghost predicate Faithful(listing: Listing) {
    forall m: Rows ::
      && |listing(m)| == |m|
      && forall i :: 0 <= i < |listing(m)| ==> listing(m)[i].0 in m && m[listing(m)[i].0] == listing(m)[i].1
  }

  /** Every row of another tenant is still there, as it was. */
  ghost predicate ForeignKept(before: Rows, after: Rows, t: Tenant) {
    forall id :: id in Foreign(before, t) ==> id in Foreign(after, t) && after[id] == before[id]
  }

  // ----- refinement -----

  lemma SelectOwn(rows: Rows, t: Tenant, softDeletable: bool, where: Where)
    ensures Select(rows, ScopedWhere(softDeletable, where, Some(t))["tenantId" := TenantIs(t)]) ==
            Filtered(Own(rows, t), softDeletable, where)
  {
    var w := ScopedWhere(softDeletable, where, Some(t))["tenantId" := TenantIs(t)];
    var own := Own(rows, t);
    forall id | id in rows
      ensures Matches(w, id, rows[id]) <==> id in own && Passes(where, softDeletable, id, rows[id])
    {
      MatchOwn(where, w, t, softDeletable, id, rows[id]);
    }
  }

  lemma MatchOwn(where: Where, w: Where, t: Tenant, softDeletable: bool, id: Id, row: Row)
    requires w == ScopedWhere(softDeletable, where, Some(t))["tenantId" := TenantIs(t)]
    ensures Matches(w, id, row) <==> row.tenant == t && Passes(where, softDeletable, id, row)
  {
    assert w["tenantId"].p(id, row) <==> row.tenant == t;
    if softDeletable && "deletedAt" !in where {
      assert "deletedAt" in w && w["deletedAt"] == LIVE && (LIVE.p(id, row) <==> row.deletedAt.None?);
      assert w == where["deletedAt" := LIVE]["tenantId" := TenantIs(t)];
    } else {
      assert w == where["tenantId" := TenantIs(t)];
    }
    if Matches(w, id, row) {
      forall k | k in where - {"tenantId"} && where[k].Test? ensures where[k].p(id, row) {
        assert k in w && w[k] == where[k];
      }
    }
    if row.tenant == t && Passes(where, softDeletable, id, row) {
      forall k | k in w && w[k].Test? ensures w[k].p(id, row) {
        assert k == "tenantId" || (k in where - {"tenantId"} && w[k] == where[k]) || (k == "deletedAt" && w[k] == LIVE);
      }
    }
  }

  lemma OneRow(m: Rows, id: Id, listing: Listing)
    requires Faithful(listing) && forall i :: i in m ==> i == id
    ensures First(listing(m)) == if id in m then Some((id, m[id])) else None
  {
    if id in m {
      assert m.Keys == {id};
      assert |m| == |m.Keys| == 1;
    } else {
      assert m.Keys == {};
      assert |m| == |m.Keys| == 0;
    }
  }

  lemma FindsVisible(rows: Rows, t: Tenant, softDeletable: bool, id: Id, listing: Listing)
    requires Faithful(listing)
    ensures var own := Own(rows, t);
            First(listing(Select(rows, ScopedWhere(softDeletable, IdIs(id), Some(t))["tenantId" := TenantIs(t)])))
            == if Visible(own, softDeletable, id) then Some((id, own[id])) else None
  {
    var own := Own(rows, t);
    var m := Filtered(own, softDeletable, IdIs(id));
    SelectOwn(rows, t, softDeletable, IdIs(id));
    assert IdIs(id) - {"tenantId"} == IdIs(id);
    assert forall i, r :: Matches(IdIs(id), i, r) <==> i == id by {
      assert "id" in IdIs(id) && forall i, r :: IdIs(id)["id"].p(i, r) <==> i == id;
    }
    OneRow(m, id, listing);
  }

  lemma FindsAny(rows: Rows, t: Tenant, softDeletable: bool, id: Id, listing: Listing)
    requires Faithful(listing)
    ensures var own := Own(rows, t);
            First(listing(Select(rows, ScopedWhere(softDeletable, AnyIdIs(id), Some(t))["tenantId" := TenantIs(t)])))
            == if id in own then Some((id, own[id])) else None
  {
    var own := Own(rows, t);
    var w := AnyIdIs(id);
    var m := Filtered(own, softDeletable, w);
    SelectOwn(rows, t, softDeletable, w);
    assert w - {"tenantId"} == w && "deletedAt" in w && w["deletedAt"] == Undefined;
    assert forall i, r :: Matches(w, i, r) <==> i == id by {
      assert "id" in w && forall i, r :: w["id"].p(i, r) <==> i == id;
    }
    OneRow(m, id, listing);
  }

  lemma SplitRows(rows: Rows, t: Tenant)
    ensures rows == Foreign(rows, t) + Own(rows, t)
  {
  }

  /** Changing one own row. */
  lemma RewriteOwn(rows: Rows, t: Tenant, id: Id, data: Data)
    requires id in Own(rows, t)
    ensures var p := Rewrite(Own(rows, t), id, data);
            Rewrite(rows, id, data) ==
            if data.id.Some? && data.id.value in Foreign(rows, t) then (rows, Failed(Constraint))
            else (Foreign(rows, t) + p.0, p.1)
  {
    var own, foreign := Own(rows, t), Foreign(rows, t);
    var id' := if data.id.Some? then data.id.value else id;
    var row := Patch(rows[id], data);
    SplitRows(rows, t);
    if !(id' != id && id' in rows) {
      assert (rows - {id})[id' := row] == foreign + (own - {id})[id' := row];
    }
  }

  lemma UpdateOwn(rows: Rows, t: Tenant, ctx: Context, id: Id, data: Data, listing: Listing)
    requires ctx.tenant == Some(t) && t != "" && id in Own(rows, t)
    ensures Client(rows, ctx, Update(id, map[], data), listing) == Rewrite(rows, id, data)
  {
    var w: Where := map["tenantId" := TenantIs(t)];
    assert w["tenantId"].p(id, rows[id]);
    assert Matches(w, id, rows[id]);
  }

  lemma DeleteOwn(rows: Rows, t: Tenant, ctx: Context, id: Id, listing: Listing)
    requires ctx.tenant == Some(t) && t != "" && id in Own(rows, t)
    ensures Client(rows, ctx, Delete(id, map[]), listing)
            == (Foreign(rows, t) + (Own(rows, t) - {id}), Found(Some((id, Own(rows, t)[id]))))
  {
    var w: Where := map["tenantId" := TenantIs(t)];
    assert w["tenantId"].p(id, rows[id]);
    assert Matches(w, id, rows[id]);
    SplitRows(rows, t);
    assert rows - {id} == Foreign(rows, t) + (Own(rows, t) - {id});
  }

  lemma InsertOwn(rows: Rows, t: Tenant, data: Data, generated: Id)
    requires data.tenant == Some(t)
    ensures var p := Insert(Own(rows, t), data, generated);
            var id := if data.id.Some? then data.id.value else generated;
            Insert(rows, data, generated) ==
            if id in Foreign(rows, t) then (rows, Failed(Constraint)) else (Foreign(rows, t) + p.0, p.1)
  {
    var id := if data.id.Some? then data.id.value else generated;
    SplitRows(rows, t);
    if id !in rows {
      var row := Patch(Row(t, None, map[]), data);
      assert rows[id := row] == Foreign(rows, t) + Own(rows, t)[id := row];
    }
  }

  /** The call leaves the foreign rows beside what the same call makes of the tenant's own table. */
  ghost predicate Beside(rows: Rows, t: Tenant, ctx: Context, softDeletable: bool, op: Op, listing: Listing) {
    var p := Alone(Own(rows, t), t, softDeletable, op, listing);
    Repository(rows, ctx, softDeletable, op, listing) ==
    if Collides(ViewOf(rows, t), t, softDeletable, op) then (rows, Failed(Constraint))
    else (Foreign(rows, t) + p.0, p.1)
  }

  /** The lookups before a write find own rows, by the id alone. */
  lemma LooksUp(rows: Rows, t: Tenant, ctx: Context, softDeletable: bool, id: Id, listing: Listing)
    requires ctx.tenant == Some(t) && t != "" && Faithful(listing)
    ensures var own := Own(rows, t);
            && Lookup(rows, ctx, softDeletable, IdIs(id), Some(t), listing)
               == (if Visible(own, softDeletable, id) then Some((id, own[id])) else None)
            && Lookup(rows, ctx, softDeletable, AnyIdIs(id), Some(t), listing)
               == (if id in own then Some((id, own[id])) else None)
  {
    FindsVisible(rows, t, softDeletable, id, listing);
    FindsAny(rows, t, softDeletable, id, listing);
    hide Faithful, ScopedWhere, Select, First, Own, Visible, IdIs, AnyIdIs;
  }

  /** The operations that look a row up and then write it. */
  lemma RefinesWrite(rows: Rows, t: Tenant, ctx: Context, softDeletable: bool, op: Op, listing: Listing)
    requires ctx.tenant == Some(t) && t != "" && Faithful(listing)
    requires op.UpdateOp? || op.SoftDeleteOp? || op.RestoreOp?
    ensures Beside(rows, t, ctx, softDeletable, op, listing)
  {
    hide Faithful, Lookup, Rewrite, Insert, Client, Own, Foreign, Filtered, IdIs, AnyIdIs, ScopedWhere;
    SplitRows(rows, t);
    LooksUp(rows, t, ctx, softDeletable, op.id, listing);
    var data := if op.UpdateOp? then op.data
                else if op.SoftDeleteOp? then op.extra.(deletedAt := Some(Some(op.now)))
                else op.extra.(deletedAt := Some(None));
    if op.id in Own(rows, t) {
      UpdateOwn(rows, t, ctx, op.id, data, listing);
      RewriteOwn(rows, t, op.id, data);
    }
  }

  lemma RefinesFind(rows: Rows, t: Tenant, ctx: Context, softDeletable: bool, op: Op, listing: Listing)
    requires ctx.tenant == Some(t) && t != "" && Faithful(listing) && (op.FindById? || op.FindIncludingDeleted?)
    ensures Beside(rows, t, ctx, softDeletable, op, listing)
  {
    hide Faithful, Select, ScopedWhere, Lookup, Rewrite, Insert, Own, Foreign, Visible, First, IdIs, AnyIdIs;
    SplitRows(rows, t);
    FindsVisible(rows, t, softDeletable, op.id, listing);
    FindsAny(rows, t, softDeletable, op.id, listing);
  }

  lemma RefinesList(rows: Rows, t: Tenant, ctx: Context, softDeletable: bool, op: Op, listing: Listing)
    requires ctx.tenant == Some(t) && t != "" && (op.FindManyOp? || op.CountOp?)
    ensures Beside(rows, t, ctx, softDeletable, op, listing)
  {
    hide Select, ScopedWhere, Lookup, Rewrite, Insert, Own, Foreign, Filtered, Page, First, IdIs, AnyIdIs;
    SplitRows(rows, t);
    SelectOwn(rows, t, softDeletable, op.where);
  }

  lemma RefinesCreate(
    rows: Rows, t: Tenant, ctx: Context, softDeletable: bool, data: Data, generated: Id, listing: Listing)
    requires ctx.tenant == Some(t) && t != ""
    ensures Beside(rows, t, ctx, softDeletable, CreateOp(data, generated), listing)
  {
    hide Rewrite, Insert, Own, Foreign, Lookup, Filtered, ScopedWhere;
    SplitRows(rows, t);
    InsertOwn(rows, t, data.(tenant := Some(t)), generated);
  }

  lemma RefinesDelete(rows: Rows, t: Tenant, ctx: Context, softDeletable: bool, id: Id, listing: Listing)
    requires ctx.tenant == Some(t) && t != "" && Faithful(listing)
    ensures Beside(rows, t, ctx, softDeletable, DeleteOp(id), listing)
  {
    hide Faithful, Lookup, Rewrite, Insert, Client, Own, Foreign, Filtered, IdIs, AnyIdIs, ScopedWhere;
    SplitRows(rows, t);
    LooksUp(rows, t, ctx, softDeletable, id, listing);
    if Visible(Own(rows, t), softDeletable, id) { DeleteOwn(rows, t, ctx, id, listing); }
  }

  lemma OneCall(rows: Rows, t: Tenant, ctx: Context, softDeletable: bool, op: Op, listing: Listing)
    requires ctx.tenant == Some(t) && t != "" && Faithful(listing)
    ensures Beside(rows, t, ctx, softDeletable, op, listing)
  {
    hide Beside, Faithful;
    if op.UpdateOp? || op.SoftDeleteOp? || op.RestoreOp? {
      RefinesWrite(rows, t, ctx, softDeletable, op, listing);
    } else if op.CreateOp? {
      RefinesCreate(rows, t, ctx, softDeletable, op.data, op.generated, listing);
    } else if op.DeleteOp? {
      RefinesDelete(rows, t, ctx, softDeletable, op.id, listing);
    } else if op.FindManyOp? || op.CountOp? {
      RefinesList(rows, t, ctx, softDeletable, op, listing);
    } else {
      RefinesFind(rows, t, ctx, softDeletable, op, listing);
    }
  }

  /** What a call puts into the tenant's own table is never filed under a foreign id. */
  lemma AloneStays(own: Rows, taken: set<Id>, t: Tenant, softDeletable: bool, op: Op, listing: Listing)
    requires own.Keys !! taken && !Collides(View(own, taken), t, softDeletable, op)
    ensures Alone(own, t, softDeletable, op, listing).0.Keys !! taken
  {
    hide Filtered, Passes;
  }

  lemma Recompose(mine: Rows, foreign: Rows, t: Tenant)
    requires mine.Keys !! foreign.Keys && forall id :: id in foreign ==> foreign[id].tenant != t
    ensures Own(foreign + mine, t) == Own(mine, t) && Foreign(foreign + mine, t) == foreign + Foreign(mine, t)
  {
  }

  /** The main theorem: one call, whatever it passes, is a call on the private store, beside untouched foreign rows. */
  lemma Refines(rows: Rows, t: Tenant, ctx: Context, softDeletable: bool, op: Op, listing: Listing)
    requires ctx.tenant == Some(t) && t != "" && Faithful(listing)
    ensures var (after, reply) := Repository(rows, ctx, softDeletable, op, listing);
            && ForeignKept(rows, after, t)
            && (ViewOf(after, t), reply) == Private(ViewOf(rows, t), t, softDeletable, op, listing)
  {
    OneCall(rows, t, ctx, softDeletable, op, listing);
    hide Faithful, Repository, Alone, Collides;
    if !Collides(ViewOf(rows, t), t, softDeletable, op) {
      var p := Alone(Own(rows, t), t, softDeletable, op, listing);
      AloneStays(Own(rows, t), Foreign(rows, t).Keys, t, softDeletable, op, listing);
      Recompose(p.0, Foreign(rows, t), t);
    }
  }

  /**
   What a caller can rely on. Under a tenant: no foreign row changes, and own rows and reply are those of the
   private store. Without a tenant, and if the caller is not a platform owner: nothing happens.
   */
  ghost predicate Isolated(
    before: Rows, after: Rows, reply: Reply, ctx: Context, softDeletable: bool, op: Op, listing: Listing)
  {
    if Set(ctx.tenant) then
      var t := ctx.tenant.value;
      Faithful(listing) ==>
        && ForeignKept(before, after, t)
        && (ViewOf(after, t), reply) == Private(ViewOf(before, t), t, softDeletable, op, listing)
    else ctx.platformOwner || (after == before && reply == Failed(NoContext))
  }

  lemma CallIsolated(rows: Rows, ctx: Context, softDeletable: bool, op: Op, listing: Listing)
    ensures var (after, reply) := Repository(rows, ctx, softDeletable, op, listing);
            Isolated(rows, after, reply, ctx, softDeletable, op, listing)
  {
    if Set(ctx.tenant) && Faithful(listing) {
      hide Faithful, Repository, Private;
      Refines(rows, ctx.tenant.value, ctx, softDeletable, op, listing);
    }
  }

  // ----- runs -----

  /** The table and the replies after a sequence of calls in one tenant's context. */
  ghost function Run(rows: Rows, ctx: Context, softDeletable: bool, ops: seq<Op>, listing: Listing)
    : (r: (Rows, seq<Reply>))
    ensures |r.1| == |ops|
  {
    if ops == [] then (rows, [])
    else
      var before := Run(rows, ctx, softDeletable, ops[..|ops| - 1], listing);
      var last := Repository(before.0, ctx, softDeletable, ops[|ops| - 1], listing);
      (last.0, before.1 + [last.1])
  }

  ghost function PrivateRun(v: View, t: Tenant, softDeletable: bool, ops: seq<Op>, listing: Listing)
    : (View, seq<Reply>)
  {
    if ops == [] then (v, [])
    else
      var before := PrivateRun(v, t, softDeletable, ops[..|ops| - 1], listing);
      var last := Private(before.0, t, softDeletable, ops[|ops| - 1], listing);
      (last.0, before.1 + [last.1])
  }

  /** Any sequence of calls is a run of the private store; the rows of all others are untouched. */
  lemma {:induction false} RunRefines(
    rows: Rows, t: Tenant, ctx: Context, softDeletable: bool, ops: seq<Op>, listing: Listing)
    requires ctx.tenant == Some(t) && t != "" && Faithful(listing)
    ensures var (after, replies) := Run(rows, ctx, softDeletable, ops, listing);
            && ForeignKept(rows, after, t)
            && (ViewOf(after, t), replies) == PrivateRun(ViewOf(rows, t), t, softDeletable, ops, listing)
  {
    if ops != [] {
      hide Faithful, Private, Repository, ViewOf, Own, Foreign;
      var init := ops[..|ops| - 1];
      RunRefines(rows, t, ctx, softDeletable, init, listing);
      Refines(Run(rows, ctx, softDeletable, init, listing).0, t, ctx, softDeletable, ops[|ops| - 1], listing);
    }
  }

  // ----- what a tenant can learn about the others -----

  /** On its own table the tenant would not have been refused. */
  lemma CollisionShows(v: View, t: Tenant, softDeletable: bool, op: Op, listing: Listing)
    requires v.own.Keys !! v.taken && Collides(v, t, softDeletable, op)
    ensures Alone(v.own, t, softDeletable, op, listing).1 != Failed(Constraint)
  {
  }

  /** Beside other foreign rows, one call answers the same exactly if it collides with both or with neither. */
  lemma StepAgreesExactly(v: View, w: View, t: Tenant, softDeletable: bool, op: Op, listing: Listing)
    requires v.own == w.own && v.own.Keys !! v.taken && w.own.Keys !! w.taken
    ensures var p, q := Private(v, t, softDeletable, op, listing), Private(w, t, softDeletable, op, listing);
            && (p.1 == q.1 <==> (Collides(v, t, softDeletable, op) <==> Collides(w, t, softDeletable, op)))
            && (p.1 == q.1 ==> p.0.own == q.0.own)
  {
    hide Alone, Collides;
    if Collides(v, t, softDeletable, op) { CollisionShows(v, t, softDeletable, op, listing); }
    if Collides(w, t, softDeletable, op) { CollisionShows(w, t, softDeletable, op, listing); }
  }

  lemma CallAgreesExactly(
    rows: Rows, rows': Rows, t: Tenant, ctx: Context, softDeletable: bool, op: Op, listing: Listing)
    requires ctx.tenant == Some(t) && t != "" && Faithful(listing) && ViewOf(rows, t).own == ViewOf(rows', t).own
    ensures var a, b := Repository(rows, ctx, softDeletable, op, listing),
                        Repository(rows', ctx, softDeletable, op, listing);
            && (a.1 == b.1 <==>
                (Collides(ViewOf(rows, t), t, softDeletable, op) <==> Collides(ViewOf(rows', t), t, softDeletable, op)))
            && (a.1 == b.1 ==> ViewOf(a.0, t).own == ViewOf(b.0, t).own)
  {
    Apart(rows, t);
    Apart(rows', t);
    hide Faithful, Private, Repository, Collides, Own, Foreign;
    Refines(rows, t, ctx, softDeletable, op, listing);
    Refines(rows', t, ctx, softDeletable, op, listing);
    StepAgreesExactly(ViewOf(rows, t), ViewOf(rows', t), t, softDeletable, op, listing);
  }

  lemma Apart(rows: Rows, t: Tenant)
    ensures Own(rows, t).Keys !! Foreign(rows, t).Keys
  {
  }

  ghost predicate SameCollisions(
    rows: Rows, rows': Rows, t: Tenant, ctx: Context, softDeletable: bool, ops: seq<Op>, listing: Listing)
  {
    forall i :: 0 <= i < |ops| ==>
      var v := ViewOf(Run(rows, ctx, softDeletable, ops[..i], listing).0, t);
      var w := ViewOf(Run(rows', ctx, softDeletable, ops[..i], listing).0, t);
      Collides(v, t, softDeletable, ops[i]) <==> Collides(w, t, softDeletable, ops[i])
  }

  lemma SameCollisionsSnoc(
    rows: Rows, rows': Rows, t: Tenant, ctx: Context, softDeletable: bool, ops: seq<Op>, listing: Listing)
    requires ops != []
    ensures var init, op := ops[..|ops| - 1], ops[|ops| - 1];
            var v := ViewOf(Run(rows, ctx, softDeletable, init, listing).0, t);
            var w := ViewOf(Run(rows', ctx, softDeletable, init, listing).0, t);
            SameCollisions(rows, rows', t, ctx, softDeletable, ops, listing) <==>
            SameCollisions(rows, rows', t, ctx, softDeletable, init, listing) &&
            (Collides(v, t, softDeletable, op) <==> Collides(w, t, softDeletable, op))
  {
    hide Run, Collides, ViewOf;
    var init := ops[..|ops| - 1];
    assert forall i :: 0 <= i < |init| ==> init[..i] == ops[..i] && init[i] == ops[i];
  }

  /**
   Non-interference, exactly: beside any two sets of foreign rows a tenant gets the same replies if and only
   if the ids that its calls bring in are taken at the same moments, and then it keeps the same rows.
   */
  lemma {:induction false} NonInterferenceExactly(
    rows: Rows, rows': Rows, t: Tenant, ctx: Context, softDeletable: bool, ops: seq<Op>, listing: Listing)
    requires ctx.tenant == Some(t) && t != "" && Faithful(listing) && ViewOf(rows, t).own == ViewOf(rows', t).own
    ensures var a, b := Run(rows, ctx, softDeletable, ops, listing), Run(rows', ctx, softDeletable, ops, listing);
            && (a.1 == b.1 <==> SameCollisions(rows, rows', t, ctx, softDeletable, ops, listing))
            && (a.1 == b.1 ==> ViewOf(a.0, t).own == ViewOf(b.0, t).own)
  {
    if ops != [] {
      hide Faithful, Repository, Collides, SameCollisions, ViewOf;
      var init, op := ops[..|ops| - 1], ops[|ops| - 1];
      NonInterferenceExactly(rows, rows', t, ctx, softDeletable, init, listing);
      SameCollisionsSnoc(rows, rows', t, ctx, softDeletable, ops, listing);
      var a, b := Run(rows, ctx, softDeletable, init, listing), Run(rows', ctx, softDeletable, init, listing);
      var x, y := Repository(a.0, ctx, softDeletable, op, listing), Repository(b.0, ctx, softDeletable, op, listing);
      assert Run(rows, ctx, softDeletable, ops, listing) == (x.0, a.1 + [x.1]);
      assert Run(rows', ctx, softDeletable, ops, listing) == (y.0, b.1 + [y.1]);
      hide Run;
      Snoc(a.1, b.1, x.1, y.1);
      if a.1 == b.1 {
        CallAgreesExactly(a.0, b.0, t, ctx, softDeletable, op, listing);
      }
    }
  }

  lemma Snoc<T>(a: seq<T>, b: seq<T>, x: T, y: T)
    requires |a| == |b|
    ensures a + [x] == b + [y] <==> a == b && x == y
  {
    assert (a + [x])[..|a|] == a && (b + [y])[..|b|] == b && (a + [x])[|a|] == x && (b + [y])[|b|] == y;
  }

  /** The ids that an operation may store a row under, apart from the row's own one. */
  ghost function Brings(op: Op): set<Id> {
    if op.CreateOp? then {if op.data.id.Some? then op.data.id.value else op.generated}
    else if Payload(op).Some? && Payload(op).value.id.Some? then {Payload(op).value.id.value}
    else {}
  }

  /** The two stores hold the same rows, and the same of these ids are taken. */
  ghost predicate Alike(v: View, w: View, ids: set<Id>) {
    v.own == w.own && v.taken * ids == w.taken * ids
  }

  lemma StepAlike(v: View, w: View, ids: set<Id>, t: Tenant, softDeletable: bool, op: Op, listing: Listing)
    requires Alike(v, w, ids) && Brings(op) <= ids
    ensures var p, q := Private(v, t, softDeletable, op, listing), Private(w, t, softDeletable, op, listing);
            p.1 == q.1 && Alike(p.0, q.0, ids)
  {
    var id := NewId(v.own, t, softDeletable, op);
    if id.Some? {
      assert id.value in Brings(op);
      assert id.value in v.taken <==> id.value in v.taken * ids;
      assert id.value in w.taken <==> id.value in w.taken * ids;
    }
    hide Alone, NewId;
    assert forall more: set<Id> :: (v.taken + more) * ids == v.taken * ids + more * ids;
    assert forall more: set<Id> :: (w.taken + more) * ids == w.taken * ids + more * ids;
  }

  lemma {:induction false} RunAlike(
    v: View, w: View, ids: set<Id>, t: Tenant, softDeletable: bool, ops: seq<Op>, listing: Listing)
    requires Alike(v, w, ids) && forall i :: 0 <= i < |ops| ==> Brings(ops[i]) <= ids
    ensures var p, q := PrivateRun(v, t, softDeletable, ops, listing), PrivateRun(w, t, softDeletable, ops, listing);
            p.1 == q.1 && Alike(p.0, q.0, ids)
  {
    if ops != [] {
      hide Private, Alike, Brings;
      var init := ops[..|ops| - 1];
      RunAlike(v, w, ids, t, softDeletable, init, listing);
      StepAlike(PrivateRun(v, t, softDeletable, init, listing).0, PrivateRun(w, t, softDeletable, init, listing).0,
                ids, t, softDeletable, ops[|ops| - 1], listing);
    }
  }

  /** Non-interference: foreign rows matter only for which of the ids that the calls bring in they have. */
  lemma NonInterference(
    rows: Rows, rows': Rows, ids: set<Id>, t: Tenant, ctx: Context, softDeletable: bool, ops: seq<Op>,
    listing: Listing)
    requires ctx.tenant == Some(t) && t != "" && Faithful(listing)
    requires forall i :: 0 <= i < |ops| ==> Brings(ops[i]) <= ids
    requires Own(rows, t) == Own(rows', t) && Foreign(rows, t).Keys * ids == Foreign(rows', t).Keys * ids
    ensures var a, b := Run(rows, ctx, softDeletable, ops, listing), Run(rows', ctx, softDeletable, ops, listing);
            a.1 == b.1 && Own(a.0, t) == Own(b.0, t)
  {
    hide Faithful, PrivateRun, Run, Brings;
    RunRefines(rows, t, ctx, softDeletable, ops, listing);
    RunRefines(rows', t, ctx, softDeletable, ops, listing);
    RunAlike(ViewOf(rows, t), ViewOf(rows', t), ids, t, softDeletable, ops, listing);
  }

  /** A row with the id of somebody else's row: the refusal tells that the id exists. */
  lemma TakenIdShows(ctx: Context, softDeletable: bool, listing: Listing)
    requires ctx.tenant == Some("a")
    ensures var op := CreateOp(Data(Some("x"), None, None, map[]), "g");
            && Repository(map["x" := Row("b", None, map[])], ctx, softDeletable, op, listing).1 == Failed(Constraint)
            && Repository(map[], ctx, softDeletable, op, listing).1 == Found(Some(("x", Row("a", None, map[]))))
  {
    var row := Row("b", None, map[]);
    assert "x" in map["x" := row];
    var none: map<string, string> := map[];
    assert none + none == none;
  }

  // ----- where rows change hands -----

  /** No payload of an update names another tenant. (The extension rewrites the payloads of creates only.) */
  ghost predicate KeepsTenant(t: Tenant, op: Op) {
    !op.CreateOp? && Payload(op).Some? && Payload(op).value.tenant.Some? ==> Payload(op).value.tenant.value == t
  }

  /** The update reaches its row, and the id that it may bring in is not in use. */
  ghost predicate Writes(rows: Rows, t: Tenant, softDeletable: bool, op: Op) {
    && Reaches(Own(rows, t), softDeletable, op)
    && var id := Payload(op).value.id;
       id.Some? && id.value != op.id ==> id.value !in rows
  }

  lemma AloneKeepsTenant(own: Rows, t: Tenant, softDeletable: bool, op: Op, listing: Listing)
    requires KeepsTenant(t, op) && forall id :: id in own ==> own[id].tenant == t
    ensures Foreign(Alone(own, t, softDeletable, op, listing).0, t) == map[]
  {
    hide Filtered, Passes;
  }

  /** A row that is given away shows up among the foreign rows, unless it is not written at all. */
  lemma AloneGivesAway(own: Rows, t: Tenant, softDeletable: bool, op: Op, listing: Listing)
    requires !KeepsTenant(t, op) && forall id :: id in own ==> own[id].tenant == t
    ensures var given := Foreign(Alone(own, t, softDeletable, op, listing).0, t);
            given != map[] <==> Writes(own, t, softDeletable, op)
  {
    assert Own(own, t) == own;
    var id := Payload(op).value.id;
    var id' := if id.Some? then id.value else op.id;
    var after := Alone(own, t, softDeletable, op, listing).0;
    if Writes(own, t, softDeletable, op) {
      assert id' in after && after[id'].tenant != t;
      assert id' in Foreign(after, t);
    }
  }

  /** Exactly when no row changes hands: unless an update writes a payload that names another tenant. */
  lemma ForeignUntouchedExactly(rows: Rows, t: Tenant, ctx: Context, softDeletable: bool, op: Op, listing: Listing)
    requires ctx.tenant == Some(t) && t != "" && Faithful(listing)
    ensures Foreign(Repository(rows, ctx, softDeletable, op, listing).0, t) == Foreign(rows, t)
            <==> KeepsTenant(t, op) || !Writes(rows, t, softDeletable, op)
  {
    OneCall(rows, t, ctx, softDeletable, op, listing);
    GivenAwayExactly(rows, t, softDeletable, op, listing);
    hide Faithful, Repository, Alone, KeepsTenant, Writes, Collides;
    var foreign, p := Foreign(rows, t), Alone(Own(rows, t), t, softDeletable, op, listing);
    if !Collides(ViewOf(rows, t), t, softDeletable, op) {
      AloneStays(Own(rows, t), foreign.Keys, t, softDeletable, op, listing);
      Recompose(p.0, foreign, t);
      Added(foreign, Foreign(p.0, t));
    }
  }

  lemma Added(a: Rows, b: Rows)
    requires a.Keys !! b.Keys
    ensures a + b == a <==> b == map[]
  {
    if b != map[] {
      var id :| id in b;
      assert id in a + b && id !in a;
    }
  }

  lemma GivenAwayExactly(rows: Rows, t: Tenant, softDeletable: bool, op: Op, listing: Listing)
    ensures var p := Alone(Own(rows, t), t, softDeletable, op, listing);
            KeepsTenant(t, op) || !Writes(rows, t, softDeletable, op) <==>
            Collides(ViewOf(rows, t), t, softDeletable, op) || Foreign(p.0, t) == map[]
  {
    var own := Own(rows, t);
    assert Own(own, t) == own;
    SplitRows(rows, t);
    if KeepsTenant(t, op) {
      AloneKeepsTenant(own, t, softDeletable, op, listing);
    } else {
      AloneGivesAway(own, t, softDeletable, op, listing);
    }
    hide Alone, Visible;
  }

  /** An update that names another tenant gives the row away. */
  lemma UpdateGivesAway(ctx: Context, softDeletable: bool, listing: Listing)
    requires ctx.tenant == Some("a") && Faithful(listing)
    ensures var rows := map["x" := Row("a", None, map[]), "y" := Row("b", None, map[])];
            var op := UpdateOp("x", Data(None, Some("b"), None, map[]));
            var after := Repository(rows, ctx, softDeletable, op, listing).0;
            "x" in Foreign(after, "a") && "x" !in Own(after, "a") && Foreign(after, "a") != Foreign(rows, "a")
  {
    var rows := map["x" := Row("a", None, map[]), "y" := Row("b", None, map[])];
    var data := Data(None, Some("b"), None, map[]);
    hide Faithful, Lookup, Client, ScopedWhere, IdIs, AnyIdIs;
    LooksUp(rows, "a", ctx, softDeletable, "x", listing);
    UpdateOwn(rows, "a", ctx, "x", data, listing);
    var after := Repository(rows, ctx, softDeletable, UpdateOp("x", data), listing).0;
    assert "x" in after && after["x"].tenant == "b";
  }

  // ----- single queries -----

  /** A query through the client, beside the foreign rows: what it makes of the own table alone. */
  ghost function OnOwn(rows: Rows, t: Tenant, q: Query, brought: Option<Id>, listing: Listing): (Rows, Reply) {
    var p := Exec(Own(rows, t), q, listing);
    if brought.Some? && brought.value in Foreign(rows, t) then (rows, Failed(Constraint))
    else (Foreign(rows, t) + p.0, p.1)
  }

  /** What the client does under a tenant: bulk queries fail, `findUnique` sees all rows, the rest sees own rows. */
  ghost function Scoped(rows: Rows, t: Tenant, q: Query, listing: Listing): (Rows, Reply) {
    match q
    case Bulk => (rows, Failed(Unsupported))
    case FindUnique(id) => (rows, Found(if id in rows then Some((id, rows[id])) else None))
    case Create(data, generated) =>
      if Set(data.tenant) && data.tenant.value != t then (rows, Failed(CrossTenant))
      else
        var id := if data.id.Some? then data.id.value else generated;
        OnOwn(rows, t, Create(data.(tenant := Some(t)), generated), Some(id), listing)
    case Update(id, where, data) =>
      var w, own := where - {"tenantId"}, Own(rows, t);
      OnOwn(rows, t, Update(id, w, data), if id in own && Matches(w, id, own[id]) then data.id else None, listing)
    case Delete(id, where) => OnOwn(rows, t, Delete(id, where - {"tenantId"}), None, listing)
    case FindFirst(where) => OnOwn(rows, t, FindFirst(where - {"tenantId"}), None, listing)
    case FindMany(where, take, skip) => OnOwn(rows, t, FindMany(where - {"tenantId"}, take, skip), None, listing)
    case Count(where) => OnOwn(rows, t, Count(where - {"tenantId"}), None, listing)
  }

  /** The key that the extension writes replaces whatever the caller says about tenants. */
  lemma MatchScoped(where: Where, t: Tenant, id: Id, row: Row)
    ensures Matches(where["tenantId" := TenantIs(t)], id, row) <==>
            row.tenant == t && Matches(where - {"tenantId"}, id, row)
  {
    var w, v := where["tenantId" := TenantIs(t)], where - {"tenantId"};
    assert w["tenantId"].p(id, row) <==> row.tenant == t;
    assert forall k :: k in w <==> k == "tenantId" || k in v;
    assert forall k :: k in v ==> w[k] == v[k];
  }

  lemma SelectScoped(rows: Rows, t: Tenant, where: Where)
    ensures Select(rows, where["tenantId" := TenantIs(t)]) == Select(Own(rows, t), where - {"tenantId"})
  {
    forall id | id in rows
      ensures Matches(where["tenantId" := TenantIs(t)], id, rows[id])
              <==> rows[id].tenant == t && Matches(where - {"tenantId"}, id, rows[id])
    {
      MatchScoped(where, t, id, rows[id]);
    }
    hide Matches;
  }

  /** Every query of a tenant is answered from its own rows and leaves the others alone, `findUnique` apart. */
  lemma ClientScoped(rows: Rows, t: Tenant, ctx: Context, q: Query, listing: Listing)
    requires ctx.tenant == Some(t) && t != ""
    ensures Client(rows, ctx, q, listing) == Scoped(rows, t, q, listing)
  {
    hide Page, First, Insert, Rewrite, Select, Matches;
    SplitRows(rows, t);
    match q
    case Bulk =>
    case FindUnique(id) =>
    case Create(data, generated) => InsertOwn(rows, t, data.(tenant := Some(t)), generated);
    case Update(id, where, data) => UpdateScoped(rows, t, id, where, data, listing);
    case Delete(id, where) => DeleteScoped(rows, t, id, where, listing);
    case FindFirst(where) => SelectScoped(rows, t, where);
    case FindMany(where, take, skip) => SelectScoped(rows, t, where);
    case Count(where) => SelectScoped(rows, t, where);
  }

  lemma UpdateScoped(rows: Rows, t: Tenant, id: Id, where: Where, data: Data, listing: Listing)
    ensures Exec(rows, Update(id, where["tenantId" := TenantIs(t)], data), listing)
            == Scoped(rows, t, Update(id, where, data), listing)
  {
    hide Matches, Rewrite;
    SplitRows(rows, t);
    if id in rows { MatchScoped(where, t, id, rows[id]); }
    if id in Own(rows, t) { RewriteOwn(rows, t, id, data); }
  }

  lemma DeleteScoped(rows: Rows, t: Tenant, id: Id, where: Where, listing: Listing)
    ensures Exec(rows, Delete(id, where["tenantId" := TenantIs(t)]), listing)
            == Scoped(rows, t, Delete(id, where), listing)
  {
    hide Matches;
    SplitRows(rows, t);
    if id in rows { MatchScoped(where, t, id, rows[id]); }
    if id in Own(rows, t) { assert rows - {id} == Foreign(rows, t) + (Own(rows, t) - {id}); }
  }

  /** The extension does not scope `findUnique`, which the repository never uses: it reads any row by id. */
  lemma FindUniqueReads(rows: Rows, t: Tenant, ctx: Context, id: Id, listing: Listing)
    requires ctx.tenant == Some(t) && t != ""
    ensures Client(rows, ctx, FindUnique(id), listing).1 == Client(Own(rows, t), ctx, FindUnique(id), listing).1
            <==> id !in Foreign(rows, t)
  {
  }

  // ----- soft deletion -----

  /** The table with one own row replaced. */
  lemma RewritePlain(rows: Rows, id: Id, data: Data)
    requires id in rows && data.id.None? && data.tenant.None? && data.deletedAt.Some?
    ensures var row := Row(rows[id].tenant, data.deletedAt.value, rows[id].fields + data.fields);
            Rewrite(rows, id, data) == (rows[id := row], Found(Some((id, row))))
  {
    var row := Row(rows[id].tenant, data.deletedAt.value, rows[id].fields + data.fields);
    assert (rows - {id})[id := row] == rows[id := row];
  }

  /** What deleting a live row and restoring a deleted one do to the table, for payloads that keep id and tenant. */
  lemma TombstoneSet(rows: Rows, t: Tenant, ctx: Context, softDeletable: bool, op: Op, listing: Listing)
    requires ctx.tenant == Some(t) && t != "" && Faithful(listing) && (op.SoftDeleteOp? || op.RestoreOp?)
    requires op.id in Own(rows, t) && op.extra.id.None? && op.extra.tenant.None?
    ensures var row, after := rows[op.id], Repository(rows, ctx, softDeletable, op, listing).0;
            if row.deletedAt.Some? == op.SoftDeleteOp? then after == rows
            else after == rows[op.id := Row(t, if op.SoftDeleteOp? then Some(op.now) else None,
                                            row.fields + op.extra.fields)]
  {
    hide Faithful, Lookup, Client, Rewrite, ScopedWhere, IdIs, AnyIdIs;
    LooksUp(rows, t, ctx, softDeletable, op.id, listing);
    var data := op.extra.(deletedAt := Some(if op.SoftDeleteOp? then Some(op.now) else None));
    UpdateOwn(rows, t, ctx, op.id, data, listing);
    RewritePlain(rows, op.id, data);
  }

  /** Restoring a row undoes its soft deletion; deleting it twice keeps the first tombstone and all else. */
  lemma SoftDeleteUndone(
    rows: Rows, t: Tenant, ctx: Context, softDeletable: bool, id: Id, d: Data, r: Data, now: nat, later: nat,
    listing: Listing)
    requires ctx.tenant == Some(t) && t != "" && Faithful(listing)
    requires id in Own(rows, t) && rows[id].deletedAt.None?
    requires d.id.None? && d.tenant.None? && r.id.None? && r.tenant.None?
    ensures var gone := Repository(rows, ctx, softDeletable, SoftDeleteOp(id, d, now), listing).0;
            && Repository(gone, ctx, softDeletable, RestoreOp(id, r), listing).0
               == rows[id := rows[id].(fields := rows[id].fields + d.fields + r.fields)]
            && Repository(gone, ctx, softDeletable, SoftDeleteOp(id, r, later), listing).0 == gone
            && (softDeletable ==> Repository(gone, ctx, softDeletable, FindById(id), listing).1 == Found(None))
  {
    hide Faithful, Repository;
    var gone := Repository(rows, ctx, softDeletable, SoftDeleteOp(id, d, now), listing).0;
    TombstoneSet(rows, t, ctx, softDeletable, SoftDeleteOp(id, d, now), listing);
    TombstoneSet(gone, t, ctx, softDeletable, RestoreOp(id, r), listing);
    TombstoneSet(gone, t, ctx, softDeletable, SoftDeleteOp(id, r, later), listing);
    OneCall(gone, t, ctx, softDeletable, FindById(id), listing);
  }
}
