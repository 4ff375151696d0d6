/**
 What the repository stores and returns under a tenant, column by column and without reference to its code: the
 row that a create or an update leaves, the rows that a list or a count covers, and that all other rows stay.
 */
module TenantEffects {
  import opened Wrappers
  import opened TenantScope
  import opened TenantIsolation

  /** A row of the tenant that ordinary lookups see. */
  ghost predicate Seen(rows: Rows, t: Tenant, softDeletable: bool, id: Id) {
    id in rows && rows[id].tenant == t && (softDeletable ==> rows[id].deletedAt == None)
  }

  ghost predicate Mine(rows: Rows, t: Tenant, id: Id) {
    id in rows && rows[id].tenant == t
  }

  /** The row has moved from `id` to `id'`, if these differ, and every other row is as it was. */
  ghost predicate OthersSame(before: Rows, after: Rows, id: Id, id': Id) {
    && after.Keys == before.Keys - {id} + {id'}
    && forall i :: i in before && i != id && i != id' ==> after[i] == before[i]
  }

  /** Columns that the payload names have its values, and the rest are as they were. */
  ghost predicate Patched(was: Row, now: Row, data: Data, deletedAt: Option<nat>) {
    && now.tenant == (if data.tenant.Some? then data.tenant.value else was.tenant) && now.deletedAt == deletedAt
    && now.fields.Keys == was.fields.Keys + data.fields.Keys
    && (forall f :: f in data.fields ==> now.fields[f] == data.fields[f])
    && (forall f :: f in was.fields && f !in data.fields ==> now.fields[f] == was.fields[f])
  }

  function IdOr(data: Data, id: Id): Id {
    if data.id.Some? then data.id.value else id
  }

  // ----- create -----

  /** What a create leaves: a refusal without effect, or exactly the payload under the tenant. */
  ghost predicate Created(before: Rows, after: Rows, reply: Reply, t: Tenant, data: Data, generated: Id) {
    var id := IdOr(data, generated);
    if data.tenant.Some? && data.tenant.value != "" && data.tenant.value != t then
      after == before && reply == Failed(CrossTenant)
    else if id in before then after == before && reply == Failed(Constraint)
    else
      && OthersSame(before, after, id, id) && reply == Found(Some((id, after[id])))
      && after[id] == Row(t, if data.deletedAt.Some? then data.deletedAt.value else None, data.fields)
  }

  lemma InsertEffect(rows: Rows, t: Tenant, data: Data, generated: Id)
    requires data.tenant == Some(t)
    ensures var (after, reply) := Insert(rows, data, generated);
            var id := IdOr(data, generated);
            if id in rows then after == rows && reply == Failed(Constraint)
            else
              && OthersSame(rows, after, id, id) && reply == Found(Some((id, after[id])))
              && after[id] == Row(t, if data.deletedAt.Some? then data.deletedAt.value else None, data.fields)
  {
    var none: map<string, string> := map[];
    assert none + data.fields == data.fields;
  }

  lemma CreateEffect(
    rows: Rows, t: Tenant, ctx: Context, softDeletable: bool, data: Data, generated: Id, listing: Listing)
    requires ctx.tenant == Some(t) && t != ""
    ensures var (after, reply) := Repository(rows, ctx, softDeletable, CreateOp(data, generated), listing);
            Created(rows, after, reply, t, data, generated)
  {
    InsertEffect(rows, t, data.(tenant := Some(t)), generated);
    hide Insert, Rewrite, Lookup, ScopedWhere, Select, OthersSame;
  }

  /** Whoever looks the new row up gets it back, as long as it was not created as deleted. */
  lemma CreateThenFind(
    rows: Rows, t: Tenant, ctx: Context, softDeletable: bool, data: Data, generated: Id, listing: Listing)
    requires ctx.tenant == Some(t) && t != "" && Faithful(listing)
    requires data.tenant.None? && IdOr(data, generated) !in rows && data.deletedAt.None?
    ensures var id := IdOr(data, generated);
            var after := Repository(rows, ctx, softDeletable, CreateOp(data, generated), listing).0;
            Repository(after, ctx, softDeletable, FindById(id), listing) ==
            (after, Found(Some((id, Row(t, None, data.fields)))))
  {
    hide Repository, Faithful;
    var id := IdOr(data, generated);
    CreateEffect(rows, t, ctx, softDeletable, data, generated, listing);
    var after := Repository(rows, ctx, softDeletable, CreateOp(data, generated), listing).0;
    FindEffect(after, t, ctx, softDeletable, id, listing);
  }

  // ----- reads -----

  lemma FindEffect(rows: Rows, t: Tenant, ctx: Context, softDeletable: bool, id: Id, listing: Listing)
    requires ctx.tenant == Some(t) && t != "" && Faithful(listing)
    ensures Repository(rows, ctx, softDeletable, FindById(id), listing) ==
            (rows, Found(if Seen(rows, t, softDeletable, id) then Some((id, rows[id])) else None))
    ensures Repository(rows, ctx, softDeletable, FindIncludingDeleted(id), listing) ==
            (rows, Found(if Mine(rows, t, id) then Some((id, rows[id])) else None))
  {
    hide Repository, Faithful, Filtered, Insert, Rewrite, Page, Foreign;
    OneCall(rows, t, ctx, softDeletable, FindById(id), listing);
    OneCall(rows, t, ctx, softDeletable, FindIncludingDeleted(id), listing);
    SplitRows(rows, t);
  }

  /** The rows that a filter selects: own rows that pass every test but one on tenants, live ones by default. */
  ghost predicate Selected(rows: Rows, t: Tenant, softDeletable: bool, where: Where, id: Id) {
    && Mine(rows, t, id)
    && (forall k :: k in where && k != "tenantId" && where[k].Test? ==> where[k].p(id, rows[id]))
    && (softDeletable && "deletedAt" !in where ==> rows[id].deletedAt == None)
  }

  ghost function Selection(rows: Rows, t: Tenant, softDeletable: bool, where: Where): Rows {
    map id | id in rows && Selected(rows, t, softDeletable, where, id) :: rows[id]
  }

  lemma SelectionIs(rows: Rows, t: Tenant, softDeletable: bool, where: Where)
    ensures Filtered(Own(rows, t), softDeletable, where) == Selection(rows, t, softDeletable, where)
  {
    var own, rest := Own(rows, t), where - {"tenantId"};
    forall id | id in own
      ensures Passes(where, softDeletable, id, own[id]) <==> Selected(rows, t, softDeletable, where, id)
    {
      assert forall k :: k in rest <==> k in where && k != "tenantId";
      assert forall k :: k in rest ==> rest[k] == where[k];
    }
    hide Passes, Selected;
    SelectedIsMine(rows, t, softDeletable, where);
  }

  lemma SelectedIsMine(rows: Rows, t: Tenant, softDeletable: bool, where: Where)
    ensures forall id :: id in Selection(rows, t, softDeletable, where) ==> id in Own(rows, t)
  {
  }

  /** A list is the window of at most `take` rows, or 500, after the first `skip`. */
  ghost predicate Window(all: seq<(Id, Row)>, page: seq<(Id, Row)>, take: Option<nat>, skip: nat) {
    var limit := if take.Some? then take.value else 500;
    && |page| == (if |all| <= skip then 0 else if |all| - skip <= limit then |all| - skip else limit)
    && forall i :: 0 <= i < |page| ==> page[i] == all[skip + i]
  }

  lemma ListEffect(
    rows: Rows, t: Tenant, ctx: Context, softDeletable: bool, where: Where, take: Option<nat>, skip: nat,
    listing: Listing)
    requires ctx.tenant == Some(t) && t != ""
    ensures var (after, reply) := Repository(rows, ctx, softDeletable, FindManyOp(where, take, skip), listing);
            && after == rows && reply.Listed?
            && Window(listing(Selection(rows, t, softDeletable, where)), reply.rows, take, skip)
  {
    hide Repository, Selection, Filtered, Own, Foreign, Insert, Rewrite, Page, Visible, Window;
    RefinesList(rows, t, ctx, softDeletable, FindManyOp(where, take, skip), listing);
    SelectionIs(rows, t, softDeletable, where);
    SplitRows(rows, t);
    PageIsWindow(listing(Selection(rows, t, softDeletable, where)), take, skip);
  }

  lemma PageIsWindow(all: seq<(Id, Row)>, take: Option<nat>, skip: nat)
    ensures Window(all, Page(all, if take.Some? then take.value else DEFAULT_MAX_ROWS, skip), take, skip)
  {
  }

  lemma CountEffect(rows: Rows, t: Tenant, ctx: Context, softDeletable: bool, where: Where, listing: Listing)
    requires ctx.tenant == Some(t) && t != ""
    ensures Repository(rows, ctx, softDeletable, CountOp(where), listing) ==
            (rows, Counted(|Selection(rows, t, softDeletable, where)|))
  {
    hide Repository, Selection, Filtered, Own, Foreign, Insert, Rewrite, Page, Visible;
    RefinesList(rows, t, ctx, softDeletable, CountOp(where), listing);
    SelectionIs(rows, t, softDeletable, where);
    SplitRows(rows, t);
  }

  // ----- update -----

  /** What a write to the row `id` leaves: a refusal without effect, or the patched row. */
  ghost predicate Updated(before: Rows, after: Rows, reply: Reply, id: Id, data: Data, deletedAt: Option<nat>)
    requires id in before
  {
    var id' := IdOr(data, id);
    if id' != id && id' in before then after == before && reply == Failed(Constraint)
    else
      && OthersSame(before, after, id, id') && reply == Found(Some((id', after[id'])))
      && Patched(before[id], after[id'], data, deletedAt)
  }

  lemma RewriteEffect(rows: Rows, id: Id, data: Data)
    requires id in rows
    ensures var (after, reply) := Rewrite(rows, id, data);
            Updated(rows, after, reply, id, data,
                    if data.deletedAt.Some? then data.deletedAt.value else rows[id].deletedAt)
  {
  }

  lemma UpdateEffect(rows: Rows, t: Tenant, ctx: Context, softDeletable: bool, id: Id, data: Data, listing: Listing)
    requires ctx.tenant == Some(t) && t != "" && Faithful(listing)
    ensures var (after, reply) := Repository(rows, ctx, softDeletable, UpdateOp(id, data), listing);
            if !Seen(rows, t, softDeletable, id) then after == rows && reply == Failed(NotFound)
            else Updated(rows, after, reply, id, data,
                         if data.deletedAt.Some? then data.deletedAt.value else rows[id].deletedAt)
  {
    hide Faithful, Lookup, Client, Rewrite, ScopedWhere, IdIs, AnyIdIs, Updated;
    LooksUp(rows, t, ctx, softDeletable, id, listing);
    if id in Own(rows, t) {
      UpdateOwn(rows, t, ctx, id, data, listing);
      RewriteEffect(rows, id, data);
    }
  }

  /** Deleting marks the row with the time, once; restoring takes the mark away. */
  lemma TombstoneEffect(rows: Rows, t: Tenant, ctx: Context, softDeletable: bool, op: Op, listing: Listing)
    requires ctx.tenant == Some(t) && t != "" && Faithful(listing) && (op.SoftDeleteOp? || op.RestoreOp?)
    ensures var (after, reply) := Repository(rows, ctx, softDeletable, op, listing);
            if !Mine(rows, t, op.id) then after == rows && reply == Failed(NotFound)
            else if rows[op.id].deletedAt.Some? == op.SoftDeleteOp? then
              after == rows && reply == Found(Some((op.id, rows[op.id])))
            else Updated(rows, after, reply, op.id, op.extra, if op.SoftDeleteOp? then Some(op.now) else None)
  {
    hide Faithful, Lookup, Client, Rewrite, ScopedWhere, IdIs, AnyIdIs, OthersSame;
    LooksUp(rows, t, ctx, softDeletable, op.id, listing);
    var data := op.extra.(deletedAt := Some(if op.SoftDeleteOp? then Some(op.now) else None));
    if op.id in Own(rows, t) {
      UpdateOwn(rows, t, ctx, op.id, data, listing);
      RewriteEffect(rows, op.id, data);
    }
  }

  lemma DeleteEffect(rows: Rows, t: Tenant, ctx: Context, softDeletable: bool, id: Id, listing: Listing)
    requires ctx.tenant == Some(t) && t != "" && Faithful(listing)
    ensures var (after, reply) := Repository(rows, ctx, softDeletable, DeleteOp(id), listing);
            if !Seen(rows, t, softDeletable, id) then after == rows && reply == Failed(NotFound)
            else after.Keys == rows.Keys - {id} && reply == Found(Some((id, rows[id])))
                 && forall i :: i in after ==> after[i] == rows[i]
  {
    OneCall(rows, t, ctx, softDeletable, DeleteOp(id), listing);
    SplitRows(rows, t);
    hide Repository, Faithful, Filtered, Insert, Rewrite;
  }
}
