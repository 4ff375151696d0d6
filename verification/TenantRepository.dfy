/** The repository as an object over the rows of its table; the extension rewrites the arguments of a query. */
module TenantRepository {
  import opened Wrappers
  import opened TenantScope
  import opened TenantIsolation
  import opened TenantEffects

  class Table {
    var rows: Rows
    const softDeletable: bool

    constructor (softDeletable: bool)
      ensures rows == map[] && this.softDeletable == softDeletable
    {
      this.rows, this.softDeletable := map[], softDeletable;
    }

    /** One query through the extended client. */
    method Send(ctx: Context, query: Query, listing: Listing) returns (reply: Reply)
      modifies this
      ensures (rows, reply) == Client(old(rows), ctx, query, listing)
      ensures Set(ctx.tenant) ==> (rows, reply) == Scoped(old(rows), ctx.tenant.value, query, listing)
      ensures !Set(ctx.tenant) && !ctx.platformOwner ==> rows == old(rows) && reply == Failed(NoContext)
      ensures !Set(ctx.tenant) && ctx.platformOwner ==> (rows, reply) == Exec(old(rows), query, listing)
    {
      hide Scoped;
      if Set(ctx.tenant) { ClientScoped(rows, ctx.tenant.value, ctx, query, listing); }
      var args := query;
      if !Set(ctx.tenant) && !ctx.platformOwner {
        return Failed(NoContext);
      }
      if Set(ctx.tenant) {
        var t := ctx.tenant.value;
        if args.Bulk? {
          return Failed(Unsupported);
        }
        if args.FindFirst? || args.FindMany? || args.Count? || args.Update? || args.Delete? {
          args := args.(where := args.where["tenantId" := TenantIs(t)]);
        } else if args.Create? {
          if Set(args.data.tenant) && args.data.tenant.value != t {
            return Failed(CrossTenant);
          }
          args := Query.Create(args.data.(tenant := Some(t)), args.generated);
        }
      }
      var result := Exec(rows, args, listing);
      rows, reply := result.0, result.1;
    }

    method Create(ctx: Context, data: Data, generated: Id, listing: Listing) returns (reply: Reply)
      modifies this
      ensures (rows, reply) == Repository(old(rows), ctx, softDeletable, CreateOp(data, generated), listing)
      ensures Isolated(old(rows), rows, reply, ctx, softDeletable, CreateOp(data, generated), listing)
      ensures Set(ctx.tenant) ==> Created(old(rows), rows, reply, ctx.tenant.value, data, generated)
    {
      hide Isolated, Created;
      if Set(ctx.tenant) { CreateEffect(rows, ctx.tenant.value, ctx, softDeletable, data, generated, listing); }
      CallIsolated(rows, ctx, softDeletable, CreateOp(data, generated), listing);
      var tenant := GetTenantId(ctx);
      if tenant.Err? {
        return Failed(tenant.error);
      }
      if Set(data.tenant) && data.tenant != tenant.value {
        return Failed(CrossTenant);
      }
      reply := Send(ctx, Query.Create(data.(tenant := tenant.value), generated), listing);
    }

    /** Looks the row up in the tenant's scope first, then updates it by its id. */
    method Update(ctx: Context, id: Id, data: Data, listing: Listing) returns (reply: Reply)
      modifies this
      ensures (rows, reply) == Repository(old(rows), ctx, softDeletable, UpdateOp(id, data), listing)
      ensures Isolated(old(rows), rows, reply, ctx, softDeletable, UpdateOp(id, data), listing)
      ensures Set(ctx.tenant) && Faithful(listing) ==>
                if !Seen(old(rows), ctx.tenant.value, softDeletable, id)
                then rows == old(rows) && reply == Failed(NotFound)
                else Updated(old(rows), rows, reply, id, data,
                             if data.deletedAt.Some? then data.deletedAt.value else old(rows)[id].deletedAt)
    {
      hide Isolated, Updated, Faithful;
      if Set(ctx.tenant) && Faithful(listing) {
        UpdateEffect(rows, ctx.tenant.value, ctx, softDeletable, id, data, listing);
      }
      CallIsolated(rows, ctx, softDeletable, UpdateOp(id, data), listing);
      var tenant := GetTenantId(ctx);
      if tenant.Err? {
        return Failed(tenant.error);
      }
      var found := Send(ctx, FindFirst(ScopedWhere(softDeletable, IdIs(id), tenant.value)), listing);
      if !found.Found? || found.row.None? {
        return Failed(NotFound);
      }
      reply := Send(ctx, Query.Update(found.row.value.0, map[], data), listing);
    }

    /** A row that is deleted already keeps its first tombstone. */
    method SoftDelete(ctx: Context, id: Id, extra: Data, now: nat, listing: Listing) returns (reply: Reply)
      modifies this
      ensures (rows, reply) == Repository(old(rows), ctx, softDeletable, SoftDeleteOp(id, extra, now), listing)
      ensures Isolated(old(rows), rows, reply, ctx, softDeletable, SoftDeleteOp(id, extra, now), listing)
      ensures Set(ctx.tenant) && Faithful(listing) ==>
                if !Mine(old(rows), ctx.tenant.value, id) then rows == old(rows) && reply == Failed(NotFound)
                else if old(rows)[id].deletedAt.Some?
                then rows == old(rows) && reply == Found(Some((id, old(rows)[id])))
                else Updated(old(rows), rows, reply, id, extra, Some(now))
    {
      hide Isolated, Updated, Faithful;
      if Set(ctx.tenant) && Faithful(listing) {
        TombstoneEffect(rows, ctx.tenant.value, ctx, softDeletable, SoftDeleteOp(id, extra, now), listing);
      }
      CallIsolated(rows, ctx, softDeletable, SoftDeleteOp(id, extra, now), listing);
      var tenant := GetTenantId(ctx);
      if tenant.Err? {
        return Failed(tenant.error);
      }
      var found := Send(ctx, FindFirst(ScopedWhere(softDeletable, AnyIdIs(id), tenant.value)), listing);
      if !found.Found? || found.row.None? {
        return Failed(NotFound);
      }
      if found.row.value.1.deletedAt.Some? {
        return found;
      }
      reply := Send(ctx, Query.Update(found.row.value.0, map[], extra.(deletedAt := Some(Some(now)))), listing);
    }

    method Restore(ctx: Context, id: Id, extra: Data, listing: Listing) returns (reply: Reply)
      modifies this
      ensures (rows, reply) == Repository(old(rows), ctx, softDeletable, RestoreOp(id, extra), listing)
      ensures Isolated(old(rows), rows, reply, ctx, softDeletable, RestoreOp(id, extra), listing)
      ensures Set(ctx.tenant) && Faithful(listing) ==>
                if !Mine(old(rows), ctx.tenant.value, id) then rows == old(rows) && reply == Failed(NotFound)
                else if old(rows)[id].deletedAt.None?
                then rows == old(rows) && reply == Found(Some((id, old(rows)[id])))
                else Updated(old(rows), rows, reply, id, extra, None)
    {
      hide Isolated, Updated, Faithful;
      if Set(ctx.tenant) && Faithful(listing) {
        TombstoneEffect(rows, ctx.tenant.value, ctx, softDeletable, RestoreOp(id, extra), listing);
      }
      CallIsolated(rows, ctx, softDeletable, RestoreOp(id, extra), listing);
      var tenant := GetTenantId(ctx);
      if tenant.Err? {
        return Failed(tenant.error);
      }
      var found := Send(ctx, FindFirst(ScopedWhere(softDeletable, AnyIdIs(id), tenant.value)), listing);
      if !found.Found? || found.row.None? {
        return Failed(NotFound);
      }
      if found.row.value.1.deletedAt.None? {
        return found;
      }
      reply := Send(ctx, Query.Update(found.row.value.0, map[], extra.(deletedAt := Some(None))), listing);
    }
  }
}
