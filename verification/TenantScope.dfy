/**
 One table of a tenant-scoped model, and the two layers in front of it: the repository base class
 (packages/db/src/repositories/BaseTenantRepository.ts) and the client extension that rewrites every
 query (packages/db/src/index.ts).
 */
module TenantScope {
  import opened Wrappers

  type Id = string
  type Tenant = string

  datatype Row = Row(tenant: Tenant, deletedAt: Option<nat>, fields: map<string, string>)

  type Rows = map<Id, Row>

  /** What a filter says under one key: nothing, or any condition on the row. */
  datatype Cond = Undefined | Test(p: (Id, Row) -> bool)

  type Where = map<string, Cond>

  /** A payload; `None` is a key that is absent. */
  datatype Data = Data(
    id: Option<Id>, tenant: Option<Tenant>, deletedAt: Option<Option<nat>>, fields: map<string, string>)

  datatype Context = Context(tenant: Option<Tenant>, platformOwner: bool)

  datatype Error = NoContext | Unsupported | CrossTenant | NotFound | Constraint

  datatype Reply = Found(row: Option<(Id, Row)>) | Listed(rows: seq<(Id, Row)>) | Counted(n: nat) | Failed(error: Error)

  /** The operations of the generated client. `bulk` stands for the six that the extension blocks. */
  datatype Query =
    | FindFirst(where: Where)
    | FindMany(where: Where, take: nat, skip: nat)
    | Count(where: Where)
    | Create(data: Data, generated: Id)
    | Update(id: Id, where: Where, data: Data)
    | Delete(id: Id, where: Where)
    | FindUnique(id: Id)
    | Bulk

  // ----- the database -----

  predicate Matches(where: Where, id: Id, row: Row) {
    forall k :: k in where && where[k].Test? ==> where[k].p(id, row)
  }

  function Select(rows: Rows, where: Where): Rows {
    map id | id in rows && Matches(where, id, rows[id]) :: rows[id]
  }

  /** How the database lists the rows it has selected; any function of these rows. */
  type Listing = Rows -> seq<(Id, Row)>

  function Page(rows: seq<(Id, Row)>, take: nat, skip: nat): seq<(Id, Row)> {
    var rest := if skip <= |rows| then rows[skip..] else [];
    if take <= |rest| then rest[..take] else rest
  }

  function First(rows: seq<(Id, Row)>): Option<(Id, Row)> {
    if rows == [] then None else Some(rows[0])
  }

  function Patch(row: Row, data: Data): Row {
    Row(if data.tenant.Some? then data.tenant.value else row.tenant,
        if data.deletedAt.Some? then data.deletedAt.value else row.deletedAt,
        row.fields + data.fields)
  }

  /** An update may also change the primary key, which must stay unique. */
  function Rewrite(rows: Rows, id: Id, data: Data): (Rows, Reply)
    requires id in rows
  {
    var id' := if data.id.Some? then data.id.value else id;
    var row := Patch(rows[id], data);
    if id' != id && id' in rows then (rows, Failed(Constraint))
    else ((rows - {id})[id' := row], Found(Some((id', row))))
  }

  function Insert(rows: Rows, data: Data, generated: Id): (Rows, Reply) {
    var id := if data.id.Some? then data.id.value else generated;
    if id in rows || data.tenant.None? then (rows, Failed(Constraint))
    else
      var row := Patch(Row(data.tenant.value, None, map[]), data);
      (rows[id := row], Found(Some((id, row))))
  }

  function Exec(rows: Rows, q: Query, listing: Listing): (Rows, Reply) {
    match q
    case FindFirst(where) => (rows, Found(First(listing(Select(rows, where)))))
    case FindMany(where, take, skip) => (rows, Listed(Page(listing(Select(rows, where)), take, skip)))
    case Count(where) => (rows, Counted(|Select(rows, where)|))
    case Create(data, generated) => Insert(rows, data, generated)
    case Update(id, where, data) =>
      if id in rows && Matches(where, id, rows[id]) then Rewrite(rows, id, data) else (rows, Failed(NotFound))
    case Delete(id, where) =>
      if id in rows && Matches(where, id, rows[id]) then (rows - {id}, Found(Some((id, rows[id]))))
      else (rows, Failed(NotFound))
    case FindUnique(id) => (rows, Found(if id in rows then Some((id, rows[id])) else None))
    case Bulk => (rows, Counted(|rows|))
  }

  // ----- the extension -----

  function TenantIs(t: Tenant): Cond {
    Test((id: Id, row: Row) => row.tenant == t)
  }

  predicate Set(t: Option<Tenant>) {
    t.Some? && t.value != ""
  }

  /** The rewritten query, or the error of a blocked one. */
  function Extend(ctx: Context, q: Query): Result<Query, Error> {
    if !Set(ctx.tenant) then (if ctx.platformOwner then Ok(q) else Err(NoContext))
    else
      var t := ctx.tenant.value;
      match q
      case Bulk => Err(Unsupported)
      case FindFirst(where) => Ok(FindFirst(where["tenantId" := TenantIs(t)]))
      case FindMany(where, take, skip) => Ok(FindMany(where["tenantId" := TenantIs(t)], take, skip))
      case Count(where) => Ok(Count(where["tenantId" := TenantIs(t)]))
      case Update(id, where, data) => Ok(Update(id, where["tenantId" := TenantIs(t)], data))
      case Delete(id, where) => Ok(Delete(id, where["tenantId" := TenantIs(t)]))
      case Create(data, generated) =>
        if Set(data.tenant) && data.tenant.value != t then Err(CrossTenant)
        else Ok(Create(data.(tenant := Some(t)), generated))
      case FindUnique(_) => Ok(q)
  }

  function Client(rows: Rows, ctx: Context, q: Query, listing: Listing): (Rows, Reply) {
    match Extend(ctx, q)
    case Ok(q') => Exec(rows, q', listing)
    case Err(e) => (rows, Failed(e))
  }

  // ----- the repository -----

  const DEFAULT_MAX_ROWS: nat := 500

  function GetTenantId(ctx: Context): Result<Option<Tenant>, Error> {
    if ctx.platformOwner && !Set(ctx.tenant) then Ok(None)
    else if !Set(ctx.tenant) then Err(NoContext)
    else Ok(ctx.tenant)
  }

  const LIVE := Test((id: Id, row: Row) => row.deletedAt.None?)

  /** The caller's filter under the tenant; a `deletedAt` key of the caller wins over the default. */
  function ScopedWhere(softDeletable: bool, where: Where, tenant: Option<Tenant>): Where {
    var base := if tenant.Some? then where["tenantId" := TenantIs(tenant.value)] else where;
    if softDeletable && "deletedAt" !in base then base["deletedAt" := LIVE] else base
  }

  datatype Op =
    | FindById(id: Id)
    | FindManyOp(where: Where, take: Option<nat>, skip: nat)
    | CreateOp(data: Data, generated: Id)
    | UpdateOp(id: Id, data: Data)
    | DeleteOp(id: Id)
    | FindIncludingDeleted(id: Id)
    | SoftDeleteOp(id: Id, extra: Data, now: nat)
    | RestoreOp(id: Id, extra: Data)
    | CountOp(where: Where)

  function IdIs(id: Id): Where {
    map["id" := Test((i: Id, row: Row) => i == id)]
  }

  function AnyIdIs(id: Id): Where {
    IdIs(id)["deletedAt" := Undefined]
  }

  /** `findFirst` in the tenant's scope, then a query for the row that was found. */
  function Lookup(
    rows: Rows, ctx: Context, softDeletable: bool, where: Where, tenant: Option<Tenant>, listing: Listing)
    : Option<(Id, Row)>
  {
    var reply := Client(rows, ctx, FindFirst(ScopedWhere(softDeletable, where, tenant)), listing).1;
    if reply.Found? then reply.row else None
  }

  function Repository(rows: Rows, ctx: Context, softDeletable: bool, op: Op, listing: Listing): (Rows, Reply) {
    var tenant := GetTenantId(ctx);
    if tenant.Err? then (rows, Failed(tenant.error))
    else
      var t := tenant.value;
      match op
      case FindById(id) => Client(rows, ctx, FindFirst(ScopedWhere(softDeletable, IdIs(id), t)), listing)
      case FindManyOp(where, take, skip) =>
        var limit := if take.Some? then take.value else DEFAULT_MAX_ROWS;
        Client(rows, ctx, FindMany(ScopedWhere(softDeletable, where, t), limit, skip), listing)
      case CountOp(where) => Client(rows, ctx, Count(ScopedWhere(softDeletable, where, t)), listing)
      case CreateOp(data, generated) =>
        if Set(data.tenant) && data.tenant != t then (rows, Failed(CrossTenant))
        else Client(rows, ctx, Create(data.(tenant := t), generated), listing)
      case UpdateOp(id, data) =>
        var found := Lookup(rows, ctx, softDeletable, IdIs(id), t, listing);
        if found.None? then (rows, Failed(NotFound)) else Client(rows, ctx, Update(found.value.0, map[], data), listing)
      case DeleteOp(id) =>
        var found := Lookup(rows, ctx, softDeletable, IdIs(id), t, listing);
        if found.None? then (rows, Failed(NotFound)) else Client(rows, ctx, Delete(found.value.0, map[]), listing)
      case FindIncludingDeleted(id) => Client(rows, ctx, FindFirst(ScopedWhere(softDeletable, AnyIdIs(id), t)), listing)
      case SoftDeleteOp(id, extra, now) =>
        var found := Lookup(rows, ctx, softDeletable, AnyIdIs(id), t, listing);
        if found.None? then (rows, Failed(NotFound))
        else if found.value.1.deletedAt.Some? then (rows, Found(found))
        else Client(rows, ctx, Update(found.value.0, map[], extra.(deletedAt := Some(Some(now)))), listing)
      case RestoreOp(id, extra) =>
        var found := Lookup(rows, ctx, softDeletable, AnyIdIs(id), t, listing);
        if found.None? then (rows, Failed(NotFound))
        else if found.value.1.deletedAt.None? then (rows, Found(found))
        else Client(rows, ctx, Update(found.value.0, map[], extra.(deletedAt := Some(None))), listing)
  }
}
