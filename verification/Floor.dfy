/**
 Branches, tables and orders of all tenants, changed by separate services
 (apps/api/src/branch/branch.service.ts, apps/api/src/order/order.service.ts). Every operation runs as one
 atomic step under the context of a tenant.
 */
module Floor {
  import opened Wrappers
  import opened Cascade

  type Id = string

  /** Tokens are compared only for equality, so a keyed hash is a constructor: equal tokens, equal payloads. */
  datatype Token = Hmac(payload: string)

  datatype Branch = Branch(tenant: Id, live: bool)

  datatype Table = Table(tenant: Id, branch: Id, number: string, token: Token, live: bool)

  datatype Status = DRAFT | PENDING | ACCEPTED | PREPARING | READY | COMPLETED | CANCELLED

  datatype Order = Order(tenant: Id, branch: Id, table: Option<Id>, status: Status)

  datatype State = State(branches: map<Id, Branch>, tables: map<Id, Table>, orders: map<Id, Order>, invoices: seq<Id>)

  datatype Error = NotFound | BadRequest | Conflict | UniqueViolation

  // ----- lookups of the tenant-scoped repositories -----

  predicate BranchFound(s: State, tenant: Id, id: Id) {
    id in s.branches && s.branches[id].tenant == tenant && s.branches[id].live
  }

  predicate TableFound(s: State, tenant: Id, id: Id) {
    id in s.tables && s.tables[id].tenant == tenant && s.tables[id].live
  }

  predicate OrderFound(s: State, tenant: Id, id: Id) {
    id in s.orders && s.orders[id].tenant == tenant
  }

  /** `ACTIVE_ORDER_STATUSES` */
  predicate Open(status: Status) {
    status in {DRAFT, PENDING, ACCEPTED, PREPARING, READY}
  }

  predicate BranchBusy(s: State, tenant: Id, branch: Id) {
    exists o :: o in s.orders && s.orders[o].tenant == tenant && s.orders[o].branch == branch
      && Open(s.orders[o].status)
  }

  predicate TableBusy(s: State, tenant: Id, table: Id) {
    exists o :: o in s.orders && s.orders[o].tenant == tenant && s.orders[o].table == Some(table)
      && Open(s.orders[o].status)
  }

  /** Another live table of the tenant answers to this token (`findByQrCodeToken`). */
  predicate TokenTakenInTenant(s: State, tenant: Id, token: Token, except: Id) {
    exists t :: t in s.tables && t != except && s.tables[t].tenant == tenant && s.tables[t].live
      && s.tables[t].token == token
  }

  /** The partial unique index, which spans all tenants, would refuse this row. */
  predicate IndexRefuses(s: State, token: Token, except: Id) {
    exists t :: t in s.tables && t != except && s.tables[t].live && s.tables[t].token == token
  }

  function Payload(tenant: Id, branch: Id, number: string): string {
    tenant + ":" + branch + ":" + number
  }

  // ----- the operations -----

  function CreateBranch(s: State, tenant: Id, id: Id): Result<State, Error> {
    if id in s.branches then Err(UniqueViolation) else Ok(s.(branches := s.branches[id := Branch(tenant, true)]))
  }

  function CreateTable(s: State, tenant: Id, id: Id, branch: Id, number: string): Result<State, Error> {
    if !BranchFound(s, tenant, branch) then Err(NotFound)
    else
      var token := Hmac(Payload(s.branches[branch].tenant, branch, number));
      if id in s.tables || IndexRefuses(s, token, id) then Err(UniqueViolation)
      else Ok(s.(tables := s.tables[id := Table(tenant, branch, number, token, true)]))
  }

  /** The table rows after the cascade of `deleteBranch`. */
  function CloseTables(tables: map<Id, Table>, tenant: Id, branch: Id): map<Id, Table> {
    MarkAll(tables, (t: Table) => t.branch == branch && t.tenant == tenant && t.live, (t: Table) => t.(live := false))
  }

  function DeleteBranch(s: State, tenant: Id, id: Id): Result<State, Error> {
    if !BranchFound(s, tenant, id) then Err(NotFound)
    else if BranchBusy(s, tenant, id) then Err(Conflict)
    else Ok(s.(tables := CloseTables(s.tables, tenant, id),
               branches := s.branches[id := s.branches[id].(live := false)]))
  }

  function RestoreBranch(s: State, tenant: Id, id: Id): Result<State, Error> {
    if id !in s.branches || s.branches[id].tenant != tenant then Err(NotFound)
    else Ok(s.(branches := s.branches[id := s.branches[id].(live := true)]))
  }

  function DeleteTable(s: State, tenant: Id, id: Id): Result<State, Error> {
    if !TableFound(s, tenant, id) then Err(NotFound)
    else if TableBusy(s, tenant, id) then Err(Conflict)
    else Ok(s.(tables := s.tables[id := s.tables[id].(live := false)]))
  }

  function RestoreTable(s: State, tenant: Id, id: Id): Result<State, Error> {
    if id !in s.tables || s.tables[id].tenant != tenant then Err(NotFound)
    else
      var table := s.tables[id];
      if !BranchFound(s, tenant, table.branch) then Err(Conflict)
      else if TokenTakenInTenant(s, tenant, table.token, id) then Err(Conflict)
      else if !table.live && IndexRefuses(s, table.token, id) then Err(UniqueViolation)
      else Ok(s.(tables := s.tables[id := table.(live := true)]))
  }

  function Checkout(s: State, tenant: Id, id: Id, branch: Id, table: Option<Id>): Result<State, Error> {
    if !BranchFound(s, tenant, branch) then Err(NotFound)
    else if table.Some? && !TableFound(s, tenant, table.value) then Err(NotFound)
    else if table.Some? && s.tables[table.value].branch != branch then Err(BadRequest)
    else if id in s.orders then Err(UniqueViolation)
    else Ok(s.(orders := s.orders[id := Order(tenant, branch, table, PENDING)]))
  }

  /** A guest's credential is the token of table `found`; the order is bound to that table. */
  function GuestCheckout(
    s: State, tenant: Id, id: Id, token: Token, found: Id, branch: Id, table: Option<Id>): Result<State, Error>
  {
    if !TableFound(s, tenant, found) || s.tables[found].token != token then Err(NotFound)
    else if branch != s.tables[found].branch then Err(BadRequest)
    else if table.Some? && table.value != found then Err(BadRequest)
    else Checkout(s, tenant, id, branch, Some(found))
  }

  /** `validateStateTransition` */
  predicate Allowed(current: Status, next: Status) {
    match current
    case DRAFT => next == PENDING || next == CANCELLED
    case PENDING => next == ACCEPTED || next == CANCELLED
    case ACCEPTED => next == PREPARING || next == CANCELLED
    case PREPARING => next == READY || next == CANCELLED
    case READY => next == COMPLETED || next == CANCELLED
    case COMPLETED => false
    case CANCELLED => false
  }

  /** Completing an order writes its invoice afterwards; `invoiced` says whether that write succeeds. */
  function UpdateStatus(s: State, tenant: Id, id: Id, next: Status, invoiced: bool): Result<State, Error> {
    if !OrderFound(s, tenant, id) then Err(NotFound)
    else if !Allowed(s.orders[id].status, next) then Err(BadRequest)
    else Ok(s.(orders := s.orders[id := s.orders[id].(status := next)],
               invoices := if next == COMPLETED && invoiced then s.invoices + [id] else s.invoices))
  }

  function Cancel(s: State, tenant: Id, id: Id): Result<State, Error> {
    if !OrderFound(s, tenant, id) then Err(NotFound)
    else if s.orders[id].status == COMPLETED then Err(Conflict)
    else Ok(s.(orders := s.orders[id := s.orders[id].(status := CANCELLED)]))
  }

  datatype Op =
    | DoCreateBranch(id: Id)
    | DoCreateTable(id: Id, branch: Id, number: string)
    | DoDeleteBranch(id: Id)
    | DoRestoreBranch(id: Id)
    | DoDeleteTable(id: Id)
    | DoRestoreTable(id: Id)
    | DoCheckout(id: Id, branch: Id, table: Option<Id>)
    | DoGuestCheckout(id: Id, token: Token, found: Id, branch: Id, table: Option<Id>)
    | DoUpdateStatus(id: Id, next: Status, invoiced: bool)
    | DoCancel(id: Id)

  function Outcome(s: State, tenant: Id, op: Op): Result<State, Error> {
    match op
    case DoCreateBranch(id) => CreateBranch(s, tenant, id)
    case DoCreateTable(id, branch, number) => CreateTable(s, tenant, id, branch, number)
    case DoDeleteBranch(id) => DeleteBranch(s, tenant, id)
    case DoRestoreBranch(id) => RestoreBranch(s, tenant, id)
    case DoDeleteTable(id) => DeleteTable(s, tenant, id)
    case DoRestoreTable(id) => RestoreTable(s, tenant, id)
    case DoCheckout(id, branch, table) => Checkout(s, tenant, id, branch, table)
    case DoGuestCheckout(id, token, found, branch, table) => GuestCheckout(s, tenant, id, token, found, branch, table)
    case DoUpdateStatus(id, next, invoiced) => UpdateStatus(s, tenant, id, next, invoiced)
    case DoCancel(id) => Cancel(s, tenant, id)
  }

  function Apply(s: State, tenant: Id, op: Op): State {
    var r := Outcome(s, tenant, op);
    if r.Ok? then r.value else s
  }

  /** A request of some tenant. */
  datatype Call = Call(tenant: Id, op: Op)

  function Run(s: State, calls: seq<Call>): State {
    if calls == [] then s
    else Apply(Run(s, calls[..|calls| - 1]), calls[|calls| - 1].tenant, calls[|calls| - 1].op)
  }
}
