/** The branch and order services as methods that update rows. */
module FloorService {
  import opened Wrappers
  import opened Floor
  import opened FloorSafety
  import opened FloorEffects
  import opened Text
  import Cascade

  /** What a call did to the rows, given what it was supposed to do. */
  ghost predicate Did(before: State, r: Result<State, Error>, after: State, error: Option<Error>) {
    if r.Ok? then error == None && after == r.value else error == Some(r.error) && after == before
  }

  class Service {
    var branches: map<Id, Branch>
    var tables: map<Id, Table>
    var orders: map<Id, Order>
    var invoices: seq<Id>

    ghost function Value(): State
      reads this
    {
      State(branches, tables, orders, invoices)
    }

    /** Refused while orders are open; otherwise the tables are closed page by page, then the branch. */
    method DeleteBranch(tenant: Id, id: Id) returns (error: Option<Error>)
      modifies this
      ensures Did(old(Value()), Floor.DeleteBranch(old(Value()), tenant, id), Value(), error)
      ensures error.None? <==> old(LiveBranch(Value(), tenant, id) && BranchFree(Value(), tenant, id))
      ensures error.None? ==> BranchClosed(old(Value()), Value(), tenant, id)
      ensures old(Sound(Value())) ==> Sound(Value())
    {
      DeleteBranchEffect(Value(), tenant, id);
      hide Sound, LiveBranch, BranchFree, BranchClosed;
      if id !in branches || branches[id].tenant != tenant || !branches[id].live {
        return Some(NotFound);
      }
      if o :| o in orders && orders[o].tenant == tenant && orders[o].branch == id && Open(orders[o].status) {
        return Some(Conflict);
      }
      tables := Cascade.SoftDeleteChildren(tables,
        (t: Table) => t.branch == id && t.tenant == tenant && t.live, (t: Table) => t.(live := false));
      branches := branches[id := branches[id].(live := false)];
      error := None;
      if old(Sound(Value())) { DeleteBranchSound(old(Value()), tenant, id); }
    }

    method CreateTable(tenant: Id, id: Id, branch: Id, number: string) returns (error: Option<Error>)
      modifies `tables
      ensures Did(old(Value()), Floor.CreateTable(old(Value()), tenant, id, branch, number), Value(), error)
      ensures error.None? <==> old(LiveBranch(Value(), tenant, branch) && id !in tables
                                   && TokenFree(Value(), Hmac(tenant + ":" + branch + ":" + number), id))
      ensures error.None? ==> TableOpened(old(Value()), Value(), tenant, id, branch, number)
      ensures old(Sound(Value())) && NoColon(tenant) ==> Sound(Value())
    {
      CreateTableEffect(Value(), tenant, id, branch, number);
      hide Sound, TableOpened, TokenFree;
      if branch !in branches || branches[branch].tenant != tenant || !branches[branch].live {
        return Some(NotFound);
      }
      var token := Hmac(Payload(branches[branch].tenant, branch, number));
      if id in tables {
        return Some(UniqueViolation);
      }
      if t :| t in tables && tables[t].live && tables[t].token == token {
        return Some(UniqueViolation);
      }
      tables := tables[id := Table(tenant, branch, number, token, true)];
      error := None;
      if old(Sound(Value())) && NoColon(tenant) { CreateTableSound(old(Value()), tenant, id, branch, number); }
    }

    /** The two checks of the service; the row is then written without looking at other tenants. */
    method RestoreTable(tenant: Id, id: Id) returns (error: Option<Error>)
      requires Sound(Value())
      modifies `tables
      ensures Did(old(Value()), Floor.RestoreTable(old(Value()), tenant, id), Value(), error)
      ensures error.None? <==> old(id in tables && tables[id].tenant == tenant
                                   && LiveBranch(Value(), tenant, tables[id].branch)
                                   && TokenFreeInTenant(Value(), tenant, tables[id].token, id))
      ensures error.None? ==> TableTurned(old(Value()), Value(), id, true)
      ensures Sound(Value()) && error != Some(UniqueViolation)
    {
      RestoreTableEffect(Value(), tenant, id);
      hide Sound, TableTurned, TokenFree, TokenFreeInTenant, LiveBranch;
      if id !in tables || tables[id].tenant != tenant {
        return Some(NotFound);
      }
      var table := tables[id];
      if table.branch !in branches || branches[table.branch].tenant != tenant || !branches[table.branch].live {
        return Some(Conflict);
      }
      if t :| t in tables && t != id && tables[t].tenant == tenant && tables[t].live && tables[t].token == table.token {
        return Some(Conflict);
      }
      RestoreAccepted(Value(), tenant, id);
      RestoreSound(Value(), tenant, DoRestoreTable(id));
      tables := tables[id := table.(live := true)];
      error := None;
    }

    method RestoreBranch(tenant: Id, id: Id) returns (error: Option<Error>)
      modifies `branches
      ensures Did(old(Value()), Floor.RestoreBranch(old(Value()), tenant, id), Value(), error)
      ensures error.None? <==> old(id in branches && branches[id].tenant == tenant)
      ensures error.None? ==> OnlyBranch(old(Value()), Value(), id) && LiveBranch(Value(), tenant, id)
      ensures old(Sound(Value())) ==> Sound(Value())
    {
      RestoreBranchEffect(Value(), tenant, id);
      hide Sound, OnlyBranch, LiveBranch;
      if id !in branches || branches[id].tenant != tenant {
        return Some(NotFound);
      }
      if Sound(Value()) { RestoreSound(Value(), tenant, DoRestoreBranch(id)); }
      branches := branches[id := branches[id].(live := true)];
      error := None;
    }

    /** Refused while orders at the table are open. */
    method DeleteTable(tenant: Id, id: Id) returns (error: Option<Error>)
      modifies `tables
      ensures Did(old(Value()), Floor.DeleteTable(old(Value()), tenant, id), Value(), error)
      ensures error.None? <==> old(LiveTable(Value(), tenant, id) && TableFree(Value(), tenant, id))
      ensures error.None? ==> TableTurned(old(Value()), Value(), id, false)
      ensures old(Sound(Value())) ==> Sound(Value())
    {
      DeleteTableEffect(Value(), tenant, id);
      hide Sound, LiveTable, TableFree, TableTurned;
      if id !in tables || tables[id].tenant != tenant || !tables[id].live {
        return Some(NotFound);
      }
      if o :| o in orders && orders[o].tenant == tenant && orders[o].table == Some(id) && Open(orders[o].status) {
        return Some(Conflict);
      }
      if Sound(Value()) { DeleteTableSound(Value(), tenant, id); }
      tables := tables[id := tables[id].(live := false)];
      error := None;
    }

    method Checkout(tenant: Id, id: Id, branch: Id, table: Option<Id>) returns (error: Option<Error>)
      modifies `orders
      ensures Did(old(Value()), Floor.Checkout(old(Value()), tenant, id, branch, table), Value(), error)
      ensures error.None? <==> old(LiveBranch(Value(), tenant, branch) && Seats(Value(), tenant, branch, table)
                                   && id !in orders)
      ensures error.None? ==> OrderPlaced(old(Value()), Value(), tenant, id, branch, table)
      ensures old(Sound(Value())) ==> Sound(Value())
    {
      CheckoutEffect(Value(), tenant, id, branch, table);
      hide Sound, OrderPlaced, LiveBranch, Seats;
      if branch !in branches || branches[branch].tenant != tenant || !branches[branch].live {
        return Some(NotFound);
      }
      if table.Some? {
        if table.value !in tables || tables[table.value].tenant != tenant || !tables[table.value].live {
          return Some(NotFound);
        }
        if tables[table.value].branch != branch {
          return Some(BadRequest);
        }
      }
      if id in orders {
        return Some(UniqueViolation);
      }
      orders := orders[id := Order(tenant, branch, table, PENDING)];
      error := None;
      if old(Sound(Value())) { CheckoutSound(old(Value()), tenant, id, branch, table); }
    }

    method UpdateOrderStatus(tenant: Id, id: Id, next: Status, invoiced: bool) returns (error: Option<Error>)
      modifies `orders, `invoices
      ensures Did(old(Value()), Floor.UpdateStatus(old(Value()), tenant, id, next, invoiced), Value(), error)
      ensures error.None? <==> old(id in orders && orders[id].tenant == tenant
                                   && (Follows(orders[id].status, next)
                                       || (next == CANCELLED && InProgress(orders[id].status))))
      ensures error.None? ==> OrderMoved(old(Value()), Value(), id, next, invoiced)
      ensures old(Sound(Value())) ==> Sound(Value())
    {
      UpdateStatusEffect(Value(), tenant, id, next, invoiced);
      hide Sound, OrderMoved, Follows, InProgress, Allowed;
      if id !in orders || orders[id].tenant != tenant {
        return Some(NotFound);
      }
      if !Allowed(orders[id].status, next) {
        return Some(BadRequest);
      }
      orders := orders[id := orders[id].(status := next)];
      if next == COMPLETED && invoiced {
        invoices := invoices + [id];
      }
      error := None;
      if old(Sound(Value())) { StatusSound(old(Value()), tenant, DoUpdateStatus(id, next, invoiced)); }
    }

    method CancelOrder(tenant: Id, id: Id) returns (error: Option<Error>)
      modifies `orders
      ensures Did(old(Value()), Floor.Cancel(old(Value()), tenant, id), Value(), error)
      ensures error.None? <==> old(id in orders && orders[id].tenant == tenant && orders[id].status != COMPLETED)
      ensures error.None? ==> OrderMoved(old(Value()), Value(), id, CANCELLED, false)
      ensures old(Sound(Value())) ==> Sound(Value())
    {
      CancelEffect(Value(), tenant, id);
      hide Sound, OrderMoved;
      if id !in orders || orders[id].tenant != tenant {
        return Some(NotFound);
      }
      if orders[id].status == COMPLETED {
        return Some(Conflict);
      }
      if Sound(Value()) { StatusSound(Value(), tenant, DoCancel(id)); }
      orders := orders[id := orders[id].(status := CANCELLED)];
      error := None;
    }
  }
}
