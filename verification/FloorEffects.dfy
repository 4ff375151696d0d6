/**
 What each operation on the floor does, row by row and without reference to its code: when it succeeds, which
 rows it changes and to what, and that every other row stays as it was.
 */
module FloorEffects {
  import opened Wrappers
  import opened Floor

  /** At most the row `id` differs. */
  ghost predicate SameBut<V>(a: map<Id, V>, b: map<Id, V>, id: Id) {
    b.Keys == a.Keys + {id} && forall i :: i in a && i != id ==> b[i] == a[i]
  }

  ghost predicate OnlyBranch(s: State, t: State, id: Id) {
    SameBut(s.branches, t.branches, id) && t.tables == s.tables && t.orders == s.orders && t.invoices == s.invoices
  }

  ghost predicate OnlyTable(s: State, t: State, id: Id) {
    SameBut(s.tables, t.tables, id) && t.branches == s.branches && t.orders == s.orders && t.invoices == s.invoices
  }

  ghost predicate OnlyOrder(s: State, t: State, id: Id) {
    SameBut(s.orders, t.orders, id) && t.branches == s.branches && t.tables == s.tables
  }

  /** A row of the tenant that is not soft-deleted. */
  ghost predicate LiveBranch(s: State, tenant: Id, id: Id) {
    id in s.branches && s.branches[id] == Branch(tenant, true)
  }

  ghost predicate LiveTable(s: State, tenant: Id, id: Id) {
    id in s.tables && s.tables[id].tenant == tenant && s.tables[id].live
  }

  ghost predicate InProgress(status: Status) {
    status != COMPLETED && status != CANCELLED
  }

  // ----- branches -----

  ghost predicate BranchOpened(s: State, t: State, tenant: Id, id: Id) {
    OnlyBranch(s, t, id) && id !in s.branches && LiveBranch(t, tenant, id)
  }

  /** The branch and its live tables are gone; nothing else has changed. */
  ghost predicate BranchClosed(s: State, t: State, tenant: Id, id: Id) {
    && SameBut(s.branches, t.branches, id) && t.branches[id] == Branch(tenant, false)
    && t.orders == s.orders && t.invoices == s.invoices && t.tables.Keys == s.tables.Keys
    && (forall x :: x in t.tables && t.tables[x].tenant == tenant && t.tables[x].branch == id ==> !t.tables[x].live)
    && (forall x :: x in s.tables ==>
          var was, now := s.tables[x], t.tables[x];
          && now == Table(was.tenant, was.branch, was.number, was.token, now.live)
          && (was.tenant != tenant || was.branch != id ==> now.live == was.live))
  }

  ghost predicate BranchFree(s: State, tenant: Id, id: Id) {
    forall o :: o in s.orders && s.orders[o].tenant == tenant && s.orders[o].branch == id ==>
      !InProgress(s.orders[o].status)
  }

  lemma CreateBranchEffect(s: State, tenant: Id, id: Id)
    ensures var r := CreateBranch(s, tenant, id);
            && (r.Ok? <==> id !in s.branches)
            && (r.Ok? ==> BranchOpened(s, r.value, tenant, id))
  {
  }

  lemma DeleteBranchEffect(s: State, tenant: Id, id: Id)
    ensures var r := DeleteBranch(s, tenant, id);
            && (r == Err(NotFound) <==> !LiveBranch(s, tenant, id))
            && (r == Err(Conflict) <==> LiveBranch(s, tenant, id) && !BranchFree(s, tenant, id))
            && (r.Ok? <==> LiveBranch(s, tenant, id) && BranchFree(s, tenant, id))
            && (r.Ok? ==> BranchClosed(s, r.value, tenant, id))
  {
  }

  lemma RestoreBranchEffect(s: State, tenant: Id, id: Id)
    ensures var r := RestoreBranch(s, tenant, id);
            && (r.Ok? <==> id in s.branches && s.branches[id].tenant == tenant)
            && (r.Ok? ==> OnlyBranch(s, r.value, id) && LiveBranch(r.value, tenant, id))
  {
  }

  // ----- tables -----

  ghost predicate TableOpened(s: State, t: State, tenant: Id, id: Id, branch: Id, number: string) {
    && OnlyTable(s, t, id) && id !in s.tables
    && t.tables[id] == Table(tenant, branch, number, Hmac(tenant + ":" + branch + ":" + number), true)
  }

  ghost predicate TableFree(s: State, tenant: Id, id: Id) {
    forall o :: o in s.orders && s.orders[o].tenant == tenant && s.orders[o].table == Some(id) ==>
      !InProgress(s.orders[o].status)
  }

  /** The row is as it was but for being live or not. */
  ghost predicate TableTurned(s: State, t: State, id: Id, live: bool) {
    && OnlyTable(s, t, id) && id in s.tables
    && var was := s.tables[id]; t.tables[id] == Table(was.tenant, was.branch, was.number, was.token, live)
  }

  ghost predicate TokenFree(s: State, token: Token, id: Id) {
    forall x :: x in s.tables && x != id && s.tables[x].live ==> s.tables[x].token != token
  }

  ghost predicate TokenFreeInTenant(s: State, tenant: Id, token: Token, id: Id) {
    forall x :: x in s.tables && x != id && s.tables[x].live && s.tables[x].tenant == tenant ==>
      s.tables[x].token != token
  }

  lemma CreateTableEffect(s: State, tenant: Id, id: Id, branch: Id, number: string)
    ensures var r := CreateTable(s, tenant, id, branch, number);
            && (r == Err(NotFound) <==> !LiveBranch(s, tenant, branch))
            && (r.Ok? <==> LiveBranch(s, tenant, branch) && id !in s.tables
                           && TokenFree(s, Hmac(tenant + ":" + branch + ":" + number), id))
            && (r.Ok? ==> TableOpened(s, r.value, tenant, id, branch, number))
  {
  }

  lemma DeleteTableEffect(s: State, tenant: Id, id: Id)
    ensures var r := DeleteTable(s, tenant, id);
            && (r == Err(NotFound) <==> !LiveTable(s, tenant, id))
            && (r == Err(Conflict) <==> LiveTable(s, tenant, id) && !TableFree(s, tenant, id))
            && (r.Ok? <==> LiveTable(s, tenant, id) && TableFree(s, tenant, id))
            && (r.Ok? ==> TableTurned(s, r.value, id, false))
  {
  }

  lemma RestoreTableEffect(s: State, tenant: Id, id: Id)
    ensures var r := RestoreTable(s, tenant, id);
            && (r == Err(NotFound) <==> !(id in s.tables && s.tables[id].tenant == tenant))
            && (r.Ok? || r == Err(UniqueViolation) <==>
                && id in s.tables && s.tables[id].tenant == tenant && LiveBranch(s, tenant, s.tables[id].branch)
                && TokenFreeInTenant(s, tenant, s.tables[id].token, id))
            && (r == Err(UniqueViolation) ==> !s.tables[id].live && !TokenFree(s, s.tables[id].token, id))
            && (r.Ok? ==> TableTurned(s, r.value, id, true)
                          && (s.tables[id].live || TokenFree(s, s.tables[id].token, id)))
  {
  }

  // ----- orders -----

  ghost predicate OrderPlaced(s: State, t: State, tenant: Id, id: Id, branch: Id, table: Option<Id>) {
    && OnlyOrder(s, t, id) && id !in s.orders && t.invoices == s.invoices
    && t.orders[id] == Order(tenant, branch, table, PENDING)
  }

  ghost predicate OrderMoved(s: State, t: State, id: Id, next: Status, invoiced: bool) {
    && OnlyOrder(s, t, id) && id in s.orders
    && t.orders[id] == Order(s.orders[id].tenant, s.orders[id].branch, s.orders[id].table, next)
    && t.invoices == if next == COMPLETED && invoiced then s.invoices + [id] else s.invoices
  }

  /** The table, if one is named, is a live one of the tenant that stands in the branch. */
  ghost predicate Seats(s: State, tenant: Id, branch: Id, table: Option<Id>) {
    table.Some? ==> LiveTable(s, tenant, table.value) && s.tables[table.value].branch == branch
  }

  lemma CheckoutEffect(s: State, tenant: Id, id: Id, branch: Id, table: Option<Id>)
    ensures var r := Checkout(s, tenant, id, branch, table);
            && (r == Err(NotFound) <==>
                !LiveBranch(s, tenant, branch) || (table.Some? && !LiveTable(s, tenant, table.value)))
            && (r.Ok? <==> LiveBranch(s, tenant, branch) && Seats(s, tenant, branch, table) && id !in s.orders)
            && (r.Ok? ==> OrderPlaced(s, r.value, tenant, id, branch, table))
  {
  }

  lemma GuestCheckoutEffect(s: State, tenant: Id, id: Id, token: Token, found: Id, branch: Id, table: Option<Id>)
    ensures var r := GuestCheckout(s, tenant, id, token, found, branch, table);
            && (r.Ok? <==>
                && LiveTable(s, tenant, found) && s.tables[found].token == token && s.tables[found].branch == branch
                && (table.None? || table == Some(found)) && LiveBranch(s, tenant, branch) && id !in s.orders)
            && (r.Ok? ==> OrderPlaced(s, r.value, tenant, id, branch, Some(found)))
  {
  }

  /** The stage that follows; the last two stages have none. */
  ghost predicate Follows(current: Status, next: Status) {
    (current, next) in
    {(DRAFT, PENDING), (PENDING, ACCEPTED), (ACCEPTED, PREPARING), (PREPARING, READY), (READY, COMPLETED)}
  }

  lemma UpdateStatusEffect(s: State, tenant: Id, id: Id, next: Status, invoiced: bool)
    ensures var r := UpdateStatus(s, tenant, id, next, invoiced);
            && (r == Err(NotFound) <==> !(id in s.orders && s.orders[id].tenant == tenant))
            && (r.Ok? <==> id in s.orders && s.orders[id].tenant == tenant
                           && (Follows(s.orders[id].status, next)
                               || (next == CANCELLED && InProgress(s.orders[id].status))))
            && (r.Ok? ==> OrderMoved(s, r.value, id, next, invoiced))
  {
  }

  lemma CancelEffect(s: State, tenant: Id, id: Id)
    ensures var r := Cancel(s, tenant, id);
            && (r == Err(NotFound) <==> !(id in s.orders && s.orders[id].tenant == tenant))
            && (r.Ok? <==> id in s.orders && s.orders[id].tenant == tenant && s.orders[id].status != COMPLETED)
            && (r.Ok? ==> OrderMoved(s, r.value, id, CANCELLED, false))
  {
  }

  // ----- round trips -----

  /** A table that is deleted can be restored, and then everything is as before. */
  lemma TableRoundTrip(s: State, tenant: Id, id: Id)
    requires LiveTable(s, tenant, id) && TableFree(s, tenant, id) && LiveBranch(s, tenant, s.tables[id].branch)
    requires TokenFree(s, s.tables[id].token, id)
    ensures DeleteTable(s, tenant, id).Ok? && RestoreTable(DeleteTable(s, tenant, id).value, tenant, id) == Ok(s)
  {
    hide DeleteTable, RestoreTable;
    DeleteTableEffect(s, tenant, id);
    var gone := DeleteTable(s, tenant, id).value;
    RestoreTableEffect(gone, tenant, id);
    var back := RestoreTable(gone, tenant, id).value;
    assert back.tables == s.tables;
  }

  /** Restoring a branch brings back the branch alone: its tables stay closed. */
  lemma BranchComesBackEmpty(s: State, tenant: Id, id: Id)
    requires LiveBranch(s, tenant, id) && BranchFree(s, tenant, id)
    ensures DeleteBranch(s, tenant, id).Ok? && RestoreBranch(DeleteBranch(s, tenant, id).value, tenant, id).Ok?
    ensures var t := RestoreBranch(DeleteBranch(s, tenant, id).value, tenant, id).value;
            && t.branches == s.branches && t.orders == s.orders
            && forall x :: x in t.tables && t.tables[x].tenant == tenant && t.tables[x].branch == id ==>
               !t.tables[x].live
  {
    hide DeleteBranch, RestoreBranch;
    DeleteBranchEffect(s, tenant, id);
    var gone := DeleteBranch(s, tenant, id).value;
    RestoreBranchEffect(gone, tenant, id);
    assert RestoreBranch(gone, tenant, id).value.branches == s.branches;
  }
}
