/** What every run of the floor keeps, although no single service checks it. */
module FloorSafety {
  import opened Wrappers
  import opened Floor
  import opened Text

  /** Every open order points to a live branch of its tenant and, if it has a table, to a live table there. */
  ghost predicate OrdersSeated(s: State) {
    forall o :: o in s.orders && Open(s.orders[o].status) ==> OrderSeated(s, s.orders[o])
  }

  ghost predicate OrderSeated(s: State, o: Order) {
    && BranchFound(s, o.tenant, o.branch)
    && (o.table.Some? ==> TableFound(s, o.tenant, o.table.value) && s.tables[o.table.value].branch == o.branch)
  }

  /** Every live table stands in a live branch of its tenant. */
  ghost predicate TablesHoused(s: State) {
    forall t :: t in s.tables && s.tables[t].live ==> BranchFound(s, s.tables[t].tenant, s.tables[t].branch)
  }

  /** Every table carries the token of its own tenant, branch and number. */
  ghost predicate TokensGenuine(s: State) {
    forall t :: t in s.tables ==> Genuine(s.tables[t])
  }

  ghost predicate Genuine(t: Table) {
    NoColon(t.tenant) && NoColon(t.branch) && t.token == Hmac(Payload(t.tenant, t.branch, t.number))
  }

  ghost predicate TokensUnique(s: State) {
    forall a, b :: a in s.tables && b in s.tables && s.tables[a].live && s.tables[b].live
                   && s.tables[a].token == s.tables[b].token ==>
      a == b
  }

  /** An order has at most one invoice, and only if it is completed. */
  ghost predicate InvoicesSound(s: State) {
    && (forall i, j :: 0 <= i < j < |s.invoices| ==> s.invoices[i] != s.invoices[j])
    && (forall i :: 0 <= i < |s.invoices| ==> s.invoices[i] in s.orders && s.orders[s.invoices[i]].status == COMPLETED)
  }

  /** Branch ids and tenant ids are UUIDs, which contain no colon. */
  ghost predicate IdsPlain(s: State) {
    forall b :: b in s.branches ==> NoColon(b) && NoColon(s.branches[b].tenant)
  }

  ghost predicate Sound(s: State) {
    OrdersSeated(s) && TablesHoused(s) && TokensGenuine(s) && TokensUnique(s) && InvoicesSound(s) && IdsPlain(s)
  }

  ghost predicate PlainCall(c: Call) {
    NoColon(c.tenant) && (c.op.DoCreateBranch? ==> NoColon(c.op.id))
  }

  // ----- tokens -----

  /** The signed payload determines tenant, branch and number, even if numbers contain colons. */
  lemma PayloadInjective(t: Id, b: Id, n: string, t': Id, b': Id, n': string)
    requires NoColon(t) && NoColon(b) && NoColon(t') && NoColon(b')
    ensures Payload(t, b, n) == Payload(t', b', n') <==> t == t' && b == b' && n == n'
  {
    if Payload(t, b, n) == Payload(t', b', n') {
      assert Payload(t, b, n) == t + ":" + (b + ":" + n) && Payload(t', b', n') == t' + ":" + (b' + ":" + n');
      FirstField(t, b + ":" + n, t', b' + ":" + n');
      FirstField(b, n, b', n');
    }
  }

  /** The tenant-scoped check in `restoreTable` is enough: the index over all tenants accepts the row. */
  lemma RestoreAccepted(s: State, tenant: Id, id: Id)
    requires Sound(s) && id in s.tables && s.tables[id].tenant == tenant
    requires !TokenTakenInTenant(s, tenant, s.tables[id].token, id)
    ensures !IndexRefuses(s, s.tables[id].token, id)
    ensures RestoreTable(s, tenant, id) != Err(UniqueViolation)
  {
    hide OrdersSeated, InvoicesSound, TablesHoused, TokensUnique;
    var mine := s.tables[id];
    forall t | t in s.tables && t != id && s.tables[t].live ensures s.tables[t].token != mine.token {
      var other := s.tables[t];
      assert Genuine(mine) && Genuine(other);
      PayloadInjective(mine.tenant, mine.branch, mine.number, other.tenant, other.branch, other.number);
    }
  }

  // ----- the steps -----

  lemma CreateTableSound(s: State, tenant: Id, id: Id, branch: Id, number: string)
    requires Sound(s) && NoColon(tenant) && CreateTable(s, tenant, id, branch, number).Ok?
    ensures Sound(CreateTable(s, tenant, id, branch, number).value)
  {
  }

  /** Closing tables keeps tokens unique and genuine. */
  lemma TablesClosed(s: State, s': State)
    requires TokensUnique(s) && TokensGenuine(s) && s'.tables.Keys == s.tables.Keys
    requires forall t :: t in s.tables ==> s'.tables[t] == s.tables[t] || s'.tables[t] == s.tables[t].(live := false)
    ensures TokensUnique(s') && TokensGenuine(s')
  {
  }

  /** The count by branch covers the orders at every table that the cascade closes. */
  lemma DeleteBranchSound(s: State, tenant: Id, id: Id)
    requires Sound(s) && DeleteBranch(s, tenant, id).Ok?
    ensures Sound(DeleteBranch(s, tenant, id).value)
  {
    hide InvoicesSound;
    var s' := DeleteBranch(s, tenant, id).value;
    assert s'.orders == s.orders && s'.branches == s.branches[id := s.branches[id].(live := false)];
    assert forall o :: o in s.orders && Open(s.orders[o].status) && OrderSeated(s, s.orders[o]) ==>
        s.orders[o].branch != id;
    assert IdsPlain(s');
    assert forall t :: t in s'.tables <==> t in s.tables;
    assert forall t :: t in s.tables ==>
        s'.tables[t] == s.tables[t] || (s.tables[t].branch == id && s'.tables[t] == s.tables[t].(live := false));
    InvoicesFrame(s, s');
    TablesClosed(s, s');
    hide TokensUnique, TokensGenuine, IdsPlain, DeleteBranch;
    forall o | o in s'.orders && Open(s'.orders[o].status) ensures OrderSeated(s', s'.orders[o]) {
      var order := s.orders[o];
      assert OrderSeated(s, order);
      assert order.branch != id;
    }
    forall t | t in s'.tables && s'.tables[t].live ensures BranchFound(s', s'.tables[t].tenant, s'.tables[t].branch) {
      assert s.tables[t].live && s'.tables[t] == s.tables[t];
    }
  }

  lemma InvoicesFrame(s: State, s': State)
    requires InvoicesSound(s) && s'.orders == s.orders && s'.invoices == s.invoices
    ensures InvoicesSound(s')
  {
  }

  lemma DeleteTableSound(s: State, tenant: Id, id: Id)
    requires Sound(s) && DeleteTable(s, tenant, id).Ok?
    ensures Sound(DeleteTable(s, tenant, id).value)
  {
    hide InvoicesSound;
    var s' := DeleteTable(s, tenant, id).value;
    InvoicesFrame(s, s');
    forall o | o in s'.orders && Open(s'.orders[o].status) ensures OrderSeated(s', s'.orders[o]) {
      assert OrderSeated(s, s.orders[o]);
      assert s.orders[o].table != Some(id);
    }
  }

  lemma RestoreSound(s: State, tenant: Id, op: Op)
    requires Sound(s) && (op.DoRestoreBranch? || op.DoRestoreTable?) && Outcome(s, tenant, op).Ok?
    ensures Sound(Outcome(s, tenant, op).value)
  {
    hide InvoicesSound;
    var s' := Outcome(s, tenant, op).value;
    InvoicesFrame(s, s');
    forall o | o in s'.orders && Open(s'.orders[o].status) ensures OrderSeated(s', s'.orders[o]) {
      assert OrderSeated(s, s.orders[o]);
    }
  }

  lemma CheckoutSound(s: State, tenant: Id, id: Id, branch: Id, table: Option<Id>)
    requires Sound(s) && Checkout(s, tenant, id, branch, table).Ok?
    ensures Sound(Checkout(s, tenant, id, branch, table).value)
  {
    var s' := Checkout(s, tenant, id, branch, table).value;
    forall o | o in s'.orders && Open(s'.orders[o].status) ensures OrderSeated(s', s'.orders[o]) {
      if o != id { assert OrderSeated(s, s.orders[o]); }
    }
  }

  lemma StatusSound(s: State, tenant: Id, op: Op)
    requires Sound(s) && (op.DoUpdateStatus? || op.DoCancel?) && Outcome(s, tenant, op).Ok?
    ensures Sound(Outcome(s, tenant, op).value)
  {
    var s' := Outcome(s, tenant, op).value;
    forall o | o in s'.orders && Open(s'.orders[o].status) ensures OrderSeated(s', s'.orders[o]) {
      assert OrderSeated(s, s.orders[o]);
    }
  }

  lemma StepSound(s: State, c: Call)
    requires Sound(s) && PlainCall(c)
    ensures Sound(Apply(s, c.tenant, c.op))
  {
    if Outcome(s, c.tenant, c.op).Ok? {
      match c.op
      case DoCreateBranch(id) => CreateBranchSound(s, c.tenant, id);
      case DoCreateTable(id, branch, number) => CreateTableSound(s, c.tenant, id, branch, number);
      case DoDeleteBranch(id) => DeleteBranchSound(s, c.tenant, id);
      case DoDeleteTable(id) => DeleteTableSound(s, c.tenant, id);
      case DoCheckout(id, branch, table) => CheckoutSound(s, c.tenant, id, branch, table);
      case DoGuestCheckout(id, _, found, branch, _) => CheckoutSound(s, c.tenant, id, branch, Some(found));
      case DoUpdateStatus(_, _, _) => StatusSound(s, c.tenant, c.op);
      case DoCancel(_) => StatusSound(s, c.tenant, c.op);
      case _ => RestoreSound(s, c.tenant, c.op);
    }
  }

  lemma CreateBranchSound(s: State, tenant: Id, id: Id)
    requires Sound(s) && NoColon(tenant) && NoColon(id) && CreateBranch(s, tenant, id).Ok?
    ensures Sound(CreateBranch(s, tenant, id).value)
  {
    var s' := CreateBranch(s, tenant, id).value;
    forall o | o in s'.orders && Open(s'.orders[o].status) ensures OrderSeated(s', s'.orders[o]) {
      assert OrderSeated(s, s.orders[o]);
    }
  }

  /** The main theorem: all of this survives every run of all tenants. */
  lemma {:induction false} RunSound(s: State, calls: seq<Call>)
    requires Sound(s) && forall i :: 0 <= i < |calls| ==> PlainCall(calls[i])
    ensures Sound(Run(s, calls))
  {
    if calls != [] {
      RunSound(s, calls[..|calls| - 1]);
      StepSound(Run(s, calls[..|calls| - 1]), calls[|calls| - 1]);
    }
  }

  /** A platform without rows is where runs start. */
  lemma EmptyFloor()
    ensures Sound(State(map[], map[], map[], []))
  {
  }

  // ----- the life of an order -----

  ghost function Rank(status: Status): nat {
    match status
    case DRAFT => 0
    case PENDING => 1
    case ACCEPTED => 2
    case PREPARING => 3
    case READY => 4
    case COMPLETED => 5
    case CANCELLED => 6
  }

  /** An open order moves to the very next stage or is cancelled; nothing else is allowed. */
  lemma AllowedExactly(current: Status, next: Status)
    ensures Allowed(current, next) <==> Open(current) && (Rank(next) == Rank(current) + 1 || next == CANCELLED)
  {
  }

  /** A guest order is bound to the one live table that answers to the token. */
  lemma GuestOrderBound(s: State, tenant: Id, id: Id, token: Token, found: Id, branch: Id, table: Option<Id>)
    requires Sound(s) && GuestCheckout(s, tenant, id, token, found, branch, table).Ok?
    ensures var o := GuestCheckout(s, tenant, id, token, found, branch, table).value.orders[id];
            o == Order(tenant, s.tables[found].branch, Some(found), PENDING)
            && forall t :: t in s.tables && s.tables[t].live && s.tables[t].token == token ==> o.table == Some(t)
  {
    hide OrdersSeated, InvoicesSound, TablesHoused, TokensGenuine;
  }

  /** A completed or cancelled order never changes again, stages only go forward, and branch and table stay. */
  lemma {:induction false} RunTerminal(s: State, calls: seq<Call>, o: Id)
    requires o in s.orders
    ensures var s' := Run(s, calls);
            o in s'.orders && s'.orders[o] == s.orders[o].(status := s'.orders[o].status)
            && (!Open(s.orders[o].status) ==> s'.orders[o] == s.orders[o])
            && Rank(s'.orders[o].status) >= Rank(s.orders[o].status)
  {
    if calls != [] {
      var m, c := Run(s, calls[..|calls| - 1]), calls[|calls| - 1];
      RunTerminal(s, calls[..|calls| - 1], o);
      StepTerminal(m, c.tenant, c.op, o);
    }
  }

  lemma StepTerminal(s: State, tenant: Id, op: Op, o: Id)
    requires o in s.orders
    ensures var s' := Apply(s, tenant, op);
            o in s'.orders && s'.orders[o] == s.orders[o].(status := s'.orders[o].status)
            && (!Open(s.orders[o].status) ==> s'.orders[o] == s.orders[o])
            && Rank(s'.orders[o].status) >= Rank(s.orders[o].status)
  {
  }
}
