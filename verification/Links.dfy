/**
 Replacing the roles or branches of a user by a difference (apps/api/src/user/user.service.ts). What to
 remove and what to add is computed against a snapshot that was read before the transaction, and for
 branches the snapshot shows only assignments to branches that are not soft-deleted.
 */
module Links {
  import opened Wrappers

  function Removals<T(==)>(snapshot: set<T>, desired: set<T>): set<T> {
    snapshot - desired
  }

  function Additions<T(==)>(snapshot: set<T>, desired: set<T>): set<T> {
    desired - snapshot
  }

  /** The stored links after the nested deletes and creates. */
  function Replaced<T(==)>(stored: set<T>, snapshot: set<T>, desired: set<T>): set<T> {
    stored - Removals(snapshot, desired) + Additions(snapshot, desired)
  }

  /** A link that exists is created again, which its primary key refuses: the whole transaction rolls back. */
  predicate Clash<T(==)>(stored: set<T>, snapshot: set<T>, desired: set<T>) {
    Additions(snapshot, desired) * stored != {}
  }

  /** The stored links after the transaction, committed or rolled back. */
  function Changed<T(==)>(stored: set<T>, snapshot: set<T>, desired: set<T>): set<T> {
    if Clash(stored, snapshot, desired) then stored else Replaced(stored, snapshot, desired)
  }

  /** Unknown names make the request fail; otherwise the ids of the tenant's rows are returned. */
  function Resolve<N(==), I(==)>(table: map<N, I>, names: set<N>): Result<set<I>, set<N>> {
    var missing := names - table.Keys;
    if missing != {} then Err(missing) else Ok(Ids(table, names))
  }

  function Ids<N(==), I(==)>(table: map<N, I>, names: set<N>): set<I> {
    set n | n in names && n in table :: table[n]
  }

  /**
   Exactly when the user ends up with the desired links among those that are live: no desired link of the
   snapshot was taken away in the meantime, and no other visible link was added.
   */
  lemma VisibleIsDesired<T>(stored: set<T>, live: set<T>, snapshot: set<T>, desired: set<T>)
    requires desired <= live
    ensures Replaced(stored, snapshot, desired) * live == desired <==>
            desired * snapshot <= stored && (stored * live) - desired <= snapshot
  {
    var after := Replaced(stored, snapshot, desired);
    if after * live == desired {
      forall x | x in desired * snapshot ensures x in stored {
        assert x in after * live;
      }
      forall x | x in (stored * live) - desired ensures x in snapshot {
        assert x !in after * live;
      }
    }
    if desired * snapshot <= stored && (stored * live) - desired <= snapshot {
      forall x ensures x in after * live <==> x in desired {
        if x in desired * snapshot || x in (stored * live) - desired {}
      }
    }
  }

  /** Exactly when no link is created a second time: every desired link that exists was seen in the snapshot. */
  lemma NoDoubleLink<T>(stored: set<T>, snapshot: set<T>, desired: set<T>)
    ensures Additions(snapshot, desired) !! stored <==> desired * stored <= snapshot
    ensures Clash(stored, snapshot, desired) <==> !(desired * stored <= snapshot)
  {
    assert Clash(stored, snapshot, desired) <==> !(Additions(snapshot, desired) !! stored) by {
      var more := Additions(snapshot, desired);
      assert forall x :: x in more * stored <==> x in more && x in stored;
    }
    if Additions(snapshot, desired) !! stored {
      forall x | x in desired * stored ensures x in snapshot {
        assert x !in Additions(snapshot, desired);
      }
    }
  }

  /** With nothing in between, hidden assignments do no harm: they stay, and the visible set is the desired one. */
  lemma QuietReplacement<T>(stored: set<T>, live: set<T>, desired: set<T>)
    requires desired <= live
    ensures var after := Replaced(stored, stored * live, desired);
            && after * live == desired && after - live == stored - live
            && !Clash(stored, stored * live, desired)
  {
    VisibleIsDesired(stored, live, stored * live, desired);
    NoDoubleLink(stored, stored * live, desired);
  }

  /** Roles are compared by id although requests name them; names are unique, so the two views agree. */
  lemma ReplacedByIds<N, I>(table: map<N, I>, stored: set<N>, snapshot: set<N>, desired: set<N>)
    requires forall a, b :: a in table && b in table && table[a] == table[b] ==> a == b
    requires stored <= table.Keys && snapshot <= table.Keys && desired <= table.Keys
    ensures Replaced(Ids(table, stored), Ids(table, snapshot), Ids(table, desired)) ==
            Ids(table, Replaced(stored, snapshot, desired))
  {
    forall n | n in table
      ensures table[n] in Replaced(Ids(table, stored), Ids(table, snapshot), Ids(table, desired)) <==>
              n in Replaced(stored, snapshot, desired)
    {
      assert table[n] in Ids(table, stored) <==> n in stored;
      assert table[n] in Ids(table, snapshot) <==> n in snapshot;
      assert table[n] in Ids(table, desired) <==> n in desired;
    }
  }
}
