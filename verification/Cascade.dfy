/**
 The batched soft-delete cascade that branches use for their tables (apps/api/src/branch/branch.service.ts)
 and categories for their products (apps/api/src/menu/menu.service.ts). Rows are read in pages of at most
 200 and updated one by one; a short page ends the loop early.
 */
module Cascade {

  const CASCADE_BATCH_SIZE: nat := 200

  /** One statement that updates every row that is hit. */
  function MarkAll<I(==), R>(rows: map<I, R>, hit: R -> bool, mark: R -> R): map<I, R> {
    map id | id in rows :: if hit(rows[id]) then mark(rows[id]) else rows[id]
  }

  function Hits<I(==), R>(rows: map<I, R>, hit: R -> bool): set<I> {
    set id | id in rows && hit(rows[id])
  }

  /** `findMany` with a filter and `take`: any page of that many rows, in any order. */
  method FindMany<I(==), R>(rows: map<I, R>, hit: R -> bool, take: nat) returns (batch: seq<I>)
    ensures forall i :: 0 <= i < |batch| ==> batch[i] in Hits(rows, hit)
    ensures forall i, j :: 0 <= i < j < |batch| ==> batch[i] != batch[j]
    ensures |batch| <= take
    ensures |batch| < take ==> forall id :: id in Hits(rows, hit) ==> id in batch
  {
    batch := [];
    var left := Hits(rows, hit);
    while |batch| < take && left != {}
      invariant left <= Hits(rows, hit) && |batch| <= take
      invariant forall i :: 0 <= i < |batch| ==> batch[i] in Hits(rows, hit) && batch[i] !in left
      invariant forall i, j :: 0 <= i < j < |batch| ==> batch[i] != batch[j]
      invariant forall id :: id in Hits(rows, hit) ==> id in left || id in batch
      decreases left
    {
      var id :| id in left;
      batch, left := batch + [id], left - {id};
    }
  }

  /** The rows half-way: some that were hit are marked already, all others are untouched. */
  ghost predicate Underway<I, R>(rows0: map<I, R>, rows: map<I, R>, hit: R -> bool, mark: R -> R) {
    && rows.Keys == rows0.Keys
    && forall id :: id in rows0 ==> rows[id] == rows0[id] || (hit(rows0[id]) && rows[id] == mark(rows0[id]))
  }

  /** Marks one page. */
  method MarkBatch<I(==), R(==)>(
    ghost rows0: map<I, R>, rows1: map<I, R>, batch: seq<I>, hit: R -> bool, mark: R -> R) returns (rows: map<I, R>)
    requires Underway(rows0, rows1, hit, mark)
    requires forall id :: id in rows0 && hit(rows0[id]) ==> !hit(mark(rows0[id]))
    requires forall i :: 0 <= i < |batch| ==> batch[i] in Hits(rows1, hit)
    requires forall i, j :: 0 <= i < j < |batch| ==> batch[i] != batch[j]
    ensures Underway(rows0, rows, hit, mark)
    ensures forall id :: id in rows ==> (hit(rows[id]) <==> hit(rows1[id]) && id !in batch)
  {
    rows := rows1;
    for i := 0 to |batch|
      invariant Underway(rows0, rows, hit, mark)
      invariant forall id :: id in rows && id !in batch[..i] ==> rows[id] == rows1[id]
      invariant forall id :: id in rows && id in batch[..i] ==> !hit(rows[id])
    {
      assert batch[i] !in batch[..i];
      assert batch[..i + 1] == batch[..i] + [batch[i]];
      rows := rows[batch[i] := mark(rows[batch[i]])];
    }
    assert batch[..|batch|] == batch;
  }

  /** The loop ends, and all its pages together are the one statement. */
  method SoftDeleteChildren<I(==), R(==)>(rows0: map<I, R>, hit: R -> bool, mark: R -> R) returns (rows: map<I, R>)
    requires forall id :: id in rows0 && hit(rows0[id]) ==> !hit(mark(rows0[id]))
    ensures rows == MarkAll(rows0, hit, mark)
  {
    rows := rows0;
    while true
      invariant Underway(rows0, rows, hit, mark)
      decreases Hits(rows, hit)
    {
      ghost var before := Hits(rows, hit);
      var batch := FindMany(rows, hit, CASCADE_BATCH_SIZE);
      if |batch| == 0 {
        AllMarked(rows0, rows, hit, mark);
        return;
      }
      assert batch[0] in before;
      rows := MarkBatch(rows0, rows, batch, hit, mark);
      assert Hits(rows, hit) <= before && batch[0] !in Hits(rows, hit);
      if |batch| < CASCADE_BATCH_SIZE {
        AllMarked(rows0, rows, hit, mark);
        return;
      }
    }
  }

  lemma AllMarked<I, R>(rows0: map<I, R>, rows: map<I, R>, hit: R -> bool, mark: R -> R)
    requires Underway(rows0, rows, hit, mark)
    requires forall id :: id in rows ==> id !in Hits(rows, hit)
    ensures rows == MarkAll(rows0, hit, mark)
  {
    forall id | id in rows0 ensures rows[id] == MarkAll(rows0, hit, mark)[id] {
      assert id in rows && !hit(rows[id]);
    }
  }
}
