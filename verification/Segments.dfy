/**
 Segmentation of revenue and of order counts (apps/api/src/eleva/eleva.business.intelligence.ts). A
 JavaScript map keeps its keys in the order of their first insertion, so it is a list of entries here.
 */
module Segments {
  import opened Wrappers
  import opened Text

  /** An order row; the two keys are null when the column is. Amounts are in cents. */
  datatype Order = Order(total: int, branch: Option<string>, payment: Option<string>)

  datatype Entry = Entry(key: string, value: int)

  function KeyOf(x: Option<string>): string {
    if x.Some? then x.value else "unknown"
  }

  function BranchKey(o: Order): string {
    KeyOf(o.branch)
  }

  function MethodKey(o: Order): string {
    KeyOf(o.payment) + ":" + KeyOf(o.branch)
  }

  // ----- the map -----

  function Lookup(entries: seq<Entry>, key: string): int {
    if entries == [] then 0
    else if entries[|entries| - 1].key == key then entries[|entries| - 1].value
    else Lookup(entries[..|entries| - 1], key)
  }

  ghost predicate Distinct(entries: seq<Entry>) {
    forall i, j :: 0 <= i < j < |entries| ==> entries[i].key != entries[j].key
  }

  /** The families of segments: all branches, and the payment methods of one branch. */
  datatype Family = Branches | MethodsOf(branch: string)

  predicate Member(f: Family, key: string) {
    match f
    case Branches => NoColon(key)
    case MethodsOf(branch) => OfBranch(key, branch)
  }

  /** The method keys of one branch: those that end with a colon and its key. */
  predicate OfBranch(key: string, branch: string) {
    |key| > |branch| && key[|key| - |branch| - 1] == ':' && key[|key| - |branch|..] == branch
  }

  function SumOf(entries: seq<Entry>, f: Family): int {
    if entries == [] then 0
    else
      var last := entries[|entries| - 1];
      SumOf(entries[..|entries| - 1], f) + (if Member(f, last.key) then last.value else 0)
  }

  /** The order was placed at the branch; orders without one count as "unknown". */
  predicate PlacedAt(o: Order, branch: string) {
    o.branch == Some(branch) || (o.branch == None && branch == "unknown")
  }

  predicate PaidBy(o: Order, payment: string) {
    o.payment == Some(payment) || (o.payment == None && payment == "unknown")
  }

  /** The revenue of the orders that were placed at a branch and paid by a method. */
  function MethodRevenue(orders: seq<Order>, payment: string, branch: string): int {
    if orders == [] then 0
    else
      var o := orders[|orders| - 1];
      MethodRevenue(orders[..|orders| - 1], payment, branch)
      + (if PaidBy(o, payment) && PlacedAt(o, branch) then o.total else 0)
  }

  function Joined(payment: string, branch: string): string {
    payment + ":" + branch
  }

  /** The revenue of all orders, or of those of one branch. */
  function Revenue(orders: seq<Order>, branch: Option<string>): int {
    if orders == [] then 0
    else
      var o := orders[|orders| - 1];
      Revenue(orders[..|orders| - 1], branch) + (if branch.None? || PlacedAt(o, branch.value) then o.total else 0)
  }

  /** `get` with a default of zero, add, `set`. */
  method Add(entries: seq<Entry>, key: string, amount: int) returns (r: seq<Entry>)
    requires Distinct(entries)
    ensures Distinct(r)
    ensures forall f :: SumOf(r, f) == SumOf(entries, f) + (if Member(f, key) then amount else 0)
    ensures forall k :: Lookup(r, k) == Lookup(entries, k) + (if k == key then amount else 0)
  {
    hide Member;
    for i := 0 to |entries|
      invariant forall j :: 0 <= j < i ==> entries[j].key != key
    {
      if entries[i].key == key {
        r := entries[i := Entry(key, entries[i].value + amount)];
        forall f ensures SumOf(r, f) == SumOf(entries, f) + (if Member(f, key) then amount else 0) {
          SumUpdated(entries, i, amount, f);
        }
        forall k ensures Lookup(r, k) == Lookup(entries, k) + (if k == key then amount else 0) {
          LookupUpdated(entries, i, amount, k);
        }
        return;
      }
    }
    r := entries + [Entry(key, amount)];
    assert r[..|entries|] == entries;
    LookupMissing(entries, key);
  }

  lemma {:induction false} SumUpdated(entries: seq<Entry>, i: nat, amount: int, f: Family)
    requires i < |entries|
    ensures SumOf(entries[i := Entry(entries[i].key, entries[i].value + amount)], f) ==
            SumOf(entries, f) + (if Member(f, entries[i].key) then amount else 0)
  {
    hide Member;
    var r, n := entries[i := Entry(entries[i].key, entries[i].value + amount)], |entries| - 1;
    if i == n {
      assert r[..n] == entries[..n];
    } else {
      SumUpdated(entries[..n], i, amount, f);
      assert r[..n] == entries[..n][i := Entry(entries[i].key, entries[i].value + amount)];
    }
  }

  lemma {:induction false} LookupUpdated(entries: seq<Entry>, i: nat, amount: int, k: string)
    requires i < |entries| && Distinct(entries)
    ensures Lookup(entries[i := Entry(entries[i].key, entries[i].value + amount)], k) ==
            Lookup(entries, k) + (if k == entries[i].key then amount else 0)
  {
    var r, n := entries[i := Entry(entries[i].key, entries[i].value + amount)], |entries| - 1;
    if i == n {
      assert r[..n] == entries[..n];
    } else {
      LookupUpdated(entries[..n], i, amount, k);
      assert r[..n] == entries[..n][i := Entry(entries[i].key, entries[i].value + amount)];
    }
  }

  lemma {:induction false} LookupMissing(entries: seq<Entry>, key: string)
    requires forall j :: 0 <= j < |entries| ==> entries[j].key != key
    ensures Lookup(entries, key) == 0
  {
    if entries != [] {
      LookupMissing(entries[..|entries| - 1], key);
    }
  }

  // ----- the two families of keys -----

  /** Branch keys have no colon and method keys have one, so no entry serves both. */
  lemma FamiliesApart(o: Order, p: Order)
    requires NoColon(BranchKey(o))
    ensures BranchKey(o) != MethodKey(p)
  {
    var m := KeyOf(p.payment);
    assert MethodKey(p)[|m|] == ':';
  }

  lemma MethodKeyBranch(o: Order, branch: string)
    requires NoColon(BranchKey(o)) && NoColon(branch)
    ensures OfBranch(MethodKey(o), branch) <==> BranchKey(o) == branch
    ensures !OfBranch(BranchKey(o), branch)
  {
    var m, b := KeyOf(o.payment), BranchKey(o);
    var key := MethodKey(o);
    assert key[|m|] == ':' && key[|m| + 1..] == b && forall i :: |m| < i < |key| ==> key[i] == b[i - |m| - 1];
    if OfBranch(key, branch) {
      assert forall i :: |key| - |branch| <= i < |key| ==> key[i] == branch[i - (|key| - |branch|)];
      assert |branch| == |b|;
    }
    if b == branch {
      assert key[|key| - |branch|..] == branch;
    }
  }

  // ----- revenue -----

  /** What the keys of one order belong to. */
  lemma KeysOfOrder(o: Order, f: Family)
    requires NoColon(BranchKey(o)) && (f.MethodsOf? ==> NoColon(f.branch))
    ensures Member(f, BranchKey(o)) <==> f.Branches?
    ensures Member(f, MethodKey(o)) <==> f.MethodsOf? && f.branch == BranchKey(o)
  {
    if f.MethodsOf? {
      MethodKeyBranch(o, f.branch);
    } else {
      assert MethodKey(o)[|KeyOf(o.payment)|] == ':';
    }
  }

  /** The segments account for the orders: in total, by branch, and by payment method within each branch. */
  ghost predicate Balanced(segments: seq<Entry>, orders: seq<Order>) {
    && Distinct(segments)
    && SumOf(segments, Branches) == Revenue(orders, None)
    && (forall b :: NoColon(b) ==> Lookup(segments, b) == Revenue(orders, Some(b)))
    && (forall b :: NoColon(b) ==> SumOf(segments, MethodsOf(b)) == Revenue(orders, Some(b)))
    && (forall m, b :: NoColon(b) ==> Lookup(segments, Joined(m, b)) == MethodRevenue(orders, m, b))
  }

  /** The loop of the revenue metric. */
  method RevenueSegments(orders: seq<Order>) returns (value: int, segments: seq<Entry>)
    requires forall i :: 0 <= i < |orders| ==> NoColon(BranchKey(orders[i]))
    ensures value == Revenue(orders, None) && Balanced(segments, orders)
  {
    hide Member, NoColon, BranchKey, MethodKey, Distinct, Joined, PlacedAt, PaidBy;
    value, segments := 0, [];
    assert Distinct(segments) by { NoneTwice(); }
    for i := 0 to |orders|
      invariant value == Revenue(orders[..i], None) && Balanced(segments, orders[..i])
    {
      var o := orders[i];
      assert orders[..i + 1][..i] == orders[..i];
      FamiliesApart(o, o);
      HasColon(o);
      forall f: Family | f.MethodsOf? ==> NoColon(f.branch)
        ensures (Member(f, BranchKey(o)) <==> f.Branches?)
                && (Member(f, MethodKey(o)) <==> f.MethodsOf? && f.branch == BranchKey(o))
      {
        KeysOfOrder(o, f);
      }
      forall b ensures BranchKey(o) == b <==> PlacedAt(o, b) {
        KeyMeans(o, "", b);
      }
      forall m, b | NoColon(b)
        ensures (MethodKey(o) == Joined(m, b) <==> PaidBy(o, m) && PlacedAt(o, b)) && BranchKey(o) != Joined(m, b)
      {
        JoinedMeans(o, m, b);
      }
      value := value + o.total;
      segments := Add(segments, BranchKey(o), o.total);
      segments := Add(segments, MethodKey(o), o.total);
    }
    assert orders[..|orders|] == orders;
  }

  /** Keys say what they seem to say. */
  lemma KeyMeans(o: Order, m: string, b: string)
    ensures BranchKey(o) == b <==> PlacedAt(o, b)
    ensures KeyOf(o.payment) == m <==> PaidBy(o, m)
  {
  }

  lemma JoinedMeans(o: Order, m: string, b: string)
    requires NoColon(BranchKey(o)) && NoColon(b)
    ensures MethodKey(o) == Joined(m, b) <==> PaidBy(o, m) && PlacedAt(o, b)
    ensures BranchKey(o) != Joined(m, b)
  {
    KeyMeans(o, m, b);
    assert Joined(m, b)[|m|] == ':';
    if MethodKey(o) == Joined(m, b) {
      LastField(KeyOf(o.payment), BranchKey(o), m, b);
    }
  }

  /** Two texts with the same last field after a colon have the same rest. */
  lemma LastField(m: string, b: string, m': string, b': string)
    requires NoColon(b) && NoColon(b') && m + ":" + b == m' + ":" + b'
    ensures m == m' && b == b'
  {
    var x, y := m + ":" + b, m' + ":" + b';
    assert x[|m|] == ':' && forall i :: |m| < i < |x| ==> x[i] == b[i - |m| - 1];
    assert y[|m'|] == ':' && forall i :: |m'| < i < |y| ==> y[i] == b'[i - |m'| - 1];
    assert |m| == |m'|;
    assert x[..|m|] == m && y[..|m'|] == m' && x[|m| + 1..] == b && y[|m'| + 1..] == b';
  }

  lemma NoneTwice()
    ensures Distinct([])
  {
  }

  lemma HasColon(o: Order)
    ensures !NoColon(MethodKey(o))
  {
    assert MethodKey(o)[|KeyOf(o.payment)|] == ':';
  }

  // ----- order counts -----

  datatype Row = Row(branch: Option<string>, status: string)

  function SegmentOf(r: Row): string {
    KeyOf(r.branch) + ":" + r.status
  }

  /** The rows with the same two columns. */
  function CountSame(rows: seq<Row>, row: Row): nat {
    if rows == [] then 0 else CountSame(rows[..|rows| - 1], row) + (if rows[|rows| - 1] == row then 1 else 0)
  }

  /** The rows of one segment. */
  function CountSegment(rows: seq<Row>, segment: string): nat {
    if rows == [] then 0
    else CountSegment(rows[..|rows| - 1], segment) + (if SegmentOf(rows[|rows| - 1]) == segment then 1 else 0)
  }

  /** The entries after the rows of `done`: one for the first row of each segment, counted over all rows. */
  ghost function CountSpec(rows: seq<Row>, done: seq<Row>): seq<Entry> {
    if done == [] then []
    else
      var init, row := done[..|done| - 1], done[|done| - 1];
      CountSpec(rows, init) + (if Seen(init, SegmentOf(row)) then [] else [Entry(SegmentOf(row), CountSame(rows, row))])
  }

  ghost predicate Seen(rows: seq<Row>, segment: string) {
    exists i :: 0 <= i < |rows| && SegmentOf(rows[i]) == segment
  }

  /** The loop of the order-count metric, with its set of segments seen. */
  method CountSegments(rows: seq<Row>) returns (segments: seq<Entry>)
    ensures segments == CountSpec(rows, rows)
    ensures KeysFaithful(rows) <==> IsHistogram(segments, rows)
  {
    hide SegmentOf;
    segments := [];
    var seen: set<string> := {};
    for i := 0 to |rows|
      invariant segments == CountSpec(rows, rows[..i])
      invariant forall k :: k in seen <==> Seen(rows[..i], k)
    {
      var row := rows[i];
      assert rows[..i + 1][..i] == rows[..i];
      SeenSnoc(rows[..i], row);
      assert rows[..i + 1] == rows[..i] + [row];
      if SegmentOf(row) !in seen {
        seen := seen + {SegmentOf(row)};
        segments := segments + [Entry(SegmentOf(row), CountSame(rows, row))];
      }
    }
    assert rows[..|rows|] == rows;
    HistogramExactly(rows);
  }

  lemma SeenSnoc(rows: seq<Row>, row: Row)
    ensures forall k :: Seen(rows + [row], k) <==> Seen(rows, k) || k == SegmentOf(row)
  {
    hide SegmentOf;
    forall k ensures Seen(rows + [row], k) <==> Seen(rows, k) || k == SegmentOf(row) {
      assert (rows + [row])[|rows|] == row;
      if Seen(rows, k) {
        var i :| 0 <= i < |rows| && SegmentOf(rows[i]) == k;
        assert (rows + [row])[i] == rows[i];
      }
    }
  }

  /** Every segment that occurs has one entry, and it counts the rows of that segment. */
  ghost predicate IsHistogram(segments: seq<Entry>, rows: seq<Row>) {
    && Distinct(segments)
    && Covers(segments, rows)
    && (forall i :: 0 <= i < |segments| ==> segments[i].value == CountSegment(rows, segments[i].key))
  }

  /** Rows with the same segment agree in both columns. */
  ghost predicate KeysFaithful(rows: seq<Row>) {
    forall i, j :: 0 <= i < |rows| && 0 <= j < |rows| && SegmentOf(rows[i]) == SegmentOf(rows[j]) ==> rows[i] == rows[j]
  }

  /** Every entry is that of some row, counted over all rows. */
  ghost predicate FromRows(es: seq<Entry>, rows: seq<Row>, done: seq<Row>) {
    forall i :: 0 <= i < |es| ==>
      exists j :: 0 <= j < |done| && es[i] == Entry(SegmentOf(done[j]), CountSame(rows, done[j]))
  }

  /** Every segment has an entry. */
  ghost predicate Covers(es: seq<Entry>, done: seq<Row>) {
    forall j :: 0 <= j < |done| ==> HasEntry(es, SegmentOf(done[j]))
  }

  ghost predicate HasEntry(es: seq<Entry>, segment: string) {
    exists i :: 0 <= i < |es| && es[i].key == segment
  }

  lemma EntryStays(es: seq<Entry>, more: seq<Entry>, segment: string)
    requires HasEntry(es, segment) && es <= more
    ensures HasEntry(more, segment)
  {
    var i :| 0 <= i < |es| && es[i].key == segment;
    assert more[i].key == segment;
  }

  lemma {:induction false} SpecFromRows(rows: seq<Row>, done: seq<Row>)
    ensures FromRows(CountSpec(rows, done), rows, done)
  {
    if done != [] {
      hide SegmentOf, CountSame;
      var n := |done| - 1;
      SpecFromRows(rows, done[..n]);
      var es, es' := CountSpec(rows, done[..n]), CountSpec(rows, done);
      forall i | 0 <= i < |es'|
        ensures exists j :: 0 <= j < |done| && es'[i] == Entry(SegmentOf(done[j]), CountSame(rows, done[j]))
      {
        if i < |es| {
          var j :| 0 <= j < n && es[i] == Entry(SegmentOf(done[..n][j]), CountSame(rows, done[..n][j]));
          assert done[j] == done[..n][j];
        } else {
          assert es'[i] == Entry(SegmentOf(done[n]), CountSame(rows, done[n]));
        }
      }
    }
  }

  lemma {:induction false} SpecCovers(rows: seq<Row>, done: seq<Row>)
    ensures Covers(CountSpec(rows, done), done)
  {
    if done != [] {
      hide SegmentOf, CountSame;
      var n := |done| - 1;
      SpecCovers(rows, done[..n]);
      var es, es' := CountSpec(rows, done[..n]), CountSpec(rows, done);
      assert es <= es' && (Seen(done[..n], SegmentOf(done[n])) || es'[|es|].key == SegmentOf(done[n]));
      hide CountSpec;
      forall j | 0 <= j < |done| ensures HasEntry(es', SegmentOf(done[j])) {
        if j < n {
          assert done[..n][j] == done[j];
          EntryStays(es, es', SegmentOf(done[j]));
        } else if Seen(done[..n], SegmentOf(done[n])) {
          var k :| 0 <= k < n && SegmentOf(done[..n][k]) == SegmentOf(done[n]);
          EntryStays(es, es', SegmentOf(done[..n][k]));
        }
      }
    }
  }

  lemma {:induction false} SpecDistinct(rows: seq<Row>, done: seq<Row>)
    ensures Distinct(CountSpec(rows, done))
  {
    if done != [] {
      hide SegmentOf, CountSame;
      var n := |done| - 1;
      SpecDistinct(rows, done[..n]);
      SpecFromRows(rows, done[..n]);
      var es := CountSpec(rows, done[..n]);
      if !Seen(done[..n], SegmentOf(done[n])) {
        forall i | 0 <= i < |es| ensures es[i].key != SegmentOf(done[n]) {
          var j :| 0 <= j < n && es[i] == Entry(SegmentOf(done[..n][j]), CountSame(rows, done[..n][j]));
        }
      }
    }
  }

  /** All rows of the row's segment are equal to it. */
  ghost predicate Alike(rows: seq<Row>, row: Row) {
    forall i :: 0 <= i < |rows| && SegmentOf(rows[i]) == SegmentOf(row) ==> rows[i] == row
  }

  /** Counting equal rows gives at most the segment, and the whole segment exactly if all its rows are equal. */
  lemma {:induction false} CountCompare(rows: seq<Row>, row: Row)
    ensures CountSame(rows, row) <= CountSegment(rows, SegmentOf(row))
    ensures CountSame(rows, row) == CountSegment(rows, SegmentOf(row)) <==> Alike(rows, row)
  {
    if rows != [] {
      hide SegmentOf;
      var n := |rows| - 1;
      CountCompare(rows[..n], row);
      assert forall i :: 0 <= i < n ==> rows[..n][i] == rows[i];
    }
  }

  /** Exactly when the segments are the histogram of the rows. */
  lemma HistogramExactly(rows: seq<Row>)
    ensures KeysFaithful(rows) <==> IsHistogram(CountSpec(rows, rows), rows)
  {
    hide SegmentOf, CountSpec, CountSame, CountSegment, Distinct;
    var es := CountSpec(rows, rows);
    SpecDistinct(rows, rows);
    SpecCovers(rows, rows);
    SpecFromRows(rows, rows);
    if KeysFaithful(rows) {
      forall i | 0 <= i < |es| ensures es[i].value == CountSegment(rows, es[i].key) {
        var j :| 0 <= j < |rows| && es[i] == Entry(SegmentOf(rows[j]), CountSame(rows, rows[j]));
        CountCompare(rows, rows[j]);
      }
    }
    if IsHistogram(es, rows) {
      FaithfulIfCounted(rows, es);
    }
  }

  lemma EntryOf(es: seq<Entry>, rows: seq<Row>, a: nat) returns (i: nat)
    requires Covers(es, rows) && a < |rows|
    ensures i < |es| && es[i].key == SegmentOf(rows[a])
  {
    assert HasEntry(es, SegmentOf(rows[a]));
    i :| 0 <= i < |es| && es[i].key == SegmentOf(rows[a]);
  }

  /** The row whose count is the entry of a segment: all rows of the segment are like it. */
  lemma CountedRow(rows: seq<Row>, es: seq<Entry>, a: nat) returns (row: Row)
    requires IsHistogram(es, rows) && FromRows(es, rows, rows) && a < |rows|
    ensures SegmentOf(rows[a]) == SegmentOf(row) && Alike(rows, row)
  {
    hide SegmentOf, CountSame, CountSegment, Distinct, Alike, Covers;
    var i := EntryOf(es, rows, a);
    var j :| 0 <= j < |rows| && es[i] == Entry(SegmentOf(rows[j]), CountSame(rows, rows[j]));
    CountCompare(rows, rows[j]);
    row := rows[j];
  }

  lemma FaithfulIfCounted(rows: seq<Row>, es: seq<Entry>)
    requires IsHistogram(es, rows) && FromRows(es, rows, rows)
    ensures KeysFaithful(rows)
  {
    hide SegmentOf, IsHistogram, FromRows;
    forall a, b | 0 <= a < |rows| && 0 <= b < |rows| && SegmentOf(rows[a]) == SegmentOf(rows[b])
      ensures rows[a] == rows[b]
    {
      var row := CountedRow(rows, es, a);
    }
  }

  /** A branch called "unknown" and no branch at all fall into one segment, and one of the two rows is not counted. */
  lemma UnknownBranchMiscounts()
    ensures !IsHistogram(CountSpec([Row(None, "OPEN"), Row(Some("unknown"), "OPEN")],
                                   [Row(None, "OPEN"), Row(Some("unknown"), "OPEN")]),
                         [Row(None, "OPEN"), Row(Some("unknown"), "OPEN")])
  {
    hide CountSpec, IsHistogram;
    var rows := [Row(None, "OPEN"), Row(Some("unknown"), "OPEN")];
    assert SegmentOf(rows[0]) == SegmentOf(rows[1]) && rows[0] != rows[1];
    HistogramExactly(rows);
  }

  /** UUIDs are never the word "unknown" and neither they nor statuses contain a colon: then keys are faithful. */
  lemma UuidsAreFaithful(rows: seq<Row>)
    requires forall i :: 0 <= i < |rows| ==>
             && NoColon(rows[i].status)
             && (rows[i].branch.Some? ==> rows[i].branch.value != "unknown" && NoColon(rows[i].branch.value))
    ensures KeysFaithful(rows)
  {
    forall i, j | 0 <= i < |rows| && 0 <= j < |rows| && SegmentOf(rows[i]) == SegmentOf(rows[j])
      ensures rows[i] == rows[j]
    {
      FirstField(KeyOf(rows[i].branch), rows[i].status, KeyOf(rows[j].branch), rows[j].status);
    }
  }
}
