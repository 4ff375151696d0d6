/** Strings that are joined with colons. */
module Text {

  predicate NoColon(s: string) {
    ':' !in s
  }

  /** What stands before and after the first colon is recovered from the whole. */
  lemma FirstField(a: string, x: string, b: string, y: string)
    requires NoColon(a) && NoColon(b) && a + ":" + x == b + ":" + y
    ensures a == b && x == y
  {
    var l, r := a + ":" + x, b + ":" + y;
    assert l[|a|] == ':' && r[|b|] == ':';
    assert (forall i :: 0 <= i < |a| ==> l[i] == a[i]) && (forall i :: 0 <= i < |b| ==> r[i] == b[i]);
    assert |a| == |b|;
    assert l[..|a|] == a && r[..|b|] == b && l[|a| + 1..] == x && r[|b| + 1..] == y;
  }
}
