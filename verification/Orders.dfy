/** Sequences in ascending order, and that there is only one for each set. */
module Orders {
  function Members<T>(s: seq<T>): set<T> { set x | x in s }

  predicate Ascending<T>(s: seq<T>, rank: T -> nat) {
    forall i, j :: 0 <= i < j < |s| ==> rank(s[i]) < rank(s[j])
  }

  /** There is only one way to put a set in order. */
  lemma {:induction false} AscendingUnique<T>(a: seq<T>, b: seq<T>, rank: T -> nat)
    requires Ascending(a, rank) && Ascending(b, rank) && Members(a) == Members(b)
    ensures a == b
    decreases |a|
  {
    if a == [] {
      assert forall i :: 0 <= i < |b| ==> b[i] in Members(b);
      assert Members(a) == {};
      assert |b| == 0;
    } else {
      assert a[0] in Members(a);
      var i :| 0 <= i < |b| && b[i] == a[0];
      assert b[0] in Members(b);
      var j :| 0 <= j < |a| && a[j] == b[0];
      assert i == 0;
      assert Members(a[1..]) == Members(a) - {a[0]};
      assert Members(b[1..]) == Members(b) - {b[0]};
      AscendingUnique(a[1..], b[1..], rank);
    }
  }
}
