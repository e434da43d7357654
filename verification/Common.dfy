/** What the modules share. */
module Common {
  datatype Option<+T> = None | Some(value: T)

  type AccountId = nat

  const HUNDRED_PERCENT: nat := 10000

  /** In a total order some entry comes before all others. */
  lemma {:induction false} FirstExists<K(!new)>(c: set<K>, before: (K, K) -> bool) returns (i: K)
    requires c != {}
    requires forall i, j :: i in c && j in c ==> before(i, j) || before(j, i)
    requires forall i, j, k :: i in c && j in c && k in c && before(i, j) && before(j, k) ==> before(i, k)
    ensures i in c && forall j :: j in c ==> before(i, j)
  {
    var x :| x in c;
    if c == {x} {
      i := x;
    } else {
      assert c == {x} + (c - {x});
      i := FirstExists(c - {x}, before);
      if before(x, i) {
        i := x;
      }
    }
  }
}
