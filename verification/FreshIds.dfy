/** Ids not in use. */
module FreshIds {

  lemma {:induction false} Above(s: set<nat>) returns (bound: nat)
    ensures forall n :: n in s ==> n < bound
    decreases s
  {
    bound := 0;
    if s == {} {
    } else {
      var n :| n in s;
      var rest := Above(s - {n});
      bound := rest + n + 1;
      forall m | m in s ensures m < bound {
        assert m == n || m in s - {n};
      }
    }
  }
}
