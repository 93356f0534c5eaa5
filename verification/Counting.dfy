/** How many numbers there are below a bound. */
module Counting {
  lemma {:induction false} Below(c: nat, ts: set<nat>)
    requires forall t :: t in ts ==> t < c
    ensures |ts| <= c
  {
    if c == 0 {
      assert ts == {};
    } else {
      Below(c - 1, ts - {c - 1});
    }
  }
}
