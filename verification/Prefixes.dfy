/** From one step to whole runs: when a property holds after every step of a run. */
module Prefixes {

  /** A property that each step keeps if the step is fine and breaks if it is not. */
  lemma {:induction false} KeptThroughout(law: nat -> bool, fine: nat -> bool, m: nat)
    requires law(0)
    requires forall n :: 0 <= n < m && law(n) ==> (law(n + 1) <==> fine(n))
    ensures (forall n :: 0 <= n <= m ==> law(n)) <==> (forall n :: 0 <= n < m ==> fine(n))
  {
    if m == 0 {
    } else {
      KeptThroughout(law, fine, m - 1);
      if forall n :: 0 <= n <= m - 1 ==> law(n) {
        assert law(m - 1) && (law(m - 1 + 1) <==> fine(m - 1));
      }
    }
  }
}
