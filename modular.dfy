/** Facts about remainders shared by the index arithmetic of several modules. */
module Modular {

  /** The two remainders a wrap-around step meets: below the modulus, and equal to it. */
  lemma ModFacts(a: nat, n: nat)
    requires n > 0
    ensures a < n ==> a % n == a
    ensures a == n ==> a % n == 0
  {
  }
}
