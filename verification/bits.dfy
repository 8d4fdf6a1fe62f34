/** Bitwise XOR on unbounded naturals, bit by bit from the least
    significant end, and the facts the difficulty test needs about it. */
module Bits {

  /** Bitwise exclusive or. */
  function Xor(a: nat, b: nat): nat
    decreases a + b
  {
    if a == 0 && b == 0 then 0
    else (if a % 2 == b % 2 then 0 else 1) + 2 * Xor(a / 2, b / 2)
  }

  /** XOR with a fixed mask undoes itself. */
  lemma {:induction false} XorInvolutive(a: nat, m: nat)
    ensures Xor(Xor(a, m), m) == a
    decreases a + m
  {
    if a == 0 && m == 0 {
    } else {
      var x := Xor(a, m);
      XorInvolutive(a / 2, m / 2);
      assert x / 2 == Xor(a / 2, m / 2);
      assert x % 2 == (if a % 2 == m % 2 then 0 else 1);
    }
  }
}
