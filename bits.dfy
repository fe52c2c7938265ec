/**
 * Bitwise operations on non-negative integers, defined one bit at a time.
 * They are the reference meaning of JavaScript's `&`, `|` and `~ ... & mask`
 * on the small non-negative numbers the virtual machine stores.
 */
module Bits {

  function Pow2(k: nat): (r: nat)
    ensures r >= 1
  {
    if k == 0 then 1 else 2 * Pow2(k - 1)
  }

  /** Bit i of x, counting from the least significant bit. */
  predicate Bit(x: nat, i: nat) {
    if i == 0 then x % 2 == 1 else Bit(x / 2, i - 1)
  }

  function And(a: nat, b: nat): nat
    decreases a
  {
    if a == 0 || b == 0 then 0
    else 2 * And(a / 2, b / 2) + (if a % 2 == 1 && b % 2 == 1 then 1 else 0)
  }

  function Or(a: nat, b: nat): nat
    decreases a + b
  {
    if a == 0 then b
    else if b == 0 then a
    else 2 * Or(a / 2, b / 2) + (if a % 2 == 1 || b % 2 == 1 then 1 else 0)
  }

  /** The k low bits of x, each flipped; the bits above k are dropped. */
  function Complement(x: nat, k: nat): nat {
    if k == 0 then 0 else 2 * Complement(x / 2, k - 1) + (if x % 2 == 1 then 0 else 1)
  }

  lemma {:induction false} ZeroHasNoBits(i: nat)
    ensures !Bit(0, i)
  {
    if i > 0 {
      ZeroHasNoBits(i - 1);
    }
  }

  /** And sets exactly the bits set in both operands. */
  lemma {:induction false} AndBits(a: nat, b: nat, i: nat)
    ensures Bit(And(a, b), i) == (Bit(a, i) && Bit(b, i))
    decreases a
  {
    if a == 0 || b == 0 {
      ZeroHasNoBits(i);
    } else if i > 0 {
      var lo := if a % 2 == 1 && b % 2 == 1 then 1 else 0;
      assert (2 * And(a / 2, b / 2) + lo) / 2 == And(a / 2, b / 2);
      AndBits(a / 2, b / 2, i - 1);
    }
  }

  /** Or sets exactly the bits set in either operand. */
  lemma {:induction false} OrBits(a: nat, b: nat, i: nat)
    ensures Bit(Or(a, b), i) == (Bit(a, i) || Bit(b, i))
    decreases a + b
  {
    if a == 0 {
      ZeroHasNoBits(i);
    } else if b == 0 {
      ZeroHasNoBits(i);
    } else if i > 0 {
      var lo := if a % 2 == 1 || b % 2 == 1 then 1 else 0;
      assert (2 * Or(a / 2, b / 2) + lo) / 2 == Or(a / 2, b / 2);
      OrBits(a / 2, b / 2, i - 1);
    }
  }

  /** Complement flips exactly the bits below k. */
  lemma {:induction false} ComplementBits(x: nat, k: nat, i: nat)
    ensures Bit(Complement(x, k), i) == (i < k && !Bit(x, i))
  {
    if k == 0 {
      ZeroHasNoBits(i);
    } else if i > 0 {
      var lo := if x % 2 == 1 then 0 else 1;
      assert (2 * Complement(x / 2, k - 1) + lo) / 2 == Complement(x / 2, k - 1);
      ComplementBits(x / 2, k - 1, i - 1);
    }
  }

  lemma {:induction false} AndAtMost(a: nat, b: nat)
    ensures And(a, b) <= a && And(a, b) <= b
    decreases a
  {
    if a != 0 && b != 0 {
      AndAtMost(a / 2, b / 2);
    }
  }

  lemma {:induction false} OrBelow(a: nat, b: nat, k: nat)
    requires a < Pow2(k) && b < Pow2(k)
    ensures Or(a, b) < Pow2(k)
    decreases a + b
  {
    if a != 0 && b != 0 {
      OrBelow(a / 2, b / 2, k - 1);
    }
  }

  lemma {:induction false} ComplementBelow(x: nat, k: nat)
    ensures Complement(x, k) < Pow2(k)
  {
    if k > 0 {
      ComplementBelow(x / 2, k - 1);
    }
  }

  /** On a k-bit value, flipping the k bits is subtraction from 2^k - 1. */
  lemma {:induction false} ComplementValue(x: nat, k: nat)
    requires x < Pow2(k)
    ensures Complement(x, k) == Pow2(k) - 1 - x
  {
    if k > 0 {
      ComplementValue(x / 2, k - 1);
    }
  }

  lemma Pow2Of15()
    ensures Pow2(15) == 32768
  {
    assert Pow2(3) == 8;
    assert Pow2(6) == 64;
    assert Pow2(9) == 512;
    assert Pow2(12) == 4096;
  }
}
