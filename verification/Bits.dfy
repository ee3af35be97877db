/** Bits of natural numbers: what Python's `^`, `&`, `|` and bin(...).count("1") compute on them. */
module Bits {

  function Pow2(n: nat): (r: nat)
    ensures r > 0
  {
    if n == 0 then 1 else 2 * Pow2(n - 1)
  }

  /** Bit i of x: whether x & (1 << i) is nonzero. */
  predicate Bit(x: nat, i: nat) {
    if i == 0 then x % 2 == 1 else Bit(x / 2, i - 1)
  }

  function Xor(x: nat, y: nat): nat
    decreases x + y
  {
    if x == 0 && y == 0 then 0
    else 2 * Xor(x / 2, y / 2) + (if x % 2 != y % 2 then 1 else 0)
  }

  /** bin(x).count("1"). */
  function PopCount(x: nat): nat {
    if x == 0 then 0 else PopCount(x / 2) + x % 2
  }

  function One(b: bool): nat {
    if b then 1 else 0
  }

  /** How many of the bits 0, ..., n - 1 of x are set. */
  function SetBits(x: nat, n: nat): nat {
    if n == 0 then 0 else SetBits(x, n - 1) + One(Bit(x, n - 1))
  }

  lemma {:induction false} ZeroHasNoBits(i: nat)
    ensures !Bit(0, i)
  {
    if i > 0 {
      ZeroHasNoBits(i - 1);
    }
  }

  lemma {:induction false} XorBit(x: nat, y: nat, i: nat)
    ensures Bit(Xor(x, y), i) <==> (Bit(x, i) != Bit(y, i))
    decreases i
  {
    if x == 0 && y == 0 {
      ZeroHasNoBits(i);
    } else if i > 0 {
      XorBit(x / 2, y / 2, i - 1);
    }
  }

  /** Numbers with the same bits are equal. */
  lemma {:induction false} SameBits(x: nat, y: nat)
    requires forall i: nat :: Bit(x, i) == Bit(y, i)
    ensures x == y
    decreases x + y
  {
    if x != 0 || y != 0 {
      assert Bit(x, 0) == Bit(y, 0);
      forall i: nat ensures Bit(x / 2, i) == Bit(y / 2, i) {
        assert Bit(x, i + 1) == Bit(y, i + 1);
      }
      SameBits(x / 2, y / 2);
    }
  }

  lemma XorInjective(x: nat, y: nat, z: nat)
    requires Xor(x, y) == Xor(x, z)
    ensures y == z
  {
    forall i: nat ensures Bit(y, i) == Bit(z, i) {
      XorBit(x, y, i);
      XorBit(x, z, i);
    }
    SameBits(y, z);
  }

  /** A number below 2^n has no bit from n on. */
  lemma {:induction false} HighBitsClear(x: nat, n: nat, i: nat)
    requires x < Pow2(n) && n <= i
    ensures !Bit(x, i)
    decreases i
  {
    if n == 0 {
      ZeroHasNoBits(i);
    } else {
      HighBitsClear(x / 2, n - 1, i - 1);
    }
  }

  lemma {:induction false} LowBitFirst(x: nat, n: nat)
    ensures SetBits(x, n + 1) == x % 2 + SetBits(x / 2, n)
  {
    if n > 0 {
      LowBitFirst(x, n - 1);
    }
  }

  lemma {:induction false} PopCountIsSetBits(x: nat, n: nat)
    requires x < Pow2(n)
    ensures PopCount(x) == SetBits(x, n)
    decreases n
  {
    if n > 0 {
      LowBitFirst(x, n - 1);
      PopCountIsSetBits(x / 2, n - 1);
    }
  }

  lemma {:induction false} XorBelow(x: nat, y: nat, n: nat)
    requires x < Pow2(n) && y < Pow2(n)
    ensures Xor(x, y) < Pow2(n)
    decreases n
  {
    if n > 0 {
      XorBelow(x / 2, y / 2, n - 1);
    }
  }

  lemma {:induction false} PowersDouble(m: nat, n: nat)
    requires m <= n
    ensures Pow2(m) <= Pow2(n)
  {
    if m < n {
      PowersDouble(m, n - 1);
    }
  }

  lemma {:induction false} PowersAdd(m: nat, n: nat)
    ensures Pow2(m + n) == Pow2(m) * Pow2(n)
  {
    if n > 0 {
      PowersAdd(m, n - 1);
    }
  }

  lemma {:induction false} BoundedByPower(x: nat)
    ensures x < Pow2(x)
  {
    if x > 0 {
      BoundedByPower(x - 1);
    }
  }

  /** Any number is below some power of two. */
  lemma CommonWidth(x: nat, y: nat) returns (n: nat)
    ensures x < Pow2(n) && y < Pow2(n)
  {
    n := x + y;
    BoundedByPower(x);
    BoundedByPower(y);
    PowersDouble(x, n);
    PowersDouble(y, n);
  }

  // ---- Setting bits -----------------------------------------------------------------------------------------

  /** Below bit i, x + 2^i agrees with x; at i it is flipped on; above, nothing was set. */
  lemma {:induction false} AddTopBit(x: nat, i: nat, k: nat)
    requires x < Pow2(i)
    ensures Bit(x + Pow2(i), k) <==> Bit(x, k) || k == i
    decreases i
  {
    if i == 0 {
      if k > 0 {
        assert (x + 1) / 2 == 0;
        ZeroHasNoBits(k - 1);
      }
      HighBitsClear(x, 0, k);
    } else {
      assert (x + Pow2(i)) / 2 == x / 2 + Pow2(i - 1);
      if k > 0 {
        AddTopBit(x / 2, i - 1, k - 1);
      }
    }
  }
}
