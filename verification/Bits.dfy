/** Bitwise operators on unsigned numbers of a given width, bit by bit from the lowest. */
module Bits {

  function Power(width: nat): (p: nat)
    ensures p > 0
  {
    if width == 0 then 1 else 2 * Power(width - 1)
  }

  function Or(a: nat, b: nat, width: nat): nat {
    if width == 0 then 0
    else (if a % 2 == 1 || b % 2 == 1 then 1 else 0) + 2 * Or(a / 2, b / 2, width - 1)
  }

  function Xor(a: nat, b: nat, width: nat): (x: nat)
    ensures x < Power(width)
  {
    if width == 0 then 0
    else (if a % 2 != b % 2 then 1 else 0) + 2 * Xor(a / 2, b / 2, width - 1)
  }

  lemma {:induction false} OrZero(a: nat, width: nat)
    requires a < Power(width)
    ensures Or(a, 0, width) == a
  {
    if width > 0 {
      OrZero(a / 2, width - 1);
    }
  }

  lemma XorSplits(a: nat, b: nat, width: nat)
    requires width > 0
    ensures var x := Xor(a, b, width);
            x % 2 == (if a % 2 != b % 2 then 1 else 0) && x / 2 == Xor(a / 2, b / 2, width - 1)
  {
  }

  /** Combining twice with the same number restores the first. */
  lemma {:induction false} XorTwice(a: nat, k: nat, width: nat)
    requires a < Power(width)
    ensures Xor(Xor(a, k, width), k, width) == a
  {
    if width > 0 {
      XorSplits(a, k, width);
      XorTwice(a / 2, k / 2, width - 1);
    }
  }

  lemma {:induction false} XorSwap(a: nat, k: nat, p: nat, width: nat)
    ensures Xor(Xor(a, k, width), p, width) == Xor(Xor(a, p, width), k, width)
  {
    if width > 0 {
      XorSplits(a, k, width);
      XorSplits(a, p, width);
      XorSwap(a / 2, k / 2, p / 2, width - 1);
    }
  }

  /** Bit i of a number, the lowest being bit 0. */
  function Bit(a: nat, i: nat): (b: nat)
    ensures b < 2
  {
    if i == 0 then a % 2 else Bit(a / 2, i - 1)
  }

  /** A bit of the exclusive or is on exactly if the two bits differ. */
  lemma {:induction false} XorBit(a: nat, b: nat, width: nat, i: nat)
    requires i < width
    ensures Bit(Xor(a, b, width), i) == (Bit(a, i) + Bit(b, i)) % 2
  {
    XorSplits(a, b, width);
    if i > 0 {
      XorBit(a / 2, b / 2, width - 1, i - 1);
    }
  }

  /** Its bits determine a number. */
  lemma {:induction false} SameBits(a: nat, b: nat, width: nat)
    requires a < Power(width) && b < Power(width)
    requires forall i: nat :: i < width ==> Bit(a, i) == Bit(b, i)
    ensures a == b
  {
    if width > 0 {
      forall i: nat | i < width - 1 ensures Bit(a / 2, i) == Bit(b / 2, i) {
        assert Bit(a, i + 1) == Bit(b, i + 1);
      }
      SameBits(a / 2, b / 2, width - 1);
      assert Bit(a, 0) == Bit(b, 0);
    }
  }
}
