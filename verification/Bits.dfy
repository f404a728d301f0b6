/** Unsigned machine words as natural numbers: the bit operators the kernel uses
    on its masks, and what they do bit by bit and arithmetically. */
module Bits {
  import Numbers

  function Pow2(k: nat): (r: nat)
    ensures r > 0
  {
    if k == 0 then 1 else 2 * Pow2(k - 1)
  }

  /** Bit k of x. */
  predicate Bit(x: nat, k: nat)
    decreases k
  {
    if k == 0 then x % 2 == 1 else Bit(x / 2, k - 1)
  }

  /** x & y */
  function And(x: nat, y: nat): nat
  {
    if x == 0 || y == 0 then 0 else (if x % 2 == 1 && y % 2 == 1 then 1 else 0) + 2 * And(x / 2, y / 2)
  }

  /** x | y */
  function Or(x: nat, y: nat): nat
  {
    if x == 0 then y else if y == 0 then x
    else (if x % 2 == 1 || y % 2 == 1 then 1 else 0) + 2 * Or(x / 2, y / 2)
  }

  /** ~x on a word of w bits */
  function Not(w: nat, x: nat): nat
  {
    if w == 0 then 0 else (if x % 2 == 1 then 0 else 1) + 2 * Not(w - 1, x / 2)
  }

  /** std::countr_zero */
  function CountTrailingZeros(x: nat): nat
    requires x > 0
  {
    if x % 2 == 1 then 0 else 1 + CountTrailingZeros(x / 2)
  }

  lemma {:induction false} NoBits(k: nat)
    ensures !Bit(0, k)
  {
    if k > 0 { NoBits(k - 1); }
  }

  lemma AndHalves(x: nat, y: nat)
    ensures And(x, y) / 2 == And(x / 2, y / 2)
    ensures And(x, y) % 2 == 1 <==> x % 2 == 1 && y % 2 == 1
  {}

  lemma OrHalves(x: nat, y: nat)
    ensures Or(x, y) / 2 == Or(x / 2, y / 2)
    ensures Or(x, y) % 2 == 1 <==> x % 2 == 1 || y % 2 == 1
  {}

  lemma {:induction false} BitAnd(x: nat, y: nat, k: nat)
    ensures Bit(And(x, y), k) <==> Bit(x, k) && Bit(y, k)
    decreases k
  {
    AndHalves(x, y);
    if k > 0 {
      BitAnd(x / 2, y / 2, k - 1);
    }
  }

  lemma {:induction false} BitOr(x: nat, y: nat, k: nat)
    ensures Bit(Or(x, y), k) <==> Bit(x, k) || Bit(y, k)
    decreases k
  {
    OrHalves(x, y);
    if k > 0 {
      BitOr(x / 2, y / 2, k - 1);
    }
  }

  lemma {:induction false} BitNot(w: nat, x: nat, k: nat)
    ensures Bit(Not(w, x), k) <==> k < w && !Bit(x, k)
    decreases k
  {
    if w == 0 {
      NoBits(k);
    } else if k > 0 {
      assert Not(w, x) / 2 == Not(w - 1, x / 2);
      BitNot(w - 1, x / 2, k - 1);
    }
  }

  lemma {:induction false} BitPow2(j: nat, k: nat)
    ensures Bit(Pow2(j), k) <==> j == k
    decreases k
  {
    if j == 0 {
      if k > 0 { NoBits(k - 1); }
    } else if k > 0 {
      assert Pow2(j) / 2 == Pow2(j - 1);
      BitPow2(j - 1, k - 1);
    }
  }

  /** The lowest set bit. */
  lemma {:induction false} LowestBit(x: nat)
    requires x > 0
    ensures Bit(x, CountTrailingZeros(x))
    ensures forall k: nat :: k < CountTrailingZeros(x) ==> !Bit(x, k)
  {
    if x % 2 == 0 {
      LowestBit(x / 2);
      forall k: nat | k < CountTrailingZeros(x)
        ensures !Bit(x, k)
      {
        if k > 0 { assert !Bit(x / 2, k - 1); }
      }
    }
  }

  /** A word of w bits has no bit at or above w. */
  lemma {:induction false} HighBits(x: nat, w: nat, k: nat)
    requires x < Pow2(w) && w <= k
    ensures !Bit(x, k)
    decreases k
  {
    if w == 0 {
      NoBits(k);
    } else {
      HighBits(x / 2, w - 1, k - 1);
    }
  }

  lemma {:induction false} AndBound(x: nat, y: nat)
    ensures And(x, y) <= x && And(x, y) <= y
  {
    if x > 0 && y > 0 { AndBound(x / 2, y / 2); }
  }

  lemma {:induction false} OrBound(x: nat, y: nat, w: nat)
    requires x < Pow2(w) && y < Pow2(w)
    ensures Or(x, y) < Pow2(w)
  {
    if x > 0 && y > 0 { OrBound(x / 2, y / 2, w - 1); }
  }

  lemma {:induction false} Pow2Monotone(j: nat, k: nat)
    requires j <= k
    ensures Pow2(j) <= Pow2(k)
    ensures j < k ==> Pow2(j) < Pow2(k)
    decreases k
  {
    if j < k { Pow2Monotone(j, k - 1); }
  }

  /** Words with the same bits are the same word. */
  lemma {:induction false} SameBits(x: nat, y: nat)
    requires forall k: nat :: Bit(x, k) <==> Bit(y, k)
    ensures x == y
    decreases x + y
  {
    assert x % 2 == y % 2 by { assert Bit(x, 0) <==> Bit(y, 0); }
    if x > 0 || y > 0 {
      forall k: nat
        ensures Bit(x / 2, k) <==> Bit(y / 2, k)
      {
        assert Bit(x, k + 1) <==> Bit(y, k + 1);
      }
      SameBits(x / 2, y / 2);
    }
  }

  /** Setting a bit: x | 1 << j. */
  lemma SetBit(x: nat, j: nat, k: nat)
    ensures Bit(Or(x, Pow2(j)), k) <==> Bit(x, k) || k == j
  {
    BitOr(x, Pow2(j), k);
    BitPow2(j, k);
  }

  /** Clearing a bit of a w-bit word: x & ~(1 << j). */
  lemma ClearBit(w: nat, x: nat, j: nat, k: nat)
    requires x < Pow2(w)
    ensures Bit(And(x, Not(w, Pow2(j))), k) <==> Bit(x, k) && k != j
  {
    BitAnd(x, Not(w, Pow2(j)), k);
    BitNot(w, Pow2(j), k);
    BitPow2(j, k);
    if k >= w { HighBits(x, w, k); }
  }

  lemma HalfRemainder(x: nat, m: nat)
    requires m > 0
    ensures x % (2 * m) == 2 * ((x / 2) % m) + x % 2
  {
    var h := x / 2;
    var q, r := h / m, h % m;
    assert h == m * q + r;
    assert x == 2 * (m * q) + (2 * r + x % 2);
    assert 2 * (m * q) == (2 * m) * q;
    Numbers.DivUnique(x, 2 * m, q, 2 * r + x % 2);
  }

  lemma AndEven(x: nat, y: nat)
    ensures And(x, 2 * y) == 2 * And(x / 2, y)
  {}

  lemma AndOdd(x: nat, y: nat)
    ensures And(x, 2 * y + 1) == x % 2 + 2 * And(x / 2, y)
  {}

  /** x & (2^k - 1) == x % 2^k: how the ring maps a position to a cell. */
  lemma {:induction false} MaskIsRemainder(x: nat, k: nat)
    ensures And(x, Pow2(k) - 1) == x % Pow2(k)
    decreases k
  {
    if k > 0 {
      var m := Pow2(k - 1);
      assert Pow2(k) == 2 * m && Pow2(k) - 1 == 2 * (m - 1) + 1;
      hide And, Pow2;
      MaskIsRemainder(x / 2, k - 1);
      AndOdd(x, m - 1);
      HalfRemainder(x, m);
    }
  }

  /** x & ~(2^k - 1), on a word of w bits, rounds x down to a multiple of 2^k. */
  lemma {:induction false} MaskRoundsDown(w: nat, x: nat, k: nat)
    requires x < Pow2(w) && k <= w
    ensures And(x, Not(w, Pow2(k) - 1)) == x - x % Pow2(k)
    decreases k
  {
    if k == 0 {
      NotZero(w, x);
    } else {
      var m := Pow2(k - 1);
      var h := Not(w - 1, m - 1);
      MaskRoundsDown(w - 1, x / 2, k - 1);
      assert And(x / 2, h) == x / 2 - (x / 2) % m;
      assert Not(w, Pow2(k) - 1) == 2 * h by { NotOdd(w, m - 1); }
      assert And(x, 2 * h) == 2 * And(x / 2, h) by { AndEven(x, h); }
      assert x - x % (2 * m) == 2 * (x / 2 - (x / 2) % m) by { HalfRemainder(x, m); }
    }
  }

  lemma NotOdd(w: nat, y: nat)
    requires w > 0
    ensures Not(w, 2 * y + 1) == 2 * Not(w - 1, y)
  {
    var x := 2 * y + 1;
    assert x % 2 == 1 && x / 2 == y;
  }

  lemma {:induction false} NotZero(w: nat, x: nat)
    requires x < Pow2(w)
    ensures And(x, Not(w, 0)) == x
    decreases w
  {
    if x > 0 { NotZero(w - 1, x / 2); }
  }
}
