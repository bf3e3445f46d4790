/**
 Python's arbitrary-precision integers seen as infinite two's-complement bit
 strings: the bit test and the operators `~`, `&` and `|` that the switch
 entity applies to the device's state word.

 Every definition works on unbounded `int`, negative values included. Dafny's
 `/` and `%` by 2 round towards minus infinity for every `int`, which is
 exactly the arithmetic shift Python uses for `>>`, so `x / 2` drops bit 0
 of `x` and `x % 2` is bit 0 of `x`.
 */
module PyBits {

  /** 2 to the power `k`; `Pow2(0) == 0x01` and `Pow2(1) == 0x02` are the two channel masks. */
  function Pow2(k: nat): (r: nat)
    ensures r >= 1
  {
    if k == 0 then 1 else 2 * Pow2(k - 1)
  }

  function Abs(x: int): nat
  {
    if x < 0 then -x else x
  }

  /** The two words whose bits are all equal: 0 (all clear) and -1 (all set). */
  predicate IsSign(x: int)
  {
    x == 0 || x == -1
  }

  /** Bit `k` of `x`, as `(x >> k) & 1 == 1` in Python. */
  predicate Bit(x: int, k: nat)
    decreases k
  {
    if k == 0 then x % 2 == 1 else Bit(x / 2, k - 1)
  }

  /** Python's `~x`. */
  function Not(x: int): int
  {
    -x - 1
  }

  /** Python's `x & y`. */
  function And(x: int, y: int): int
    decreases Abs(x) + Abs(y)
  {
    if IsSign(x) && IsSign(y) then
      (if x == -1 && y == -1 then -1 else 0)
    else
      HalfShrinks(x);
      HalfShrinks(y);
      2 * And(x / 2, y / 2) + (if x % 2 == 1 && y % 2 == 1 then 1 else 0)
  }

  /** Python's `x | y`. */
  function Or(x: int, y: int): int
    decreases Abs(x) + Abs(y)
  {
    if IsSign(x) && IsSign(y) then
      (if x == -1 || y == -1 then -1 else 0)
    else
      HalfShrinks(x);
      HalfShrinks(y);
      2 * Or(x / 2, y / 2) + (if x % 2 == 1 || y % 2 == 1 then 1 else 0)
  }

  /** Dropping bit 0 never moves a word away from zero, and moves every
      word other than 0 and -1 strictly closer to it. */
  lemma HalfShrinks(x: int)
    ensures Abs(x / 2) <= Abs(x)
    ensures !IsSign(x) ==> Abs(x / 2) < Abs(x)
  {
    assert x == 2 * (x / 2) + x % 2;
  }

  /** Appending bit `b` below `r` and dropping it again gives back `r` and `b`. */
  lemma Halve(r: int, b: int)
    requires 0 <= b <= 1
    ensures (2 * r + b) / 2 == r
    ensures (2 * r + b) % 2 == b
  {
  }

  /** Every bit of 0 is clear and every bit of -1 is set. */
  lemma {:induction false} BitSign(x: int, k: nat)
    requires IsSign(x)
    ensures Bit(x, k) == (x == -1)
    decreases k
  {
    if k > 0 {
      assert x / 2 == x;
      BitSign(x / 2, k - 1);
    }
  }

  /** Bit `k` of `~x` is the complement of bit `k` of `x`. */
  lemma {:induction false} BitNot(x: int, k: nat)
    ensures Bit(Not(x), k) == !Bit(x, k)
    decreases k
  {
    var q, b := x / 2, x % 2;
    assert x == 2 * q + b;
    assert Not(x) == 2 * Not(q) + (1 - b);
    Halve(Not(q), 1 - b);
    if k > 0 {
      BitNot(q, k - 1);
    }
  }

  /** Bit `k` of `x & y` is set exactly when it is set in both operands. */
  lemma {:induction false} BitAnd(x: int, y: int, k: nat)
    ensures Bit(And(x, y), k) == (Bit(x, k) && Bit(y, k))
    decreases Abs(x) + Abs(y)
  {
    if IsSign(x) && IsSign(y) {
      BitSign(x, k);
      BitSign(y, k);
      BitSign(And(x, y), k);
    } else {
      HalfShrinks(x);
      HalfShrinks(y);
      var b := if x % 2 == 1 && y % 2 == 1 then 1 else 0;
      Halve(And(x / 2, y / 2), b);
      if k > 0 {
        BitAnd(x / 2, y / 2, k - 1);
      }
    }
  }

  /** Bit `k` of `x | y` is set exactly when it is set in either operand. */
  lemma {:induction false} BitOr(x: int, y: int, k: nat)
    ensures Bit(Or(x, y), k) == (Bit(x, k) || Bit(y, k))
    decreases Abs(x) + Abs(y)
  {
    if IsSign(x) && IsSign(y) {
      BitSign(x, k);
      BitSign(y, k);
      BitSign(Or(x, y), k);
    } else {
      HalfShrinks(x);
      HalfShrinks(y);
      var b := if x % 2 == 1 || y % 2 == 1 then 1 else 0;
      Halve(Or(x / 2, y / 2), b);
      if k > 0 {
        BitOr(x / 2, y / 2, k - 1);
      }
    }
  }

  /** `Pow2(j)` has bit `j` set and no other. */
  lemma {:induction false} BitPow2(j: nat, k: nat)
    ensures Bit(Pow2(j), k) == (j == k)
    decreases j
  {
    if j == 0 {
      if k > 0 {
        assert Pow2(0) / 2 == 0;
        BitSign(0, k - 1);
      }
    } else {
      Halve(Pow2(j - 1), 0);
      if k > 0 {
        BitPow2(j - 1, k - 1);
      }
    }
  }

  /** Two words with the same bits are the same integer. */
  lemma {:induction false} BitsDetermine(x: int, y: int)
    requires forall k: nat :: Bit(x, k) == Bit(y, k)
    ensures x == y
    decreases Abs(x) + Abs(y)
  {
    assert Bit(x, 0) == Bit(y, 0);
    if !(IsSign(x) && IsSign(y)) {
      HalfShrinks(x);
      HalfShrinks(y);
      forall k: nat
        ensures Bit(x / 2, k) == Bit(y / 2, k)
      {
        assert Bit(x, k + 1) == Bit(y, k + 1);
      }
      BitsDetermine(x / 2, y / 2);
      assert x == 2 * (x / 2) + x % 2;
      assert y == 2 * (y / 2) + y % 2;
    }
  }

  /** `x & y` of a non-negative `x` is non-negative, whatever `y` is. */
  lemma {:induction false} AndNonNegative(x: int, y: int)
    requires x >= 0
    ensures And(x, y) >= 0
    decreases Abs(x) + Abs(y)
  {
    if !(IsSign(x) && IsSign(y)) {
      HalfShrinks(x);
      HalfShrinks(y);
      AndNonNegative(x / 2, y / 2);
    }
  }

  /** `x | y` of two non-negative words is non-negative. */
  lemma {:induction false} OrNonNegative(x: int, y: int)
    requires x >= 0 && y >= 0
    ensures Or(x, y) >= 0
    decreases Abs(x) + Abs(y)
  {
    if !(IsSign(x) && IsSign(y)) {
      HalfShrinks(x);
      HalfShrinks(y);
      OrNonNegative(x / 2, y / 2);
    }
  }
}
