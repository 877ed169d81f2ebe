/** Bitwise operations on natural numbers, defined one bit at a time.

    Go's unsigned and non-negative integers are naturals here; each width is written out
    by the modules that need it.  Everything below is proved by following the recursion,
    so that no proof depends on a fixed word size.
 */
module Bits {

  function Pow2(k: nat): (p: nat)
    ensures p > 0
  {
    if k == 0 then 1 else 2 * Pow2(k - 1)
  }

  /** Bit `i` of `x`, counting from the least significant. */
  predicate Bit(x: nat, i: nat)
  {
    if i == 0 then x % 2 == 1 else Bit(x / 2, i - 1)
  }

  /** `x >> k`. */
  function Shr(x: nat, k: nat): nat
    decreases k
  {
    if k == 0 then x else Shr(x / 2, k - 1)
  }

  datatype BitOp = Or | And | Xor
  {
    predicate On(x: bool, y: bool)
    {
      match this
      case Or => x || y
      case And => x && y
      case Xor => x != y
    }
  }

  /** `a op b`, bit by bit. */
  function Combine(op: BitOp, a: nat, b: nat): nat
    decreases a + b
  {
    if a == 0 && b == 0 then 0
    else 2 * Combine(op, a / 2, b / 2) + (if op.On(a % 2 == 1, b % 2 == 1) then 1 else 0)
  }

  /** The `k` low bits of `x`. */
  function Low(x: nat, k: nat): nat
    decreases k
  {
    if k == 0 then 0 else x % 2 + 2 * Low(x / 2, k - 1)
  }

  /** The number of significant bits of `x`. */
  function BitLen(x: nat): nat
  {
    if x == 0 then 0 else 1 + BitLen(x / 2)
  }

  // ---------------------------------------------------------------- bits of results

  lemma {:induction false} BitOfZero(i: nat)
    ensures !Bit(0, i)
  {
    if i > 0 { BitOfZero(i - 1); }
  }

  lemma {:induction false} BitOfShr(x: nat, k: nat, i: nat)
    ensures Bit(Shr(x, k), i) == Bit(x, i + k)
    decreases k
  {
    if k > 0 { BitOfShr(x / 2, k - 1, i); }
  }

  lemma {:induction false} BitOfCombine(op: BitOp, a: nat, b: nat, i: nat)
    ensures Bit(Combine(op, a, b), i) == op.On(Bit(a, i), Bit(b, i))
    decreases i
  {
    if a == 0 && b == 0 {
      BitOfZero(i);
    } else {
      var c := Combine(op, a, b);
      assert c / 2 == Combine(op, a / 2, b / 2);
      if i > 0 { BitOfCombine(op, a / 2, b / 2, i - 1); }
    }
  }

  /** A number is determined by its bits. */
  lemma {:induction false} BitsDetermine(a: nat, b: nat)
    requires forall i: nat :: Bit(a, i) == Bit(b, i)
    ensures a == b
    decreases a
  {
    assert Bit(a, 0) == Bit(b, 0);
    forall i: nat ensures Bit(a / 2, i) == Bit(b / 2, i) {
      assert Bit(a, i + 1) == Bit(b, i + 1);
    }
    if a == 0 {
      if b != 0 {
        SomeBit(b);
        BitOfZero(BitLen(b) - 1);
      }
    } else {
      BitsDetermine(a / 2, b / 2);
    }
  }

  lemma {:induction false} SomeBit(x: nat)
    requires x > 0
    ensures BitLen(x) > 0 && Bit(x, BitLen(x) - 1)
  {
    if x / 2 > 0 { SomeBit(x / 2); }
  }

  lemma {:induction false} NoBitBeyond(x: nat, i: nat)
    requires BitLen(x) <= i
    ensures !Bit(x, i)
  {
    if x == 0 { BitOfZero(i); } else { NoBitBeyond(x / 2, i - 1); }
  }

  lemma {:induction false} BitOfMask(k: nat, i: nat)
    ensures Bit(Pow2(k) - 1, i) == (i < k)
  {
    if k == 0 {
      BitOfZero(i);
    } else {
      assert (Pow2(k) - 1) / 2 == Pow2(k - 1) - 1;
      if i > 0 { BitOfMask(k - 1, i - 1); }
    }
  }

  // ---------------------------------------------------------------- powers of two

  lemma {:induction false} Pow2Monotone(j: nat, k: nat)
    requires j <= k
    ensures Pow2(j) <= Pow2(k)
    ensures j < k ==> 2 * Pow2(j) <= Pow2(k)
  {
    if j < k { Pow2Monotone(j, k - 1); }
  }

  lemma {:induction false} Pow2Split(j: nat, k: nat)
    ensures Pow2(j + k) == Pow2(j) * Pow2(k)
    decreases k
  {
    if k > 0 {
      Pow2Split(j, k - 1);
      assert j + k - 1 == j + (k - 1);
    }
  }

  /** `BitLen` brackets its argument between two powers of two. */
  lemma {:induction false} BitLenBrackets(x: nat)
    ensures x < Pow2(BitLen(x))
    ensures x > 0 ==> Pow2(BitLen(x) - 1) <= x
  {
    if x > 0 { BitLenBrackets(x / 2); }
  }

  lemma {:induction false} BitLenUpTo(x: nat, k: nat)
    requires x < Pow2(k)
    ensures BitLen(x) <= k
    decreases k
  {
    if x > 0 { BitLenUpTo(x / 2, k - 1); }
  }

  // ---------------------------------------------------------------- low bits

  lemma {:induction false} LowBounded(x: nat, k: nat)
    ensures Low(x, k) < Pow2(k)
    decreases k
  {
    if k > 0 { LowBounded(x / 2, k - 1); }
  }

  lemma {:induction false} LowOfSmall(x: nat, k: nat)
    requires x < Pow2(k)
    ensures Low(x, k) == x
    decreases k
  {
    if k > 0 { LowOfSmall(x / 2, k - 1); }
  }

  /** Taking low bits is reduction modulo a power of two. */
  lemma {:induction false} LowDecomposes(x: nat, k: nat) returns (q: nat)
    ensures x == q * Pow2(k) + Low(x, k)
    decreases k
  {
    if k == 0 {
      q := x;
    } else {
      q := LowDecomposes(x / 2, k - 1);
      assert x == 2 * (x / 2) + x % 2;
      assert 2 * (q * Pow2(k - 1)) == q * Pow2(k);
    }
  }

  /** One unfolding of `Combine`, whether or not both operands are zero. */
  lemma CombineUnfolds(op: BitOp, a: nat, b: nat)
    ensures var c := Combine(op, a, b);
            c / 2 == Combine(op, a / 2, b / 2) && (c % 2 == 1 <==> op.On(a % 2 == 1, b % 2 == 1))
  {
    if a == 0 && b == 0 { assert Combine(op, 0, 0) == 0; }
  }

  lemma LowUnfolds(x: nat, k: nat)
    requires k > 0
    ensures Low(x, k) % 2 == x % 2 && Low(x, k) / 2 == Low(x / 2, k - 1)
  {
  }

  lemma {:induction false} LowOfCombine(op: BitOp, a: nat, b: nat, k: nat)
    ensures Low(Combine(op, a, b), k) == Combine(op, Low(a, k), Low(b, k))
    decreases k
  {
    if k > 0 {
      var x, y := Low(Combine(op, a, b), k), Combine(op, Low(a, k), Low(b, k));
      LowUnfolds(a, k);
      LowUnfolds(b, k);
      LowUnfolds(Combine(op, a, b), k);
      CombineUnfolds(op, a, b);
      CombineUnfolds(op, Low(a, k), Low(b, k));
      LowOfCombine(op, a / 2, b / 2, k - 1);
      assert x / 2 == y / 2 && x % 2 == y % 2;
    }
  }

  lemma {:induction false} LowOfZero(k: nat)
    ensures Low(0, k) == 0
  {
    if k > 0 { LowOfZero(k - 1); }
  }

  /** Masking with `2^k - 1` keeps the `k` low bits. */
  lemma {:induction false} AndMask(x: nat, k: nat)
    ensures Combine(And, x, Pow2(k) - 1) == Low(x, k)
    decreases k
  {
    if k == 0 {
      AndZero(x);
    } else {
      assert (Pow2(k) - 1) / 2 == Pow2(k - 1) - 1 && (Pow2(k) - 1) % 2 == 1;
      AndMask(x / 2, k - 1);
    }
  }

  lemma {:induction false} AndZero(x: nat)
    ensures Combine(And, x, 0) == 0
  {
    if x > 0 { AndZero(x / 2); }
  }

  lemma {:induction false} AndAtMost(x: nat, y: nat)
    ensures Combine(And, x, y) <= y
    decreases x + y
  {
    if x > 0 || y > 0 { AndAtMost(x / 2, y / 2); }
  }

  /** Exclusive or with a fixed operand undoes itself. */
  lemma {:induction false} XorCancels(a: nat, c: nat)
    ensures Combine(Xor, Combine(Xor, a, c), c) == a
    decreases a + c
  {
    if a > 0 || c > 0 {
      XorCancels(a / 2, c / 2);
      var x := Combine(Xor, a, c);
      assert x / 2 == Combine(Xor, a / 2, c / 2);
      assert x % 2 == 1 <==> (a % 2 == 1) != (c % 2 == 1);
      if x == 0 && c == 0 { XorZero(a); }
    }
  }

  lemma {:induction false} XorZero(a: nat)
    ensures Combine(Xor, a, 0) == a
  {
    if a > 0 { XorZero(a / 2); }
  }

  lemma {:induction false} CombineBelow(op: BitOp, a: nat, b: nat, k: nat)
    requires a < Pow2(k) && b < Pow2(k)
    ensures Combine(op, a, b) < Pow2(k)
    decreases k
  {
    if a > 0 || b > 0 { CombineBelow(op, a / 2, b / 2, k - 1); }
  }
}
