/** Shard selection in the hub: the shard count computed by `nextPowerOf2`, and the
    xor/multiply hash whose masked value picks a shard.

    Model of stateful/hub.go, `nextPowerOf2` and `getShard`.  Go's `int` has 64 bits here.
 */
module ShardHash {
  import opened Bits
  import ModArith

  // ---------------------------------------------------------------- nextPowerOf2

  const TWO_32 := 0x1_0000_0000
  const TWO_62 := 0x4000_0000_0000_0000
  const TWO_63 := 0x8000_0000_0000_0000
  const TWO_64 := 0x1_0000_0000_0000_0000

  /** Two's complement wrap-around into a 64-bit `int`. */
  function Wrap64(x: nat): int
    requires x < TWO_64
  {
    if x < TWO_63 then x else x - TWO_64
  }

  /** `n |= n >> s`. */
  function SmearStep(x: nat, s: nat): nat
  {
    Combine(Or, x, Shr(x, s))
  }

  /** The five updates of `nextPowerOf2` between its decrement and its increment. */
  function Smear(m: nat): nat
  {
    SmearStep(SmearStep(SmearStep(SmearStep(SmearStep(m, 1), 2), 4), 8), 16)
  }

  /** Some bit of `m` in positions `i .. i + w` is set. */
  ghost predicate Window(m: nat, w: nat, i: nat)
  {
    exists j: nat :: i <= j < i + w && Bit(m, j)
  }

  /** `r` is the least power of two that is at least `n`. */
  ghost predicate IsLeastPowerOf2(r: int, n: int)
  {
    exists k: nat :: IsLeastExponent(k, n) && r == Pow2(k)
  }

  ghost predicate IsLeastExponent(k: nat, n: int)
  {
    n <= Pow2(k) && (k > 0 ==> Pow2(k - 1) < n)
  }

  /** Below its top bit, `m` has no 32 consecutive zero bits. */
  ghost predicate NoLongZeroRun(m: nat)
  {
    forall i: nat :: i < BitLen(m) ==> Window(m, 32, i)
  }

  /** A smear by the current window width doubles the window. */
  lemma SmearDoubles(m: nat, x: nat, w: nat)
    requires forall i: nat :: Bit(x, i) == Window(m, w, i)
    ensures forall i: nat :: Bit(SmearStep(x, w), i) == Window(m, 2 * w, i)
  {
    forall i: nat ensures Bit(SmearStep(x, w), i) == Window(m, 2 * w, i) {
      BitOfCombine(Or, x, Shr(x, w), i);
      BitOfShr(x, w, i);
      assert Bit(SmearStep(x, w), i) == (Window(m, w, i) || Window(m, w, i + w));
      if Window(m, 2 * w, i) {
        var j: nat :| i <= j < i + 2 * w && Bit(m, j);
        assert j < i + w ==> Window(m, w, i);
        assert j >= i + w ==> Window(m, w, i + w);
      }
    }
  }

  /** What the smear computes: bit `i` is set when some bit of `i .. i + 31` was. */
  lemma SmearWindow(m: nat)
    ensures forall i: nat :: Bit(Smear(m), i) == Window(m, 32, i)
  {
    forall i: nat ensures Bit(m, i) == Window(m, 1, i) {
      if Bit(m, i) { assert i <= i < i + 1 && Bit(m, i); }
    }
    SmearDoubles(m, m, 1);
    var x2 := SmearStep(m, 1);
    SmearDoubles(m, x2, 2);
    var x4 := SmearStep(x2, 2);
    SmearDoubles(m, x4, 4);
    var x8 := SmearStep(x4, 4);
    SmearDoubles(m, x8, 8);
    var x16 := SmearStep(x8, 8);
    SmearDoubles(m, x16, 16);
  }

  lemma SmearBounded(m: nat)
    ensures Smear(m) < Pow2(BitLen(m))
  {
    SmearWindow(m);
    var s, k := Smear(m), BitLen(m);
    forall i: nat | i >= k ensures !Bit(s, i) {
      forall j: nat | i <= j < i + 32 ensures !Bit(m, j) { NoBitBeyond(m, j); }
    }
    if s > 0 {
      SomeBit(s);
      BitLenBrackets(s);
      Pow2Monotone(BitLen(s), k);
    }
  }

  /** The smear fills every position below the top bit exactly when no zero run is long. */
  lemma SmearFills(m: nat)
    ensures Smear(m) == Pow2(BitLen(m)) - 1 <==> NoLongZeroRun(m)
  {
    SmearWindow(m);
    var s, k := Smear(m), BitLen(m);
    if NoLongZeroRun(m) {
      forall i: nat ensures Bit(s, i) == Bit(Pow2(k) - 1, i) {
        BitOfMask(k, i);
        if i >= k {
          forall j: nat | i <= j < i + 32 ensures !Bit(m, j) { NoBitBeyond(m, j); }
        }
      }
      BitsDetermine(s, Pow2(k) - 1);
    }
    if s == Pow2(k) - 1 {
      forall i: nat | i < k ensures Window(m, 32, i) { BitOfMask(k, i); }
    }
  }

  lemma LeastExponentIsBitLen(n: nat, k: nat)
    requires n >= 1 && IsLeastExponent(k, n)
    ensures k == BitLen(n - 1)
  {
    var m: nat := n - 1;
    BitLenUpTo(m, k);
    BitLenBrackets(m);
    if BitLen(m) < k { Pow2Monotone(BitLen(m), k - 1); }
  }

  lemma BitLenIsLeastExponent(n: nat)
    requires n >= 1
    ensures IsLeastExponent(BitLen(n - 1), n)
  {
    BitLenBrackets(n - 1);
  }

  lemma Width8() returns (w: nat)
    ensures w == 8 && Pow2(w) == 256
  {
    w := 0;
    while w < 8
      invariant w <= 8
      invariant Pow2(w) == [1, 2, 4, 8, 16, 32, 64, 128, 256][w]
    {
      w := w + 1;
    }
  }

  /** The width as bounds: from an equation the solver would unfold `Pow2` thirty-two times. */
  lemma Width32() returns (w: nat)
    ensures 32 <= w <= 32 && Pow2(w) == TWO_32
  {
    var v := Width8();
    Pow2Split(v, v);
    Pow2Split(v + v, v + v);
    w := (v + v) + (v + v);
  }

  lemma Width62() returns (w: nat)
    ensures Pow2(w) == TWO_62 && Pow2(w + 1) == TWO_63
  {
    var h := Width32();
    Pow2Split(h, h);
    w := h + h - 2;
  }

  /** Nothing below 2^32 has a zero run that is too long. */
  lemma ShortNumbersHaveShortRuns(m: nat)
    requires m < TWO_32
    ensures NoLongZeroRun(m)
  {
    var w := Width32();
    BitLenUpTo(m, w);
    forall i: nat | i < BitLen(m) ensures Window(m, 32, i) {
      SomeBit(m);
      assert i <= BitLen(m) - 1 < i + 32;
    }
  }

  lemma LongZeroRunAt32()
    ensures !NoLongZeroRun(TWO_32)
  {
    var w := Width32();
    var m := Pow2(w);
    forall j: nat | 0 <= j < 0 + 32 ensures !Bit(m, j) { BitOfPow2(w, j); }
    assert !Window(m, 32, 0);
    BitLenBrackets(m);
  }

  lemma {:induction false} BitOfPow2(k: nat, i: nat)
    ensures Bit(Pow2(k), i) == (i == k)
  {
    if k == 0 {
      if i > 0 { BitOfZero(i - 1); }
    } else if i > 0 {
      BitOfPow2(k - 1, i - 1);
    }
  }

  lemma SmearFits(n: int)
    requires 1 <= n < TWO_63
    ensures Smear(n - 1) < TWO_63
    ensures n <= TWO_62 ==> Smear(n - 1) < TWO_62
  {
    var w := Width62();
    var m: nat := n - 1;
    SmearBounded(m);
    BitLenUpTo(m, w + 1);
    Pow2Monotone(BitLen(m), w + 1);
    if n <= TWO_62 {
      BitLenUpTo(m, w);
      Pow2Monotone(BitLen(m), w);
    }
  }

  lemma FilledIsLeast(n: nat, s: nat)
    requires n >= 1 && s == Pow2(BitLen(n - 1)) - 1
    ensures IsLeastPowerOf2(s + 1, n)
  {
    BitLenIsLeastExponent(n);
  }

  lemma LeastIsFilled(n: nat, r: int)
    requires 1 <= n < TWO_63 && r < TWO_63 && IsLeastPowerOf2(r, n)
    ensures n <= TWO_62 && r == Pow2(BitLen(n - 1))
  {
    var k: nat :| IsLeastExponent(k, n) && r == Pow2(k);
    LeastExponentIsBitLen(n, k);
    var w := Width62();
    if k > w { Pow2Monotone(w + 1, k); } else { Pow2Monotone(k, w); }
  }

  lemma {:induction false} BitOfDouble(x: nat, i: nat)
    ensures Bit(2 * x, i) == (i > 0 && Bit(x, i - 1))
  {
  }

  /** A bit at position 32 reaches down to position one, not to position zero. */
  lemma SmearBit(w: nat, p: nat)
    requires w == 32 && p == Pow2(w)
    ensures Smear(p) == 2 * (p - 1)
  {
    SmearWindow(p);
    forall i: nat ensures Bit(Smear(p), i) == Bit(2 * (p - 1), i) {
      forall j: nat ensures Bit(p, j) == (j == w) { BitOfPow2(w, j); }
      assert Window(p, 32, i) == (1 <= i <= w) by {
        if 1 <= i <= w { assert i <= w < i + 32 && Bit(p, w); }
      }
      BitOfDouble(p - 1, i);
      if i > 0 { BitOfMask(w, i - 1); }
    }
    BitsDetermine(Smear(p), 2 * (p - 1));
  }

  lemma SmearOf32()
    ensures Smear(TWO_32) == 2 * TWO_32 - 2
  {
    var w := Width32();
    SmearBit(w, Pow2(w));
  }

  /** The bound cannot be raised: on 2^32 + 1 the smear leaves a gap, and the result, 2^33 - 1, is not even a power of
      two. */
  lemma BoundIsTight()
    ensures Smear(TWO_32 + 1 - 1) + 1 == 2 * TWO_32 - 1
    ensures !IsLeastPowerOf2(Smear(TWO_32 + 1 - 1) + 1, TWO_32 + 1)
  {
    SmearOf32();
    LongZeroRunAt32();
    SmearFits(TWO_32 + 1);
    SmearFills(TWO_32);
    if IsLeastPowerOf2(Smear(TWO_32) + 1, TWO_32 + 1) {
      LeastIsFilled(TWO_32 + 1, Smear(TWO_32) + 1);
      assert false;
    }
  }

  /** `nextPowerOf2` on a positive 64-bit argument: right exactly when the result fits and
      the argument less one has no run of 32 zero bits below its top bit; so always right up to 2^32. */
  method NextPowerOf2(n: int) returns (r: int)
    requires 1 <= n < TWO_63
    ensures IsLeastPowerOf2(r, n) <==> n <= TWO_62 && NoLongZeroRun(n - 1)
    ensures n <= TWO_32 ==> IsLeastPowerOf2(r, n)
    ensures n <= TWO_62 ==> 1 <= r <= TWO_62
    ensures n == TWO_32 + 1 ==> r == 2 * TWO_32 - 1
  {
    var m: nat := n - 1;
    m := Combine(Or, m, Shr(m, 1));
    m := Combine(Or, m, Shr(m, 2));
    m := Combine(Or, m, Shr(m, 4));
    m := Combine(Or, m, Shr(m, 8));
    m := Combine(Or, m, Shr(m, 16));
    assert m == Smear(n - 1);
    SmearFits(n);
    r := Wrap64(m + 1);
    ResultIsLeastIff(n, r);
    if n == TWO_32 + 1 { SmearOf32(); }
  }

  lemma ResultIsLeastIff(n: int, r: int)
    requires 1 <= n < TWO_63 && Smear(n - 1) < TWO_63 && r == Wrap64(Smear(n - 1) + 1)
    requires n <= TWO_62 ==> r == Smear(n - 1) + 1
    ensures IsLeastPowerOf2(r, n) <==> n <= TWO_62 && NoLongZeroRun(n - 1)
    ensures n <= TWO_32 ==> IsLeastPowerOf2(r, n)
  {
    if n <= TWO_32 { ShortNumbersHaveShortRuns(n - 1); }
    SmearFills(n - 1);
    if n <= TWO_62 && NoLongZeroRun(n - 1) { FilledIsLeast(n, Smear(n - 1)); }
    if IsLeastPowerOf2(r, n) { LeastIsFilled(n, r); }
  }

  // ---------------------------------------------------------------- getShard

  const PRIME := 16777619

  /** The inverse of PRIME modulo 2^32. */
  const INVERSE := 899433627

  /** One round of the hash in arithmetic modulo `m`. */
  function Round(h: nat, c: nat, m: nat): nat
    requires m > 0
  {
    (Combine(Xor, h, c % m) * PRIME) % m
  }

  /** The fold over the runes of a key, from state `h`. */
  function FoldFrom(h: nat, key: string, m: nat): nat
    requires m > 0
    decreases |key|
  {
    if key == [] then h else FoldFrom(Round(h, key[0] as nat, m), key[1..], m)
  }

  /** The hash the code computes: `uint32` arithmetic from zero. */
  function Hash(key: string): nat
  {
    FoldFrom(0, key, TWO_32)
  }

  /** The index `getShard` selects with the given `shardMask`, which the code truncates to `uint32`. */
  function ShardIndex(key: string, mask: nat): (i: nat)
    ensures i <= mask
  {
    AndAtMost(Hash(key), mask % TWO_32);
    Combine(And, Hash(key), mask % TWO_32)
  }

  lemma {:induction false} FoldBounded(h: nat, key: string, m: nat)
    requires h < m
    ensures FoldFrom(h, key, m) < m
    decreases |key|
  {
    if key != [] { FoldBounded(Round(h, key[0] as nat, m), key[1..], m); }
  }

  lemma {:induction false} FoldAppends(h: nat, p: string, s: string, m: nat)
    requires m > 0
    ensures FoldFrom(h, p + s, m) == FoldFrom(FoldFrom(h, p, m), s, m)
    decreases |p|
  {
    if p == [] {
      assert p + s == s;
    } else {
      assert (p + s)[1..] == p[1..] + s;
      FoldAppends(Round(h, p[0] as nat, m), p[1..], s, m);
    }
  }

  /** The hash by its recurrence: nothing for the empty key, and each further rune is folded in with xor and then
      multiplied by 16777619, in 32 bits. */
  lemma HashRecurrence(key: string, c: char)
    ensures Hash("") == 0
    ensures Hash(key + [c]) == (Combine(Xor, Hash(key), c as nat) * 16777619) % 0x1_0000_0000
  {
    FoldAppends(0, key, [c], TWO_32);
    SmallMod(c as nat, TWO_32);
  }

  lemma LowIsMod(x: nat, k: nat)
    ensures Low(x, k) == x % Pow2(k)
  {
    var q := LowDecomposes(x, k);
    LowBounded(x, k);
    ModArith.DivModUnique(x, Pow2(k), q, Low(x, k));
  }

  lemma ModTwice(x: nat, k: nat, w: nat)
    requires k <= w
    ensures (x % Pow2(w)) % Pow2(k) == x % Pow2(k)
  {
    Pow2Split(k, w - k);
    ModArith.ReduceTwice(x, Pow2(k), Pow2(w - k));
  }

  lemma XorMod(a: nat, b: nat, k: nat)
    ensures Combine(Xor, a, b) % Pow2(k) == Combine(Xor, a % Pow2(k), b % Pow2(k))
  {
    LowIsMod(a, k);
    LowIsMod(b, k);
    LowIsMod(Combine(Xor, a, b), k);
    LowOfCombine(Xor, a, b, k);
  }

  /** Truncating a `w`-bit round to `k` bits gives the `k`-bit round. */
  lemma RoundTruncates(h: nat, c: nat, k: nat, w: nat)
    requires k <= w
    ensures Round(h, c, Pow2(w)) % Pow2(k) == Round(h % Pow2(k), c, Pow2(k))
  {
    var m, n := Pow2(k), Pow2(w);
    var x := Combine(Xor, h, c % n);
    ModTwice(x * PRIME, k, w);
    ModArith.MulReduces(x, PRIME, m);
    XorMod(h, c % n, k);
    ModTwice(c, k, w);
  }

  lemma {:induction false} FoldTruncates(h: nat, key: string, k: nat, w: nat)
    requires k <= w
    ensures FoldFrom(h, key, Pow2(w)) % Pow2(k) == FoldFrom(h % Pow2(k), key, Pow2(k))
    decreases |key|
  {
    if key != [] {
      RoundTruncates(h, key[0] as nat, k, w);
      FoldTruncates(Round(h, key[0] as nat, Pow2(w)), key[1..], k, w);
    }
  }

  lemma ShardIndexIsLow(key: string, k: nat)
    requires k <= 32
    ensures ShardIndex(key, Pow2(k) - 1) == Low(Hash(key), k)
  {
    var w := Width32();
    Pow2Monotone(k, w);
    SmallMod(Pow2(k) - 1, TWO_32);
    AndMask(Hash(key), k);
  }

  lemma HashTruncates(key: string, k: nat)
    requires k <= 32
    ensures Hash(key) % Pow2(k) == FoldFrom(0, key, Pow2(k))
  {
    var w := Width32();
    FoldTruncates(0, key, k, w);
    SmallMod(0, Pow2(k));
  }

  /** With 2^k shards the index is the same fold run entirely modulo 2^k. */
  lemma ShardIndexIsFold(key: string, k: nat)
    requires k <= 32
    ensures ShardIndex(key, Pow2(k) - 1) == FoldFrom(0, key, Pow2(k)) == Hash(key) % Pow2(k)
  {
    ShardIndexIsLow(key, k);
    LowIsMod(Hash(key), k);
    HashTruncates(key, k);
  }

  /** A power of two of at most 2^32. */
  ghost predicate IsShardCount(n: nat)
  {
    exists k: nat :: k <= 32 && n == Pow2(k)
  }

  /** Up to 2^32 wanted shards, the count is such a power. */
  lemma CountsFit(wanted: nat)
    requires 1 <= wanted <= TWO_32
    ensures forall n: nat :: IsLeastPowerOf2(n, wanted) ==> IsShardCount(n)
  {
    var w := Width32();
    forall n: nat | IsLeastPowerOf2(n, wanted) ensures IsShardCount(n) {
      var k: nat :| IsLeastExponent(k, wanted) && n == Pow2(k);
      if k > w { Pow2Monotone(w, k - 1); }
    }
  }

  /** So masking is reduction modulo the shard count. */
  lemma IndexIsRemainder(key: string, n: nat)
    requires IsShardCount(n)
    ensures ShardIndex(key, n - 1) == Hash(key) % n
  {
    var k: nat :| k <= 32 && n == Pow2(k);
    ShardIndexIsFold(key, k);
  }

  /** The inverse of one round. */
  function Unround(h: nat, c: nat, m: nat): nat
    requires m > 0
  {
    Combine(Xor, (h * INVERSE) % m, c % m)
  }

  lemma SplitMultiple(e: nat, k: nat, w: nat) returns (q: nat)
    requires k <= w
    ensures e * Pow2(w) == q * Pow2(k)
  {
    Pow2Split(k, w - k);
    q := e * Pow2(w - k);
  }

  lemma InverseOfPrime(k: nat) returns (q: nat)
    requires k <= 32
    ensures PRIME * INVERSE == q * Pow2(k) + 1
  {
    var w := Width32();
    q := SplitMultiple(3513497, k, w);
  }

  /** Every round is a bijection on `k`-bit words, because the multiplier is odd:
      `Unround` inverts it on both sides. */
  lemma RoundIsBijection(h: nat, c: nat, k: nat)
    requires k <= 32 && h < Pow2(k)
    ensures Unround(Round(h, c, Pow2(k)), c, Pow2(k)) == h
    ensures Unround(h, c, Pow2(k)) < Pow2(k) && Round(Unround(h, c, Pow2(k)), c, Pow2(k)) == h
  {
    var m := Pow2(k);
    var d := c % m;
    var q := InverseOfPrime(k);
    var x := Combine(Xor, h, d);
    CombineBelow(Xor, h, d, k);
    ModArith.MulThenInverse(x, PRIME, INVERSE, m, q);
    SmallMod(x, m);
    XorCancels(h, d);
    var y := (h * INVERSE) % m;
    CombineBelow(Xor, y, d, k);
    XorCancels(y, d);
    ModArith.MulThenInverse(h, INVERSE, PRIME, m, q);
    SmallMod(h, m);
  }

  lemma SmallMod(x: nat, m: nat)
    requires x < m
    ensures x % m == x
  {
  }

  /** A common suffix neither merges nor separates two hash states. */
  lemma {:induction false} SuffixCancels(h1: nat, h2: nat, s: string, k: nat)
    requires k <= 32 && h1 < Pow2(k) && h2 < Pow2(k)
    ensures FoldFrom(h1, s, Pow2(k)) == FoldFrom(h2, s, Pow2(k)) <==> h1 == h2
    decreases |s|
  {
    if s != [] {
      var c := s[0] as nat;
      RoundIsBijection(h1, c, k);
      RoundIsBijection(h2, c, k);
      SuffixCancels(Round(h1, c, Pow2(k)), Round(h2, c, Pow2(k)), s[1..], k);
    }
  }

  /** From one state, two runes lead to the same next state exactly when they agree modulo 2^k. */
  lemma RoundSeparatesRunes(h: nat, c: nat, d: nat, k: nat)
    requires k <= 32 && h < Pow2(k)
    ensures Round(h, c, Pow2(k)) == Round(h, d, Pow2(k)) <==> c % Pow2(k) == d % Pow2(k)
  {
    if Round(h, c, Pow2(k)) == Round(h, d, Pow2(k)) {
      RuneRecovered(h, c, k);
      RuneRecovered(h, d, k);
    }
  }

  lemma RuneRecovered(h: nat, c: nat, k: nat)
    requires k <= 32 && h < Pow2(k)
    ensures c % Pow2(k) == Combine(Xor, (Round(h, c, Pow2(k)) * INVERSE) % Pow2(k), h)
  {
    var m := Pow2(k);
    var d := c % m;
    var q := InverseOfPrime(k);
    var x := Combine(Xor, h, d);
    CombineBelow(Xor, h, d, k);
    ModArith.MulThenInverse(x, PRIME, INVERSE, m, q);
    SmallMod(x, m);
    XorCommutes(h, d);
    XorCancels(d, h);
  }

  lemma {:induction false} XorCommutes(a: nat, b: nat)
    ensures Combine(Xor, a, b) == Combine(Xor, b, a)
    decreases a + b
  {
    if a > 0 || b > 0 { XorCommutes(a / 2, b / 2); }
  }

  lemma FoldThroughRune(p: string, c: char, s: string, m: nat)
    requires m > 0
    ensures FoldFrom(0, p + [c] + s, m) == FoldFrom(Round(FoldFrom(0, p, m), c as nat, m), s, m)
  {
    assert p + [c] + s == p + ([c] + s);
    FoldAppends(0, p, [c] + s, m);
    assert ([c] + s)[1..] == s;
  }

  /** Two keys that differ in one rune share a shard exactly when those runes agree in their `k` low bits. */
  lemma OneRuneApart(p: string, c: char, d: char, s: string, k: nat)
    requires k <= 32
    ensures ShardIndex(p + [c] + s, Pow2(k) - 1) == ShardIndex(p + [d] + s, Pow2(k) - 1)
       <==> (c as nat) % Pow2(k) == (d as nat) % Pow2(k)
  {
    var m := Pow2(k);
    var h := FoldFrom(0, p, m);
    FoldBounded(0, p, m);
    ShardIndexIsFold(p + [c] + s, k);
    ShardIndexIsFold(p + [d] + s, k);
    FoldThroughRune(p, c, s, m);
    FoldThroughRune(p, d, s, m);
    SuffixCancels(Round(h, c as nat, m), Round(h, d as nat, m), s, k);
    RoundSeparatesRunes(h, c as nat, d as nat, k);
  }

  lemma DigitsDiffer(c: nat, d: nat, k: nat)
    requires 4 <= k && 48 <= c <= 57 && 48 <= d <= 57 && c != d
    ensures c % Pow2(k) != d % Pow2(k)
  {
    ModTwice(c, 4, k);
    ModTwice(d, 4, k);
    assert Pow2(4) == 16;
  }

  /** Decimal connection IDs that differ in one digit never share a shard once there are 16. */
  lemma DigitsSeparate(p: string, c: char, d: char, s: string, k: nat)
    requires 4 <= k <= 32 && '0' <= c <= '9' && '0' <= d <= '9' && c != d
    ensures ShardIndex(p + [c] + s, Pow2(k) - 1) != ShardIndex(p + [d] + s, Pow2(k) - 1)
  {
    OneRuneApart(p, c, d, s, k);
    DigitsDiffer(c as nat, d as nat, k);
  }

  /** The hashing loop of `getShard`. */
  method GetShardIndex(key: string, shardMask: nat) returns (i: nat)
    ensures i == ShardIndex(key, shardMask)
  {
    var hash: nat := 0;
    var n := 0;
    while n < |key|
      invariant 0 <= n <= |key|
      invariant FoldFrom(hash, key[n..], TWO_32) == Hash(key)
    {
      var c := key[n] as nat;
      SmallMod(c, TWO_32);
      assert key[n..][1..] == key[n + 1..];
      hash := Combine(Xor, hash, c);
      hash := (hash * PRIME) % TWO_32;
      n := n + 1;
    }
    i := Combine(And, hash, shardMask % TWO_32);
  }
}
