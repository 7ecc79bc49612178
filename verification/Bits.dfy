// Unsigned machine words as natural numbers, with the bit operations the
// address code uses (champsim/inc/msl/bits.h). A word is determined by its
// bits, so each operation is characterised by what it does to every bit.
module Bits {
  import opened Prelude

  function Pow2(n: nat): (p: nat)
    ensures p > 0
  {
    if n == 0 then 1 else 2 * Pow2(n - 1)
  }

  predicate Bit(x: nat, i: nat) {
    if i == 0 then x % 2 == 1 else Bit(x / 2, i - 1)
  }

  // x >> n
  function Shr(x: nat, n: nat): nat {
    if n == 0 then x else Shr(x / 2, n - 1)
  }

  // x & bitmask(n): the n least significant bits.
  function Low(x: nat, n: nat): nat {
    if n == 0 then 0 else x % 2 + 2 * Low(x / 2, n - 1)
  }

  function Xor(x: nat, y: nat): nat {
    if x == 0 && y == 0 then 0 else (x + y) % 2 + 2 * Xor(x / 2, y / 2)
  }

  function And(x: nat, y: nat): nat {
    if x == 0 || y == 0 then 0 else (if x % 2 == 1 && y % 2 == 1 then 1 else 0) + 2 * And(x / 2, y / 2)
  }

  // The n low bits of `low` under all the bits of `high`.
  function Join(low: nat, n: nat, high: nat): nat {
    if n == 0 then high else low % 2 + 2 * Join(low / 2, n - 1, high)
  }

  // ------------------------------------------------------------ bit by bit

  lemma {:induction false} ZeroBits(i: nat)
    ensures !Bit(0, i)
  {
    if i > 0 { ZeroBits(i - 1); }
  }

  lemma {:induction false} SameBits(x: nat, y: nat)
    requires forall i: nat :: Bit(x, i) == Bit(y, i)
    ensures x == y
    decreases x + y
  {
    if x + y > 0 {
      assert Bit(x, 0) == Bit(y, 0);
      forall i: nat ensures Bit(x / 2, i) == Bit(y / 2, i) { assert Bit(x, i + 1) == Bit(y, i + 1); }
      SameBits(x / 2, y / 2);
    }
  }

  lemma {:induction false} BitShr(x: nat, n: nat, i: nat)
    ensures Bit(Shr(x, n), i) == Bit(x, n + i)
  {
    if n > 0 { BitShr(x / 2, n - 1, i); }
  }

  lemma {:induction false} BitLow(x: nat, n: nat, i: nat)
    ensures Bit(Low(x, n), i) == (i < n && Bit(x, i))
  {
    if n == 0 {
      ZeroBits(i);
    } else if i > 0 {
      BitLow(x / 2, n - 1, i - 1);
    }
  }

  lemma {:induction false} BitXor(x: nat, y: nat, i: nat)
    ensures Bit(Xor(x, y), i) == (Bit(x, i) != Bit(y, i))
    decreases i
  {
    if x == 0 && y == 0 {
      ZeroBits(i);
    } else if i > 0 {
      BitXor(x / 2, y / 2, i - 1);
    }
  }

  lemma {:induction false} BitJoin(low: nat, n: nat, high: nat, i: nat)
    ensures Bit(Join(low, n, high), i) == if i < n then Bit(low, i) else Bit(high, i - n)
  {
    if n > 0 && i > 0 { BitJoin(low / 2, n - 1, high, i - 1); }
  }

  // ----------------------------------------------------------------- ranges

  lemma {:induction false} LowInRange(x: nat, n: nat)
    ensures Low(x, n) < Pow2(n)
  {
    if n > 0 { LowInRange(x / 2, n - 1); }
  }

  lemma {:induction false} LowOfSmall(x: nat, n: nat)
    requires x < Pow2(n)
    ensures Low(x, n) == x
  {
    if n > 0 { LowOfSmall(x / 2, n - 1); }
  }

  lemma {:induction false} HighBits(x: nat, n: nat, i: nat)
    requires x < Pow2(n) && n <= i
    ensures !Bit(x, i)
  {
    LowOfSmall(x, n);
    BitLow(x, n, i);
  }

  lemma {:induction false} XorInRange(x: nat, y: nat, n: nat)
    requires x < Pow2(n) && y < Pow2(n)
    ensures Xor(x, y) < Pow2(n)
  {
    if n > 0 { XorInRange(x / 2, y / 2, n - 1); }
  }

  lemma {:induction false} XorTwice(x: nat, y: nat)
    ensures Xor(Xor(x, y), y) == x
  {
    forall i: nat ensures Bit(Xor(Xor(x, y), y), i) == Bit(x, i) {
      BitXor(Xor(x, y), y, i);
      BitXor(x, y, i);
    }
    SameBits(Xor(Xor(x, y), y), x);
  }

  lemma {:induction false} XorZero(x: nat)
    ensures Xor(x, 0) == x
  {
    if x > 0 { XorZero(x / 2); }
  }

  // -------------------------------------------------------------- splitting

  lemma {:induction false} SplitJoin(x: nat, n: nat)
    ensures Join(Low(x, n), n, Shr(x, n)) == x
  {
    if n > 0 { SplitJoin(x / 2, n - 1); }
  }

  lemma {:induction false} JoinSplit(low: nat, n: nat, high: nat)
    ensures Low(Join(low, n, high), n) == Low(low, n) && Shr(Join(low, n, high), n) == high
  {
    if n > 0 { JoinSplit(low / 2, n - 1, high); }
  }

  lemma {:induction false} ShrInRange(x: nat, n: nat, m: nat)
    ensures Shr(x, n) < Pow2(m) <==> x < Pow2(n + m)
  {
    if n > 0 { ShrInRange(x / 2, n - 1, m); }
  }

  lemma {:induction false} ShrShr(x: nat, n: nat, m: nat)
    ensures Shr(Shr(x, n), m) == Shr(x, n + m)
  {
    if n > 0 { ShrShr(x / 2, n - 1, m); }
  }

  function Quotient(x: nat, n: nat): nat {
    FloorOf(x, Pow2(n));
    x / Pow2(n)
  }

  function Remainder(x: nat, n: nat): nat {
    x % Pow2(n)
  }

  // Shifting divides, and the low bits are the remainder.
  lemma {:induction false} ShrDivides(x: nat, n: nat)
    ensures Shr(x, n) == Quotient(x, n) && Low(x, n) == Remainder(x, n)
  {
    ShrAndLow(x, n);
    LowInRange(x, n);
    DivUnique(x, Pow2(n), Shr(x, n), Low(x, n));
  }

  lemma {:induction false} ShrAndLow(x: nat, n: nat)
    ensures x == Shr(x, n) * Pow2(n) + Low(x, n)
  {
    if n > 0 {
      ShrAndLow(x / 2, n - 1);
      assert Shr(x, n) * Pow2(n) == 2 * (Shr(x / 2, n - 1) * Pow2(n - 1));
    }
  }

  // ----------------------------------------------------------- powers of two

  predicate IsPowerOfTwo(n: nat) {
    n == 1 || (n > 1 && n % 2 == 0 && IsPowerOfTwo(n / 2))
  }

  lemma {:induction false} PowerOfTwoIsPow2(n: nat)
    requires IsPowerOfTwo(n)
    ensures exists k: nat :: n == Pow2(k)
  {
    if n == 1 {
      assert n == Pow2(0);
    } else {
      PowerOfTwoIsPow2(n / 2);
      var k: nat :| n / 2 == Pow2(k);
      assert n == Pow2(k + 1);
    }
  }

  lemma {:induction false} Pow2IsPowerOfTwo(k: nat)
    ensures IsPowerOfTwo(Pow2(k))
  {
    if k > 0 { Pow2IsPowerOfTwo(k - 1); }
  }

  // The test the table constructor makes, n & (n - 1) == 0.
  lemma {:induction false} MaskTest(n: nat)
    requires n > 0
    ensures And(n, n - 1) == 0 <==> IsPowerOfTwo(n)
  {
    if n % 2 == 0 {
      assert (n - 1) / 2 == n / 2 - 1;
      MaskTest(n / 2);
    } else if n > 1 {
      AndSelf(n / 2);
      assert (n - 1) / 2 == n / 2;
    }
  }

  lemma {:induction false} AndSelf(x: nat)
    ensures And(x, x) == x
  {
    if x > 0 { AndSelf(x / 2); }
  }
}
