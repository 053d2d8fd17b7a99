/** Unsigned bit arithmetic on naturals, as the queue uses it: masking with `sizeMask`
    and rounding up to a power of two. */
module Bits {

  const WORD_BITS: nat := 64
  const WORD: nat := 0x1_0000_0000_0000_0000

  function Pow2(n: nat): (r: nat)
    ensures r >= 1
  {
    if n == 0 then 1 else 2 * Pow2(n - 1)
  }

  ghost predicate IsPow2(x: nat) {
    exists n: nat :: x == Pow2(n)
  }

  /** Bitwise and. */
  function And(x: nat, y: nat): nat {
    if x == 0 || y == 0 then 0
    else 2 * And(x / 2, y / 2) + (x % 2) * (y % 2)
  }

  /** Bitwise or. */
  function Or(x: nat, y: nat): nat
    decreases x + y
  {
    if x == 0 then y
    else if y == 0 then x
    else 2 * Or(x / 2, y / 2) + (if x % 2 == 1 || y % 2 == 1 then 1 else 0)
  }

  /** Logical shift right. */
  function Shr(x: nat, k: nat): nat
    decreases k
  {
    if k == 0 then x else Shr(x / 2, k - 1)
  }

  predicate Bit(x: nat, i: nat)
    decreases i
  {
    if i == 0 then x % 2 == 1 else Bit(x / 2, i - 1)
  }

  // ---- masking -------------------------------------------------------------

  /** Masking with a power of two less one is the remainder. */
  lemma {:induction false} AndMask(x: nat, n: nat)
    ensures And(x, Pow2(n) - 1) == x % Pow2(n)
  {
    hide And, Pow2;
    if n == 0 {
      NoMask(x);
    } else if x == 0 {
      NothingMasked(n);
    } else {
      Pow2Twice(n);
      AndMask(x / 2, n - 1);
      AndOdd(x, Pow2(n - 1));
      ModTwice(x, Pow2(n - 1));
    }
  }

  lemma NoMask(x: nat)
    ensures And(x, Pow2(0) - 1) == x % Pow2(0)
  {
    assert Pow2(0) == 1 && x % 1 == 0;
  }

  lemma NothingMasked(n: nat)
    ensures And(0, Pow2(n) - 1) == 0 % Pow2(n)
  {
    hide Pow2;
    DivModUnique(0, Pow2(n), 0, 0);
  }

  lemma Pow2Twice(n: nat)
    requires n > 0
    ensures Pow2(n) == 2 * Pow2(n - 1)
  {
  }

  lemma AndOdd(x: nat, m: nat)
    requires x > 0 && m >= 1
    ensures And(x, 2 * m - 1) == 2 * And(x / 2, m - 1) + x % 2
  {
    OddMask(m);
  }

  lemma OddMask(m: nat)
    requires m >= 1
    ensures (2 * m - 1) / 2 == m - 1 && (2 * m - 1) % 2 == 1
  {
  }

  lemma ModTwice(x: nat, m: nat)
    requires m >= 1
    ensures x % (2 * m) == 2 * ((x / 2) % m) + x % 2
  {
    var q, r := (x / 2) / m, (x / 2) % m;
    assert x / 2 == q * m + r;
    assert x == 2 * m * q + (2 * r + x % 2);
    DivModUnique(x, 2 * m, q, 2 * r + x % 2);
  }

  lemma DivModUnique(x: int, d: int, q: int, r: int)
    requires d > 0 && 0 <= r < d && x == d * q + r
    ensures x / d == q && x % d == r
  {
    var q1, r1 := x / d, x % d;
    assert x == d * q1 + r1;
    Distribute(d, q, q1);
    if q > q1 {
      AtLeast(d, q - q1);
    } else if q < q1 {
      AtLeast(d, q1 - q);
      Distribute(d, q1, q);
    }
  }

  lemma Distribute(d: int, a: int, b: int)
    ensures d * (a - b) == d * a - d * b
  {
  }

  lemma AtLeast(d: int, k: int)
    requires d > 0 && k >= 1
    ensures d * k >= d
  {
  }

  /** One step round a circular buffer of power-of-two size: `(i + 1) & sizeMask`. */
  lemma MaskedSuccessor(i: nat, size: nat)
    requires IsPow2(size) && i < size
    ensures And(i + 1, size - 1) == if i + 1 == size then 0 else i + 1
  {
    var n: nat :| size == Pow2(n);
    AndMask(i + 1, n);
    if i + 1 == size {
      DivModUnique(i + 1, size, 1, 0);
    } else {
      DivModUnique(i + 1, size, 0, i + 1);
    }
  }

  lemma {:induction false} Pow2Add(a: nat, b: nat)
    ensures Pow2(a + b) == Pow2(a) * Pow2(b)
  {
    if a > 0 {
      Pow2Add(a - 1, b);
      assert Pow2(a + b) == 2 * Pow2(a - 1 + b);
    }
  }

  lemma {:induction false} Pow2Monotone(a: nat, b: nat)
    requires a < b
    ensures 2 * Pow2(a) <= Pow2(b)
  {
    if a + 1 < b {
      Pow2Monotone(a, b - 1);
    }
  }

  lemma WordIsPow2()
    ensures Pow2(64) == WORD && Pow2(63) == WORD / 2
  {
    Pow2Of32();
    Pow2Add(32, 32);
    Pow2Add(1, 63);
    assert Pow2(1) == 2;
  }

  lemma Pow2Of32()
    ensures Pow2(32) == 0x1_0000_0000 && Pow2(31) == 0x8000_0000
  {
    assert Pow2(8) == 256;
    Pow2Add(8, 8);
    Pow2Add(16, 16);
  }

  lemma WordMultiple(n: nat) returns (k: nat)
    requires Pow2(n) <= WORD
    ensures k >= 1 && WORD == Pow2(n) * k
  {
    WordIsPow2();
    assert n <= 64 by {
      if n > 64 { Pow2Monotone(64, n); }
    }
    Pow2Add(n, 64 - n);
    k := Pow2(64 - n);
  }

  lemma NegativeRemainder(e: nat, size: nat, k: nat)
    requires 0 < e < size && k >= 1
    ensures size * k - e >= 0 && (size * k - e) % size == size - e
  {
    Distribute(size, k, 1);
    DivModUnique(size * k - e, size, k - 1, size - e);
  }

  /** The cyclic distance from `front` to `tail`, computed as the source does with a
      wrapping 64-bit subtraction and a mask. */
  lemma MaskedDifference(front: nat, tail: nat, size: nat)
    requires IsPow2(size) && front < size && tail < size && size <= WORD
    ensures And((tail - front + WORD) % WORD, size - 1)
            == if front <= tail then tail - front else tail - front + size
  {
    var n: nat :| size == Pow2(n);
    var d := if front <= tail then tail - front else tail - front + WORD;
    DivModUnique(tail - front + WORD, WORD, if front <= tail then 1 else 0, d);
    AndMask(d, n);
    if front <= tail {
      DivModUnique(d, size, 0, d);
    } else {
      var k := WordMultiple(n);
      NegativeRemainder(front - tail, size, k);
    }
  }

  // ---- rounding up to a power of two ---------------------------------------

  /** `ceilToPow2`: decrement, smear the top bit downwards, increment, all modulo the word size. */
  function CeilToPow2(x: nat): nat
    requires x < WORD
  {
    (Smear(if x == 0 then WORD - 1 else x - 1, 1) + 1) % WORD
  }

  /** `x |= x >> k` for k, 2k, 4k, ... below the word width. */
  function Smear(x: nat, k: nat): nat
    requires k >= 1
    decreases 64 - k
  {
    if k >= WORD_BITS then x else Smear(Or(x, Shr(x, k)), 2 * k)
  }

  lemma {:induction false} BitOfOr(x: nat, y: nat, i: nat)
    ensures Bit(Or(x, y), i) == (Bit(x, i) || Bit(y, i))
    decreases i
  {
    if x == 0 {
      BitOfZero(i);
    } else if y == 0 {
      BitOfZero(i);
    } else {
      var low := if x % 2 == 1 || y % 2 == 1 then 1 else 0;
      var o := Or(x / 2, y / 2);
      assert Or(x, y) == 2 * o + low;
      Halve(o, low);
      hide Or;
      if i > 0 {
        BitOfOr(x / 2, y / 2, i - 1);
      }
    }
  }

  lemma Halve(o: nat, low: nat)
    requires low < 2
    ensures (2 * o + low) / 2 == o && (2 * o + low) % 2 == low
  {
  }

  lemma {:induction false} BitOfZero(i: nat)
    ensures !Bit(0, i)
  {
    if i > 0 { BitOfZero(i - 1); }
  }

  lemma {:induction false} BitOfShr(x: nat, k: nat, i: nat)
    ensures Bit(Shr(x, k), i) == Bit(x, i + k)
    decreases k
  {
    if k > 0 { BitOfShr(x / 2, k - 1, i); }
  }

  lemma {:induction false} OrBound(x: nat, y: nat, n: nat)
    requires x < Pow2(n) && y < Pow2(n)
    ensures Or(x, y) < Pow2(n)
  {
    if n > 0 && x > 0 && y > 0 {
      OrBound(x / 2, y / 2, n - 1);
    }
  }

  lemma {:induction false} ShrBound(x: nat, k: nat)
    ensures Shr(x, k) <= x
    decreases k
  {
    if k > 0 { ShrBound(x / 2, k - 1); }
  }

  /** `x` has exactly `n` significant bits and the topmost `k` of them are ones. */
  ghost predicate TopOnes(x: nat, n: nat, k: nat) {
    x < Pow2(n) && forall i: nat :: n - k <= i < n ==> Bit(x, i)
  }

  lemma SmearStep(x: nat, n: nat, k: nat)
    requires TopOnes(x, n, k)
    ensures TopOnes(Or(x, Shr(x, k)), n, 2 * k)
  {
    ShrBound(x, k);
    OrBound(x, Shr(x, k), n);
    forall i: nat | n - 2 * k <= i < n
      ensures Bit(Or(x, Shr(x, k)), i)
    {
      BitOfOr(x, Shr(x, k), i);
      BitOfShr(x, k, i);
    }
  }

  lemma {:induction false} AllOnes(x: nat, n: nat)
    requires x < Pow2(n) && forall i: nat :: i < n ==> Bit(x, i)
    ensures x == Pow2(n) - 1
  {
    if n > 0 {
      assert Bit(x, 0);
      forall i: nat | i < n - 1 ensures Bit(x / 2, i) {
        assert Bit(x, i + 1);
      }
      AllOnes(x / 2, n - 1);
    }
  }

  lemma {:induction false} TopBit(x: nat, n: nat)
    requires n >= 1 && Pow2(n - 1) <= x < Pow2(n)
    ensures Bit(x, n - 1)
  {
    if n > 1 { TopBit(x / 2, n - 1); }
  }

  lemma {:induction false} SmearFills(x: nat, n: nat, k: nat)
    requires n <= WORD_BITS && k >= 1 && TopOnes(x, n, k)
    ensures Smear(x, k) == Pow2(n) - 1
    decreases 64 - k
  {
    if k >= WORD_BITS {
      AllOnes(x, n);
    } else {
      SmearStep(x, n, k);
      SmearFills(Or(x, Shr(x, k)), n, 2 * k);
    }
  }

  lemma SmearFillsBelowTopBit(x: nat, n: nat)
    requires 1 <= n <= WORD_BITS && Pow2(n - 1) <= x < Pow2(n)
    ensures Smear(x, 1) == Pow2(n) - 1
  {
    TopBit(x, n);
    SmearFills(x, n, 1);
  }

  lemma {:induction false} BitLength(x: nat, bound: nat) returns (n: nat)
    requires 0 < x < Pow2(bound)
    ensures 1 <= n <= bound && Pow2(n - 1) <= x < Pow2(n)
  {
    if x < Pow2(bound - 1) {
      n := BitLength(x, bound - 1);
    } else {
      n := bound;
    }
  }

  lemma CeilToPow2Value(x: nat) returns (n: nat)
    requires 1 <= x <= WORD / 2
    ensures CeilToPow2(x) == Pow2(n) && x <= Pow2(n)
    ensures n >= 1 ==> Pow2(n - 1) < x
  {
    hide Smear, Pow2;
    n := CeilingExponent(x);
    var y := Smear(x - 1, 1) + 1;
    DivModUnique(y, WORD, 0, y);
    assert CeilToPow2(x) == y % WORD;
  }

  lemma CeilingExponent(x: nat) returns (n: nat)
    requires 1 <= x <= WORD / 2
    ensures Smear(x - 1, 1) == Pow2(n) - 1 && x <= Pow2(n) < WORD
    ensures n >= 1 ==> Pow2(n - 1) < x
  {
    WordIsPow2();
    if x == 1 {
      n := 0;
      SmearFills(0, 0, 1);
    } else {
      n := BitLength(x - 1, 63);
      SmearFillsBelowTopBit(x - 1, n);
      Pow2Monotone(n, 64);
    }
  }

  lemma CeilToPow2Overflow(x: nat)
    requires x < WORD && !(1 <= x <= WORD / 2)
    ensures CeilToPow2(x) == 0
  {
    hide Smear, Pow2;
    WordIsPow2();
    var y := if x == 0 then WORD - 1 else x - 1;
    SmearFillsBelowTopBit(y, 64);
    DivModUnique(Smear(y, 1) + 1, WORD, 1, 0);
  }

  lemma LeastPow2(n: nat, x: nat, p: nat)
    requires IsPow2(p) && x <= p && (n >= 1 ==> Pow2(n - 1) < x)
    ensures Pow2(n) <= p
  {
    var m: nat :| p == Pow2(m);
    if m < n - 1 {
      Pow2Monotone(m, n - 1);
    } else if n < m {
      Pow2Monotone(n, m);
    }
  }

  /** The least power of two not below `x`, exactly when one fits and `x` is positive;
      otherwise the increment wraps to zero. */
  lemma CeilToPow2IsLeast(x: nat)
    requires x < WORD
    ensures 1 <= x <= WORD / 2 ==>
              var r := CeilToPow2(x);
              IsPow2(r) && x <= r && forall p: nat :: IsPow2(p) && x <= p ==> r <= p
    ensures !(1 <= x <= WORD / 2) ==> CeilToPow2(x) == 0
  {
    if 1 <= x <= WORD / 2 {
      var n := CeilToPow2Value(x);
      forall p: nat | IsPow2(p) && x <= p ensures Pow2(n) <= p {
        LeastPow2(n, x, p);
      }
    } else {
      CeilToPow2Overflow(x);
    }
  }
}
