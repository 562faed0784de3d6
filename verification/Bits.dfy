/**
 * Unsigned machine words: `&`, `|` and `>>` on naturals, and the facts about power-of-two masks
 * that every ring of the gateway relies on.
 */
module Bits {

  /** One more than the largest std::size_t / std::uint64_t. */
  const WORD: nat := 0x1_0000_0000_0000_0000

  function Pow2(k: nat): (p: nat)
    ensures 1 <= p
  {
    if k == 0 then 1 else 2 * Pow2(k - 1)
  }

  /** Bitwise `x & y`. */
  function And(x: nat, y: nat): (r: nat)
    ensures r <= x && r <= y
  {
    if x == 0 || y == 0 then 0
    else (if x % 2 == 1 && y % 2 == 1 then 1 else 0) + 2 * And(x / 2, y / 2)
  }

  /** Bitwise `x | y`. */
  function Or(x: nat, y: nat): nat {
    if x == 0 then y
    else if y == 0 then x
    else (if x % 2 == 1 || y % 2 == 1 then 1 else 0) + 2 * Or(x / 2, y / 2)
  }

  /** `x >> n`. */
  function Shr(x: nat, n: nat): nat {
    if n == 0 then x else Shr(x / 2, n - 1)
  }

  /** The source's own test: non-zero, and no bit in common with its predecessor. */
  predicate IsPowerOfTwo(value: nat) {
    value != 0 && And(value, value - 1) == 0
  }

  lemma {:induction false} AndSelf(x: nat)
    ensures And(x, x) == x
  {
    if x != 0 {
      AndSelf(x / 2);
    }
  }

  lemma MulMono(a: int, b: int, d: nat)
    requires a <= b
    ensures a * d <= b * d
  {
  }

  lemma MulDistrib(a: int, b: int, d: int)
    ensures (a + b) * d == a * d + b * d
  {
  }

  lemma MulRegroup(a: int, b: int, d: int)
    ensures a * (b * d) == (a * d) * b
  {
  }

  lemma QuotientAtMost(d: nat, q: int, r: nat, q': int, r': nat)
    requires r < d && r' < d && q * d + r == q' * d + r'
    ensures q' <= q
  {
    if q < q' {
      MulMono(q + 1, q', d);
      MulDistrib(q, 1, d);
    }
  }

  /** Quotient and remainder. */
  lemma DivMod(x: int, d: nat) returns (q: int, r: nat)
    requires 1 <= d
    ensures q == x / d && r == x % d && r < d && x == q * d + r
  {
    q, r := x / d, x % d;
  }

  /** Quotient and remainder are determined by x == q * d + r with 0 <= r < d. */
  lemma DivModUnique(x: int, d: nat, q: int, r: nat)
    requires 1 <= d && r < d && x == q * d + r
    ensures x / d == q && x % d == r
  {
    var q', r' := DivMod(x, d);
    QuotientAtMost(d, q, r, q', r');
    QuotientAtMost(d, q', r', q, r);
  }

  lemma SmallMod(n: nat, d: nat)
    requires n < d
    ensures n % d == n && (n - d) % d == n && (n + d) % d == n
  {
    DivModUnique(n, d, 0, n);
    DivModUnique(n - d, d, -1, n);
    DivModUnique(n + d, d, 1, n);
  }

  /** Halving commutes with division and reduction by a power of two. */
  lemma ModDouble(x: nat, p: nat)
    requires 1 <= p
    ensures x % (2 * p) == x % 2 + 2 * ((x / 2) % p)
    ensures x / (2 * p) == (x / 2) / p
  {
    var q, r := DivMod(x / 2, p);
    MulRegroup(q, 2, p);
    assert x == q * (2 * p) + (x % 2 + 2 * r);
    DivModUnique(x, 2 * p, q, x % 2 + 2 * r);
  }

  lemma {:induction false} ShrIsDiv(x: nat, n: nat)
    ensures Shr(x, n) == x / Pow2(n)
  {
    if n != 0 {
      ShrIsDiv(x / 2, n - 1);
      ModDouble(x, Pow2(n - 1));
    }
  }

  /** The low bit and the others, under a mask of ones. */
  lemma AndLowBit(x: nat, p: nat)
    requires 1 <= p
    ensures And(x, 2 * p - 1) == x % 2 + 2 * And(x / 2, p - 1)
  {
    var y := 2 * p - 1;
    assert y % 2 == 1 && y / 2 == p - 1;
  }

  /** Masking with 2^k - 1 is reduction modulo 2^k. */
  lemma {:induction false} MaskIsMod(x: nat, k: nat)
    ensures And(x, Pow2(k) - 1) == x % Pow2(k)
  {
    if k == 0 {
      SmallMod(0, 1);
      assert x % 1 == 0;
    } else {
      var p := Pow2(k - 1);
      assert Pow2(k) == 2 * p;
      AndLowBit(x, p);
      MaskIsMod(x / 2, k - 1);
      ModDouble(x, p);
    }
  }

  lemma {:induction false} PowerOfTwoExponent(value: nat) returns (k: nat)
    requires IsPowerOfTwo(value)
    ensures value == Pow2(k)
  {
    if value == 1 {
      return 0;
    }
    var u := value / 2;
    if value % 2 == 1 {
      assert (value - 1) / 2 == u && (value - 1) % 2 == 0;
      AndSelf(u);
      assert false;
    }
    assert (value - 1) / 2 == u - 1;
    assert And(value, value - 1) == 2 * And(u, u - 1);
    k := PowerOfTwoExponent(u);
    k := k + 1;
  }

  /** `is_power_of_two` accepts exactly the powers of two. */
  lemma PowerOfTwoIff(value: nat)
    ensures IsPowerOfTwo(value) <==> exists k: nat :: value == Pow2(k)
  {
    if IsPowerOfTwo(value) {
      var k := PowerOfTwoExponent(value);
    }
    forall k: nat | value == Pow2(k)
      ensures IsPowerOfTwo(value)
    {
      MaskIsMod(value, k);
      DivModUnique(value, value, 1, 0);
    }
  }

  /** For a power of two, `x & (v - 1)` is x mod v. */
  lemma MaskOfPowerOfTwo(x: nat, value: nat)
    requires IsPowerOfTwo(value)
    ensures And(x, value - 1) == x % value
  {
    var k := PowerOfTwoExponent(value);
    MaskIsMod(x, k);
  }

  lemma {:induction false} Pow2Add(a: nat, b: nat)
    ensures Pow2(a + b) == Pow2(a) * Pow2(b)
  {
    if a == 0 {
      assert Pow2(0) * Pow2(b) == Pow2(b);
    } else {
      Pow2Add(a - 1, b);
      assert a + b - 1 == a - 1 + b;
      assert 2 * (Pow2(a - 1) * Pow2(b)) == (2 * Pow2(a - 1)) * Pow2(b);
    }
  }

  lemma WordIsPow2()
    ensures WORD == Pow2(64)
  {
    assert Pow2(4) == 0x10;
    Pow2Add(4, 4);
    Pow2Add(8, 8);
    Pow2Add(16, 16);
    Pow2Add(32, 32);
  }

  /** Reducing by a multiple of `d` first does not change the remainder by `d`. */
  lemma ModOfMod(x: nat, d: nat, m: nat)
    requires 1 <= d && 1 <= m && 1 <= d * m
    ensures (x % (d * m)) % d == x % d
  {
    var q, r := DivMod(x, d * m);
    var q', r' := DivMod(r, d);
    MulRegroup(q, d, m);
    MulDistrib(q * m, q', d);
    DivModUnique(x, d, q * m + q', r');
  }

  /** A power of two that fits a word divides 2^64. */
  lemma PowerOfTwoDividesWord(value: nat) returns (m: nat)
    requires IsPowerOfTwo(value) && value < WORD
    ensures 1 <= m && WORD == value * m
  {
    var k := PowerOfTwoExponent(value);
    WordIsPow2();
    if 64 <= k {
      Pow2Add(64, k - 64);
      MulMono(1, Pow2(k - 64), Pow2(64));
    }
    Pow2Add(k, 64 - k);
    m := Pow2(64 - k);
  }

  /** A counter that wrapped at 2^64 still selects the slot of the unbounded counter. */
  lemma WrapKeepsSlot(x: nat, value: nat)
    requires IsPowerOfTwo(value) && value < WORD
    ensures And(x % WORD, value - 1) == SlotAt(value, x)
  {
    var m := PowerOfTwoDividesWord(value);
    MaskOfPowerOfTwo(x % WORD, value);
    ModOfMod(x, value, m);
    SlotIsMod(value, x);
  }

  /** The cell of a ring that an unbounded counter selects: n modulo the capacity. */
  function SlotAt(capacity: nat, n: nat): (slot: nat)
    requires 1 <= capacity
    ensures slot < capacity
  {
    if n < capacity then n else SlotAt(capacity, n - capacity)
  }

  lemma {:induction false} SlotIsMod(capacity: nat, n: nat)
    requires 1 <= capacity
    ensures SlotAt(capacity, n) == n % capacity
  {
    if n < capacity {
      SmallMod(n, capacity);
    } else {
      SlotIsMod(capacity, n - capacity);
      var q, r := DivMod(n - capacity, capacity);
      MulDistrib(q, 1, capacity);
      DivModUnique(n, capacity, q + 1, r);
    }
  }

  lemma SlotOfNext(capacity: nat, n: nat)
    requires 1 <= capacity
    ensures SlotAt(capacity, n + 1) == if SlotAt(capacity, n) + 1 < capacity then SlotAt(capacity, n) + 1 else 0
  {
    if capacity <= n {
      SlotOfNext(capacity, n - capacity);
    }
  }

  /** Two different counters with one residue are at least the modulus apart. */
  lemma ModGap(a: nat, b: nat, d: nat)
    requires 1 <= d && a < b && a % d == b % d
    ensures d <= b - a
  {
    var qa, ra := DivMod(a, d);
    var qb, rb := DivMod(b, d);
    if qb <= qa {
      MulMono(qb, qa, d);
    } else {
      MulMono(qa + 1, qb, d);
      MulDistrib(qa, 1, d);
    }
  }

  /** Two different counters that select one cell are at least the capacity apart. */
  lemma SlotGap(capacity: nat, a: nat, b: nat)
    requires 1 <= capacity && a < b && SlotAt(capacity, a) == SlotAt(capacity, b)
    ensures capacity <= b - a
  {
  }

  /** The wrapped difference of two counters less than `m` apart is their true difference. */
  lemma WrapDiff(hi: nat, lo: nat, m: nat)
    requires lo <= hi && hi - lo < m
    ensures (hi % m - lo % m) % m == hi - lo
  {
    var n := hi - lo;
    var q, r := DivMod(lo, m);
    SmallMod(n, m);
    if r + n < m {
      DivModUnique(hi, m, q, r + n);
    } else {
      MulDistrib(q, 1, m);
      DivModUnique(hi, m, q + 1, r + n - m);
    }
  }

  /** Adding to a counter before or after it wraps. */
  lemma AddWraps(n: nat, step: nat, m: nat)
    requires 1 <= m
    ensures (n % m + step) % m == (n + step) % m
  {
    var q, r := DivMod(n, m);
    var q', r' := DivMod(r + step, m);
    MulDistrib(q, q', m);
    DivModUnique(n + step, m, q + q', r');
  }

  /** `increment(index)` of the index-based rings. */
  function Increment(index: nat, capacity: nat): nat
    requires 1 <= capacity
  {
    And(index + 1, capacity - 1)
  }

  function Steps(index: nat, capacity: nat, n: nat): nat
    requires 1 <= capacity
  {
    if n == 0 then index else Increment(Steps(index, capacity, n - 1), capacity)
  }

  /** `increment` moves to the next cell, and from the last one to the first. */
  lemma IncrementIsNext(index: nat, capacity: nat)
    requires IsPowerOfTwo(capacity) && index < capacity
    ensures Increment(index, capacity) == SlotAt(capacity, index + 1)
    ensures Increment(index, capacity) == if index + 1 < capacity then index + 1 else 0
  {
    MaskOfPowerOfTwo(index + 1, capacity);
    SlotIsMod(capacity, index + 1);
  }

  lemma {:induction false} StepsClosedForm(index: nat, capacity: nat, n: nat)
    requires IsPowerOfTwo(capacity) && index < capacity
    ensures Steps(index, capacity, n) == SlotAt(capacity, index + n)
  {
    if n != 0 {
      StepsClosedForm(index, capacity, n - 1);
      IncrementIsNext(Steps(index, capacity, n - 1), capacity);
      SlotOfNext(capacity, index + n - 1);
    }
  }

  lemma StepsDistinct(index: nat, capacity: nat, i: nat, j: nat)
    requires IsPowerOfTwo(capacity) && index < capacity && i < j < capacity
    ensures Steps(index, capacity, i) != Steps(index, capacity, j)
  {
    StepsClosedForm(index, capacity, i);
    StepsClosedForm(index, capacity, j);
    if Steps(index, capacity, i) == Steps(index, capacity, j) {
      SlotGap(capacity, index + i, index + j);
    }
  }

  /** How many increments lead from `index` to `slot`. */
  function Distance(index: nat, slot: nat, capacity: nat): nat
    requires index < capacity && slot < capacity
  {
    if index <= slot then slot - index else slot + capacity - index
  }

  lemma StepsReach(index: nat, capacity: nat, slot: nat)
    requires IsPowerOfTwo(capacity) && index < capacity && slot < capacity
    ensures Distance(index, slot, capacity) < capacity
    ensures Steps(index, capacity, Distance(index, slot, capacity)) == slot
  {
    var n := Distance(index, slot, capacity);
    StepsClosedForm(index, capacity, n);
  }

  /** Stepping by `increment` visits every slot exactly once and then is back at the start. */
  lemma IncrementVisitsEverySlot(index: nat, capacity: nat)
    requires IsPowerOfTwo(capacity) && index < capacity
    ensures forall i, j :: 0 <= i < j < capacity ==> Steps(index, capacity, i) != Steps(index, capacity, j)
    ensures forall slot | 0 <= slot < capacity ::
              Distance(index, slot, capacity) < capacity
              && Steps(index, capacity, Distance(index, slot, capacity)) == slot
    ensures Steps(index, capacity, capacity) == index
  {
    forall i, j | 0 <= i < j < capacity
      ensures Steps(index, capacity, i) != Steps(index, capacity, j)
    {
      StepsDistinct(index, capacity, i, j);
    }
    forall slot | 0 <= slot < capacity
      ensures Distance(index, slot, capacity) < capacity
              && Steps(index, capacity, Distance(index, slot, capacity)) == slot
    {
      StepsReach(index, capacity, slot);
    }
    StepsClosedForm(index, capacity, capacity);
  }

  /** Bits placed above position k do not meet the bits below it: there `|` adds. */
  lemma {:induction false} OrDisjoint(lo: nat, hi: nat, k: nat)
    requires lo < Pow2(k)
    ensures Or(lo, hi * Pow2(k)) == lo + hi * Pow2(k)
  {
    if k != 0 && lo != 0 && hi != 0 {
      var p := Pow2(k - 1);
      var y := hi * p;
      OrDisjoint(lo / 2, hi, k - 1);
      MulRegroup(hi, 2, p);
      assert hi * Pow2(k) == 2 * y;
      assert (2 * y) / 2 == y && (2 * y) % 2 == 0;
    }
  }
}
