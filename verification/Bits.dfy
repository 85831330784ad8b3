/** Fixed-width words and the bit operations the sources apply to them, on mathematical integers. */
module Bits {

  const TWO16: nat := 0x1_0000
  const TWO32: nat := 0x1_0000_0000
  const TWO64: nat := 0x1_0000_0000_0000_0000

  type byte = x: int | 0 <= x < 256
  type u16 = x: int | 0 <= x < 0x1_0000
  type u32 = x: int | 0 <= x < 0x1_0000_0000
  type u64 = x: int | 0 <= x < 0x1_0000_0000_0000_0000

  /** The operator `&`, bit by bit from the bottom. */
  function And(a: nat, b: nat): (r: nat)
    ensures r <= a && r <= b
    decreases a
  {
    if a == 0 then 0
    else (if a % 2 == 1 && b % 2 == 1 then 1 else 0) + 2 * And(a / 2, b / 2)
  }

  /** The operator `|`, bit by bit from the bottom. */
  function Or(a: nat, b: nat): (r: nat)
    ensures a <= r && b <= r <= a + b
    decreases a + b
  {
    if a == 0 then b
    else if b == 0 then a
    else (if a % 2 == 1 || b % 2 == 1 then 1 else 0) + 2 * Or(a / 2, b / 2)
  }

  /** `x & mask` used as a truth value: some bit is set in both. */
  predicate Has(x: nat, mask: nat)
    decreases x
  {
    x != 0 && ((x % 2 == 1 && mask % 2 == 1) || Has(x / 2, mask / 2))
  }

  function Pow2(k: nat): (r: nat)
    ensures r >= 1
  {
    if k == 0 then 1 else 2 * Pow2(k - 1)
  }

  ghost predicate IsPow2(n: nat) {
    exists k: nat :: n == Pow2(k)
  }

  /** The low k bits of a. */
  function LowBits(a: nat, k: nat): (r: nat)
    decreases k
  {
    if k == 0 then 0 else a % 2 + 2 * LowBits(a / 2, k - 1)
  }

  /** Masking with 2^k - 1 is reduction modulo 2^k. */
  lemma AndMask(a: nat, k: nat)
    ensures And(a, Pow2(k) - 1) == a % Pow2(k)
  {
    AndLowBits(a, k);
    LowBitsMod(a, k);
  }

  lemma {:induction false} AndLowBits(a: nat, k: nat)
    ensures And(a, Pow2(k) - 1) == LowBits(a, k)
    decreases k
  {
    if k == 0 {
      AndZero(a);
    } else if a == 0 {
      AndLowBits(a, k - 1);
    } else {
      AndLowBits(a / 2, k - 1);
      assert (Pow2(k) - 1) / 2 == Pow2(k - 1) - 1;
    }
  }

  lemma {:induction false} LowBitsMod(a: nat, k: nat)
    ensures LowBits(a, k) == a % Pow2(k)
    decreases k
  {
    if k != 0 {
      LowBitsMod(a / 2, k - 1);
      ModDouble(a, Pow2(k - 1));
    }
  }

  lemma AndZero(a: nat)
    ensures And(a, 0) == 0
  {
  }

  lemma ModDouble(a: nat, m: nat)
    requires m >= 1
    ensures a % (2 * m) == a % 2 + 2 * ((a / 2) % m)
  {
    var q, r := (a / 2) / m, (a / 2) % m;
    assert a == 2 * (q * m + r) + a % 2;
    DivModUnique(a, 2 * m, q, 2 * r + a % 2);
  }

  lemma DivModUnique(a: nat, d: nat, q: nat, r: nat)
    requires d >= 1 && a == q * d + r && r < d
    ensures a / d == q && a % d == r
  {
    var k := a / d - q;
    assert k * d == r - a % d;
    MulSmall(k, d, r - a % d);
  }

  lemma MulSmall(k: int, d: int, x: int)
    requires k * d == x && -d < x < d
    ensures k == 0
  {
  }

  /** The bitwise `&` is associative, so masking first by a superset of the tested bits changes nothing. */
  lemma {:induction false} AndAssoc(a: nat, b: nat, c: nat)
    ensures And(And(a, b), c) == And(a, And(b, c))
    decreases a
  {
    if a != 0 {
      AndAssoc(a / 2, b / 2, c / 2);
      AndUnfold(b, c);
      AndUnfold(And(a, b), c);
    }
  }

  lemma {:induction false} AndCommutes(a: nat, b: nat)
    ensures And(a, b) == And(b, a)
    decreases a
  {
    if a != 0 {
      AndCommutes(a / 2, b / 2);
      AndUnfold(b, a);
    }
  }

  lemma {:induction false} AndOverOr(a: nat, b: nat, m: nat)
    ensures And(Or(a, b), m) == Or(And(a, m), And(b, m))
    decreases a + b
  {
    if a != 0 && b != 0 {
      AndOverOr(a / 2, b / 2, m / 2);
      OrUnfold(And(a, m), And(b, m));
      OrUnfold(a, b);
      AndUnfold(Or(a, b), m);
      AndUnfold(a, m);
      AndUnfold(b, m);
    }
  }

  lemma {:induction false} AndSelf(a: nat)
    ensures And(a, a) == a
    decreases a
  {
    if a != 0 {
      AndSelf(a / 2);
    }
  }

  lemma AndUnfold(a: nat, b: nat)
    ensures And(a, b) % 2 == (if a % 2 == 1 && b % 2 == 1 then 1 else 0)
    ensures And(a, b) / 2 == And(a / 2, b / 2)
  {
  }

  /** `|` of two k-bit words is a k-bit word. */
  lemma {:induction false} OrBound(a: nat, b: nat, k: nat)
    requires a < Pow2(k) && b < Pow2(k)
    ensures Or(a, b) < Pow2(k)
    decreases k
  {
    if a != 0 && b != 0 {
      OrBound(a / 2, b / 2, k - 1);
    }
  }

  /** A bit tested in `a | b` is set exactly when it is set in one of the two. */
  lemma {:induction false} OrHas(a: nat, b: nat, m: nat)
    ensures Has(Or(a, b), m) <==> Has(a, m) || Has(b, m)
    decreases a + b
  {
    if a != 0 && b != 0 {
      OrHas(a / 2, b / 2, m / 2);
      OrUnfold(a, b);
    }
  }

  /** Two-sided test: `x & (m1 | m2)` is non-zero exactly when one of the two tests is. */
  lemma {:induction false} HasOr(x: nat, m1: nat, m2: nat)
    ensures Has(x, Or(m1, m2)) <==> Has(x, m1) || Has(x, m2)
    decreases x
  {
    if x != 0 {
      HasOr(x / 2, m1 / 2, m2 / 2);
      OrUnfold(m1, m2);
    }
  }

  lemma OrUnfold(a: nat, b: nat)
    ensures Or(a, b) % 2 == (if a % 2 == 1 || b % 2 == 1 then 1 else 0)
    ensures Or(a, b) / 2 == Or(a / 2, b / 2)
  {
  }

  /** Indices less than n apart fall on different slots of an n-slot ring. */
  lemma ModDistinct(i: nat, j: nat, n: nat)
    requires n >= 1 && i < j < i + n
    ensures i % n != j % n
  {
    assert j - i == (j / n - i / n) * n + (j % n - i % n);
    if i % n == j % n {
      MulSmall(j / n - i / n, n, j - i);
    }
  }

  /** A 64-bit counter masked by a power of two below 2^32 is the unbounded counter reduced by it. */
  lemma MaskedCounter(x: nat, n: nat)
    requires IsPow2(n) && n < TWO32
    ensures And(x % TWO64, n - 1) == x % n
  {
    var k: nat :| n == Pow2(k);
    SmallPower(k);
    LowBits64(x);
    var y := x % TWO64;
    AndMask(y, k);
    LowBitsMod(y, k);
    LowBitsNested(x, 64, k);
    LowBitsMod(x, k);
  }

  lemma LowBits64(x: nat)
    ensures LowBits(x, 64) == x % TWO64
  {
    Pow2Of64();
    LowBitsMod(x, 64);
  }

  lemma SmallPower(k: nat)
    requires Pow2(k) < TWO32
    ensures k <= 64
  {
    Pow2Of64();
    if k > 64 {
      PowMonotone(64, k);
    }
  }

  lemma {:induction false} LowBitsNested(x: nat, j: nat, k: nat)
    requires k <= j
    ensures LowBits(LowBits(x, j), k) == LowBits(x, k)
    decreases k
  {
    if k != 0 {
      LowBitsNested(x / 2, j - 1, k - 1);
      assert LowBits(x, j) / 2 == LowBits(x / 2, j - 1);
    }
  }

  lemma Pow2Of64()
    ensures Pow2(64) == TWO64
  {
    assert Pow2(8) == 256;
    PowSplit(8, 8);
    PowSplit(16, 16);
    PowSplit(32, 32);
  }

  lemma {:induction false} PowSplit(a: nat, b: nat)
    ensures Pow2(a + b) == Pow2(b) * Pow2(a)
    decreases b
  {
    if b != 0 {
      PowSplit(a, b - 1);
      assert Pow2(a + b) == 2 * Pow2(a + (b - 1));
    }
  }

  lemma {:induction false} PowMonotone(a: nat, b: nat)
    requires a <= b
    ensures Pow2(a) <= Pow2(b)
    decreases b
  {
    if a < b {
      PowMonotone(a, b - 1);
    }
  }

  lemma Pow2Of32()
    ensures Pow2(32) == TWO32
  {
    assert Pow2(8) == 256;
    PowSplit(8, 8);
    PowSplit(16, 16);
  }

  function Or32(a: u32, b: u32): (r: u32) {
    Pow2Of32();
    OrBound(a, b, 32);
    Or(a, b)
  }

  function Or64(a: u64, b: u64): (r: u64) {
    Pow2Of64();
    OrBound(a, b, 64);
    Or(a, b)
  }

  function Min(a: int, b: int): (r: int)
    ensures r <= a && r <= b && (r == a || r == b)
  {
    if a <= b then a else b
  }

  lemma {:induction false} DropMultiple(r: nat, q: nat)
    ensures (r + q * TWO64) % TWO64 == r % TWO64
    decreases q
  {
    if q > 0 {
      DropMultiple(r, q - 1);
      assert r + q * TWO64 == (r + (q - 1) * TWO64) + TWO64;
    }
  }
}
