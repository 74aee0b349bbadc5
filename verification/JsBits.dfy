/**
  JavaScript's bit operators on integers: the bit patterns as natural numbers,
  the 32-bit conversions the Number operators go through, and BigInt's `&` with
  a negative (infinitely sign-extended) right operand.
 */
module JsBits {

  function Pow2(n: nat): (p: nat)
    ensures p >= 1
  {
    if n == 0 then 1 else 2 * Pow2(n - 1)
  }

  const TWO_31 := 0x8000_0000
  const TWO_32 := 0x1_0000_0000

  // ---------------------------------------------------------------------
  // Bit patterns
  // ---------------------------------------------------------------------

  function Xor(x: nat, y: nat): nat
    decreases x + y
  {
    if x == 0 && y == 0 then 0
    else (if x % 2 == y % 2 then 0 else 1) + 2 * Xor(x / 2, y / 2)
  }

  /** y may be negative: its bits then run to infinity on the left, as BigInt's do. */
  function And(x: nat, y: int): nat
    decreases x
  {
    if x == 0 then 0
    else (if x % 2 == 1 && y % 2 == 1 then 1 else 0) + 2 * And(x / 2, y / 2)
  }

  function Or(x: nat, y: nat): nat
    decreases x + y
  {
    if x == 0 && y == 0 then 0
    else (if x % 2 == 1 || y % 2 == 1 then 1 else 0) + 2 * Or(x / 2, y / 2)
  }

  /** x shifted right n places, one at a time. */
  function Shr(x: nat, n: nat): nat
    decreases n
  {
    if n == 0 then x else Shr(x / 2, n - 1)
  }

  /** The n low bits of x. */
  function Low(x: nat, n: nat): nat
    decreases n
  {
    if n == 0 then 0 else x % 2 + 2 * Low(x / 2, n - 1)
  }

  // ---------------------------------------------------------------------
  // Number operators: 32 bits in, a signed 32-bit integer out
  // ---------------------------------------------------------------------

  /** x >>> 0 */
  function ToUint32(x: int): (u: nat)
    ensures u < TWO_32
  {
    x % TWO_32
  }

  function ToInt32(x: int): (i: int)
    ensures -TWO_31 <= i < TWO_31 && ToUint32(i) == ToUint32(x)
  {
    var u := ToUint32(x);
    if u < TWO_31 then u else u - TWO_32
  }

  function NumXor(x: int, y: int): int {
    ToInt32(Xor(ToUint32(x), ToUint32(y)))
  }

  function NumAnd(x: int, y: int): int {
    ToInt32(And(ToUint32(x), ToUint32(y)))
  }

  function NumOr(x: int, y: int): int {
    ToInt32(Or(ToUint32(x), ToUint32(y)))
  }

  /** x << n: only the five low bits of the count are used. */
  function NumShl(x: int, n: nat): int {
    ToInt32(ToUint32(x) * Pow2(n % 32))
  }

  /** x >>> n */
  function NumUshr(x: int, n: nat): nat {
    Shr(ToUint32(x), n % 32)
  }

  // ---------------------------------------------------------------------
  // Powers of two
  // ---------------------------------------------------------------------

  lemma {:induction false} Pow2Add(m: nat, n: nat)
    ensures Pow2(m + n) == Pow2(m) * Pow2(n)
  {
    if m == 0 {
    } else {
      Pow2Add(m - 1, n);
    }
  }

  lemma Pow2Values()
    ensures Pow2(0) == 1 && Pow2(1) == 2 && Pow2(4) == 16 && Pow2(8) == 256 && Pow2(16) == 65536
    ensures Pow2(24) == 0x100_0000 && Pow2(31) == TWO_31 && Pow2(32) == TWO_32
  {
    assert Pow2(4) == 16;
    Pow2Add(4, 4);
    Pow2Add(8, 8);
    Pow2Add(16, 8);
    Pow2Add(16, 16);
    assert Pow2(32) == 2 * Pow2(31);
  }

  lemma {:induction false} DivMod(x: nat, n: nat)
    ensures x == Shr(x, n) * Pow2(n) + Low(x, n) && Low(x, n) < Pow2(n)
    ensures x / Pow2(n) == Shr(x, n) && x % Pow2(n) == Low(x, n)
    decreases n
  {
    if n == 0 {
    } else {
      DivMod(x / 2, n - 1);
      var s, p := Shr(x, n), Pow2(n - 1);
      assert x / 2 == s * p + Low(x / 2, n - 1);
      assert s * Pow2(n) == 2 * (s * p);
    }
    DivUnique(x, Pow2(n), Shr(x, n), Low(x, n));
  }

  lemma DivUnique(x: int, d: nat, q: int, r: int)
    requires d > 0 && 0 <= r < d && x == q * d + r
    ensures x / d == q && x % d == r
  {
    var e := x / d - q;
    assert x == (x / d) * d + x % d;
    assert e * d == r - x % d;
    SmallMultiple(e, d);
  }

  lemma SmallMultiple(e: int, d: int)
    requires d > 0 && -d < e * d < d
    ensures e == 0
  {
    if e >= 1 { MultipleGrows(e, d); }
    if e <= -1 { MultipleGrows(-e, d); }
  }

  lemma MultipleGrows(e: int, d: int)
    requires e >= 1 && d > 0
    ensures e * d >= d
  {
    assert (e - 1) * d >= 0;
  }

  // ---------------------------------------------------------------------
  // Laws of Xor
  // ---------------------------------------------------------------------

  lemma XorZero(x: nat)
    ensures Xor(x, 0) == x && Xor(0, x) == x
  {
  }

  lemma XorSelf(x: nat)
    ensures Xor(x, x) == 0
  {
  }

  lemma XorComm(x: nat, y: nat)
    ensures Xor(x, y) == Xor(y, x)
    decreases x + y
  {
  }

  lemma {:induction false} XorAssoc(x: nat, y: nat, z: nat)
    ensures Xor(Xor(x, y), z) == Xor(x, Xor(y, z))
    decreases x + y + z
  {
    if x == 0 && y == 0 && z == 0 {
    } else {
      XorAssoc(x / 2, y / 2, z / 2);
    }
  }

  lemma XorCancel(x: nat, y: nat)
    ensures Xor(Xor(x, y), y) == x
    ensures Xor(x, Xor(x, y)) == y
  {
    XorAssoc(x, y, y);
    XorAssoc(x, x, y);
    XorSelf(x);
    XorSelf(y);
    XorZero(x);
    XorZero(y);
  }

  /** (a + b) + (c + d) == (a + c) + (b + d) */
  lemma XorSwap(a: nat, b: nat, c: nat, d: nat)
    ensures Xor(Xor(a, b), Xor(c, d)) == Xor(Xor(a, c), Xor(b, d))
  {
    XorAssoc(a, b, Xor(c, d));
    XorAssoc(b, c, d);
    XorComm(b, c);
    XorAssoc(c, b, d);
    XorAssoc(a, c, Xor(b, d));
  }

  lemma {:induction false} XorShr(x: nat, y: nat, n: nat)
    ensures Shr(Xor(x, y), n) == Xor(Shr(x, n), Shr(y, n))
    decreases n
  {
    if n == 0 {
    } else {
      XorShr(x / 2, y / 2, n - 1);
    }
  }

  lemma {:induction false} XorFits(x: nat, y: nat, n: nat)
    requires x < Pow2(n) && y < Pow2(n)
    ensures Xor(x, y) < Pow2(n)
    decreases n
  {
    if n == 0 {
    } else {
      XorFits(x / 2, y / 2, n - 1);
    }
  }

  // ---------------------------------------------------------------------
  // Disjoint bits and low masks
  // ---------------------------------------------------------------------

  /** Bits above position n and bits below it neither meet nor carry. */
  lemma {:induction false} DisjointBits(high: nat, low: nat, n: nat)
    requires low < Pow2(n)
    ensures Xor(high * Pow2(n), low) == high * Pow2(n) + low
    ensures Or(high * Pow2(n), low) == high * Pow2(n) + low
    decreases n
  {
    if n == 0 {
      XorZero(high);
      OrZero(high);
    } else {
      var x := high * Pow2(n - 1);
      assert high * Pow2(n) == 2 * x;
      DisjointBits(high, low / 2, n - 1);
      DisjointStep(x, low);
    }
  }

  lemma DisjointStep(x: nat, low: nat)
    requires Xor(x, low / 2) == x + low / 2
    requires Or(x, low / 2) == x + low / 2
    ensures Xor(2 * x, low) == 2 * x + low
    ensures Or(2 * x, low) == 2 * x + low
  {
  }

  lemma OrZero(x: nat)
    ensures Or(x, 0) == x
  {
  }

  /** Masking with n ones keeps the remainder. */
  lemma {:induction false} AndLowMask(x: nat, n: nat)
    ensures And(x, Pow2(n) - 1) == Low(x, n)
    decreases n
  {
    if n == 0 {
      AndZero(x);
    } else {
      var mask := Pow2(n) - 1;
      assert mask % 2 == 1 && mask / 2 == Pow2(n - 1) - 1;
      AndLowMask(x / 2, n - 1);
    }
  }

  lemma AndZero(x: nat)
    ensures And(x, 0) == 0
  {
  }

  /** Only the five low bits of a shift count matter. */
  lemma ShiftCounts(x: int, n: nat)
    ensures NumShl(x, n + 32) == NumShl(x, n) && NumUshr(x, n + 32) == NumUshr(x, n)
    ensures NumShl(x, 0) == ToInt32(x) && NumUshr(x, 0) == ToUint32(x)
  {
    assert (n + 32) % 32 == n % 32;
    hide ToUint32, Pow2;
    Pow2Values();
    assert ToUint32(x) * 1 == ToUint32(x);
  }
}
