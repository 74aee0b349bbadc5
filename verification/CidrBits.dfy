/**
  The masks of CIDR matching, on 32-bit numbers and on BigInts: masking
  compares prefixes.
 */
module CidrBits {
  import opened JsBits

  /** prefix === 0 ? 0 : (~0 << (32 - prefix)) >>> 0 */
  function Mask4(prefix: nat): nat
    requires prefix <= 32
  {
    if prefix == 0 then 0 else ToUint32(NumShl(-1, 32 - prefix))
  }

  predicate MaskTest4(ip: nat, network: nat, prefix: nat)
    requires prefix <= 32
  {
    NumAnd(ip, Mask4(prefix)) == NumAnd(network, Mask4(prefix))
  }

  /** prefix === 0 ? 0n : ~0n << BigInt(128 - prefix) */
  function Mask6(prefix: nat): int
    requires prefix <= 128
  {
    if prefix == 0 then 0 else -1 * Pow2(128 - prefix)
  }

  predicate MaskTest6(ip: nat, network: nat, prefix: nat)
    requires prefix <= 128
  {
    And(ip, Mask6(prefix)) == And(network, Mask6(prefix))
  }

  lemma {:induction false} LowAll(x: nat, n: nat)
    requires x < Pow2(n)
    ensures Low(x, n) == x && Shr(x, n) == 0
    decreases n
  {
    if n == 0 {
    } else {
      LowAll(x / 2, n - 1);
    }
  }

  /** x with its k low bits cleared. */
  function Cleared(x: nat, k: nat): nat {
    Shr(x, k) * Pow2(k)
  }

  lemma ClearedHalf(x: nat, k: nat)
    requires k > 0
    ensures Cleared(x, k) == 2 * Cleared(x / 2, k - 1)
  {
    var s, p := Shr(x / 2, k - 1), Pow2(k - 1);
    assert s * (2 * p) == 2 * (s * p);
  }

  lemma ClearedAll(x: nat, n: nat)
    requires x < Pow2(n)
    ensures Cleared(x, n) == 0
  {
    LowAll(x, n);
    hide Pow2, Shr;
  }

  lemma AndEven(x: nat, y: int)
    ensures And(x, 2 * y) == 2 * And(x / 2, y)
  {
    assert (2 * y) % 2 == 0 && (2 * y) / 2 == y;
  }

  lemma AndFullMask(x: nat, n: nat)
    requires x < Pow2(n)
    ensures And(x, Pow2(n) - Pow2(0)) == Cleared(x, 0)
  {
    hide And, Low, Cleared, Shr;
    ClearedNothing(x);
    AndLowMask(x, n);
    LowAll(x, n);
  }

  lemma ClearedNothing(x: nat)
    ensures Pow2(0) == 1 && Cleared(x, 0) == x
  {
    assert Shr(x, 0) == x;
  }

  /** Ones from position k up to n. */
  lemma {:induction false} AndHighMask(x: nat, n: nat, k: nat)
    requires x < Pow2(n) && k <= n
    ensures And(x, Pow2(n) - Pow2(k)) == Cleared(x, k)
    decreases k
  {
    hide And, Cleared;
    if k == 0 {
      AndFullMask(x, n);
    } else {
      AndHighMask(x / 2, n - 1, k - 1);
      assert Pow2(n) - Pow2(k) == 2 * (Pow2(n - 1) - Pow2(k - 1));
      AndEven(x, Pow2(n - 1) - Pow2(k - 1));
      ClearedHalf(x, k);
    }
  }

  /** Ones from position k to infinity. */
  lemma {:induction false} AndNegative(x: nat, k: nat)
    ensures And(x, -1 * Pow2(k)) == Cleared(x, k)
    decreases k
  {
    if k == 0 {
      AndAllOnes(x);
    } else {
      hide And, Cleared;
      AndNegative(x / 2, k - 1);
      AndEven(x, -1 * Pow2(k - 1));
      ClearedHalf(x, k);
    }
  }

  lemma {:induction false} AndAllOnes(x: nat)
    ensures And(x, -1) == x
    decreases x
  {
    if x == 0 {
    } else {
      AndAllOnes(x / 2);
    }
  }

  lemma SameMultiple(a: nat, b: nat, p: nat)
    requires p > 0
    ensures a * p == b * p <==> a == b
  {
    if a * p == b * p {
      assert (a - b) * p == 0;
      SmallMultiple(a - b, p);
    }
  }

  lemma {:induction false} Pow2Grows(m: nat, n: nat)
    requires m <= n
    ensures Pow2(m) <= Pow2(n)
  {
    if m == n {
    } else {
      Pow2Grows(m, n - 1);
    }
  }

  lemma Mask4Is(prefix: nat)
    requires prefix <= 32
    ensures Mask4(prefix) == Pow2(32) - Pow2(32 - prefix)
  {
    Pow2Values();
    var k := 32 - prefix;
    Pow2Grows(k, 32);
    if prefix > 0 {
      hide Pow2;
      assert k % 32 == k;
      Pow2Grows(0, k);
      var p := Pow2(k);
      assert ToUint32(-1) == TWO_32 - 1;
      assert (TWO_32 - 1) * p == (p - 1) * TWO_32 + (TWO_32 - p);
      DivUnique((TWO_32 - 1) * p, TWO_32, p - 1, TWO_32 - p);
    }
  }

  lemma AndBelow(x: nat, y: int)
    ensures And(x, y) <= x
    decreases x
  {
    if x == 0 {
    } else {
      AndBelow(x / 2, y / 2);
    }
  }

  lemma Masked4(x: nat, prefix: nat)
    requires x < TWO_32 && prefix <= 32
    ensures And(x, Mask4(prefix)) == Cleared(x, 32 - prefix) < TWO_32
    ensures Mask4(prefix) < TWO_32
  {
    Pow2Values();
    hide Pow2, Mask4, And, Shr, Cleared;
    Mask4Is(prefix);
    AndHighMask(x, 32, 32 - prefix);
    AndBelow(x, Mask4(prefix));
  }

  lemma SameInt32(x: nat, y: nat)
    requires x < TWO_32 && y < TWO_32
    ensures ToInt32(x) == ToInt32(y) <==> x == y
  {
  }

  lemma NumAndIs(x: nat, mask: nat)
    requires x < TWO_32 && mask < TWO_32
    ensures NumAnd(x, mask) == ToInt32(And(x, mask))
  {
    hide And;
    assert ToUint32(x) == x && ToUint32(mask) == mask;
  }

  /** The bits of x from position k on. */
  function Leading(x: nat, k: nat): int {
    x / Pow2(k)
  }

  lemma SameLeading(a: nat, b: nat, k: nat)
    ensures Cleared(a, k) == Cleared(b, k) <==> Leading(a, k) == Leading(b, k)
  {
    hide Pow2, Shr;
    DivMod(a, k);
    DivMod(b, k);
    SameMultiple(Shr(a, k), Shr(b, k), Pow2(k));
  }

  /** For every prefix length 0 to 32 the mask test compares the leading bits. */
  lemma Mask4IsPrefixEquality(ip: nat, network: nat, prefix: nat)
    requires ip < TWO_32 && network < TWO_32 && prefix <= 32
    ensures MaskTest4(ip, network, prefix) <==> Leading(ip, 32 - prefix) == Leading(network, 32 - prefix)
  {
    hide Mask4, And, Cleared, ToInt32, NumAnd, Leading;
    Masked4(ip, prefix);
    Masked4(network, prefix);
    NumAndIs(ip, Mask4(prefix));
    NumAndIs(network, Mask4(prefix));
    SameInt32(And(ip, Mask4(prefix)), And(network, Mask4(prefix)));
    SameLeading(ip, network, 32 - prefix);
  }

  lemma Masked6(x: nat, prefix: nat)
    requires x < Pow2(128) && prefix <= 128
    ensures And(x, Mask6(prefix)) == Cleared(x, 128 - prefix)
  {
    hide Pow2, And, Cleared;
    if prefix == 0 {
      ClearedAll(x, 128);
      AndZero(x);
    } else {
      AndNegative(x, 128 - prefix);
    }
  }

  /** For every prefix length 0 to 128 the BigInt mask test compares the leading bits. */
  lemma Mask6IsPrefixEquality(ip: nat, network: nat, prefix: nat)
    requires ip < Pow2(128) && network < Pow2(128) && prefix <= 128
    ensures MaskTest6(ip, network, prefix) <==> Leading(ip, 128 - prefix) == Leading(network, 128 - prefix)
  {
    hide Pow2, And, Cleared, Mask6, Leading;
    Masked6(ip, prefix);
    Masked6(network, prefix);
    SameLeading(ip, network, 128 - prefix);
  }

  lemma {:induction false} ShrTwice(x: nat, m: nat, n: nat)
    ensures Shr(Shr(x, m), n) == Shr(x, m + n)
    decreases m
  {
    if m == 0 {
    } else {
      ShrTwice(x / 2, m - 1, n);
    }
  }

  /** Equal longer prefixes are equal shorter prefixes. */
  lemma ShorterPrefix(a: nat, b: nat, width: nat, long: nat, short: nat)
    requires short <= long <= width && Leading(a, width - long) == Leading(b, width - long)
    ensures Leading(a, width - short) == Leading(b, width - short)
  {
    LeadingIsShr(a, width - long);
    LeadingIsShr(b, width - long);
    LeadingIsShr(a, width - short);
    LeadingIsShr(b, width - short);
    hide Leading, Shr;
    ShrTwice(a, width - long, long - short);
    ShrTwice(b, width - long, long - short);
  }

  lemma LeadingIsShr(x: nat, k: nat)
    ensures Leading(x, k) == Shr(x, k)
  {
    DivMod(x, k);
  }
}
