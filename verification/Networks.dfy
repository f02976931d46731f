/**
  IPv4 masks and the address rewriting of routing rules. The bitwise operators of C are
  defined on naturals, bit by bit.
 */
module Networks {
  import opened Arithmetic
  import opened ClientConnections

  function Pow2(k: nat): (r: nat)
    ensures r > 0
  {
    if k == 0 then 1 else 2 * Pow2(k - 1)
  }

  const ALL_ONES: nat := 0xFFFF_FFFF

  predicate IsWord(a: nat) {
    a < 0x1_0000_0000
  }

  function Bit(a: nat, i: nat): nat {
    if i == 0 then a % 2 else Bit(a / 2, i - 1)
  }

  function BitAnd(a: nat, b: nat): nat {
    if a == 0 || b == 0 then 0
    else 2 * BitAnd(a / 2, b / 2) + (if a % 2 == 1 && b % 2 == 1 then 1 else 0)
  }

  function BitOr(a: nat, b: nat): nat
    decreases a + b
  {
    if a == 0 && b == 0 then 0
    else 2 * BitOr(a / 2, b / 2) + (if a % 2 == 1 || b % 2 == 1 then 1 else 0)
  }

  function BitXor(a: nat, b: nat): nat
    decreases a + b
  {
    if a == 0 && b == 0 then 0
    else 2 * BitXor(a / 2, b / 2) + (if a % 2 != b % 2 then 1 else 0)
  }

  /** The left shift of an unsigned 32-bit value, place by place. */
  function ShiftLeft(a: nat, k: nat): nat {
    if k == 0 then a else 2 * ShiftLeft(a, k - 1) % 0x1_0000_0000
  }

  function PrefixMask(prefix: nat): nat
    requires 1 <= prefix <= 32
  {
    ShiftLeft(ALL_ONES, 32 - prefix)
  }

  predicate Matches(net: Network, ip: nat) {
    BitAnd(ip, net.mask) == BitAnd(net.addr, net.mask)
  }

  function Rewrite(ip: nat, to: Network): nat {
    BitOr(BitAnd(ip, BitXor(ALL_ONES, to.mask)), BitAnd(to.addr, to.mask))
  }

  //// The operators, bit by bit

  lemma {:induction false} ZeroBit(i: nat)
    ensures Bit(0, i) == 0
  {
    if i > 0 {
      ZeroBit(i - 1);
    }
  }

  lemma {:induction false} BitRange(a: nat, i: nat)
    ensures Bit(a, i) == 0 || Bit(a, i) == 1
  {
    if i > 0 {
      BitRange(a / 2, i - 1);
    }
  }

  lemma {:induction false} BitAndBit(a: nat, b: nat, i: nat)
    ensures Bit(BitAnd(a, b), i) == if Bit(a, i) == 1 && Bit(b, i) == 1 then 1 else 0
  {
    if a == 0 || b == 0 {
      ZeroBit(i);
    } else if i > 0 {
      BitAndBit(a / 2, b / 2, i - 1);
    }
  }

  lemma {:induction false} BitOrBit(a: nat, b: nat, i: nat)
    ensures Bit(BitOr(a, b), i) == if Bit(a, i) == 1 || Bit(b, i) == 1 then 1 else 0
  {
    if a == 0 && b == 0 {
      ZeroBit(i);
    } else if i > 0 {
      BitOrBit(a / 2, b / 2, i - 1);
    }
  }

  lemma {:induction false} BitXorBit(a: nat, b: nat, i: nat)
    ensures Bit(BitXor(a, b), i) == if Bit(a, i) != Bit(b, i) then 1 else 0
  {
    if a == 0 && b == 0 {
      ZeroBit(i);
    } else if i > 0 {
      BitXorBit(a / 2, b / 2, i - 1);
    }
  }

  /** Numbers below 2^n are determined by their n low bits. */
  lemma {:induction false} SameBits(n: nat, a: nat, b: nat)
    requires a < Pow2(n) && b < Pow2(n)
    requires forall i: nat :: i < n ==> Bit(a, i) == Bit(b, i)
    ensures a == b
  {
    if n > 0 {
      assert Bit(a, 0) == Bit(b, 0);
      forall i: nat | i < n - 1 ensures Bit(a / 2, i) == Bit(b / 2, i) {
        assert Bit(a, i + 1) == Bit(b, i + 1);
      }
      SameBits(n - 1, a / 2, b / 2);
    }
  }

  lemma {:induction false} BitAndBound(n: nat, a: nat, b: nat)
    requires a < Pow2(n) || b < Pow2(n)
    ensures BitAnd(a, b) < Pow2(n)
  {
    if n > 0 {
      BitAndBound(n - 1, a / 2, b / 2);
    }
  }

  lemma {:induction false} BitOrBound(n: nat, a: nat, b: nat)
    requires a < Pow2(n) && b < Pow2(n)
    ensures BitOr(a, b) < Pow2(n)
  {
    if n > 0 {
      BitOrBound(n - 1, a / 2, b / 2);
    }
  }

  //// What matching and rewriting do, for any mask

  predicate AgreeOnMask(net: Network, ip: nat) {
    forall i: nat :: i < 32 && Bit(net.mask, i) == 1 ==> Bit(ip, i) == Bit(net.addr, i)
  }

  /** A network matches an address exactly when they agree on every bit of the mask. */
  lemma MatchesBits(net: Network, ip: nat)
    requires IsWord(net.mask)
    ensures Matches(net, ip) <==> AgreeOnMask(net, ip)
  {
    var a, b := BitAnd(ip, net.mask), BitAnd(net.addr, net.mask);
    if a == b {
      forall i: nat | i < 32 && Bit(net.mask, i) == 1 ensures Bit(ip, i) == Bit(net.addr, i) {
        BitAndBit(ip, net.mask, i);
        BitAndBit(net.addr, net.mask, i);
        BitRange(ip, i);
        BitRange(net.addr, i);
      }
    }
    if AgreeOnMask(net, ip) {
      forall i: nat | i < 32 ensures Bit(a, i) == Bit(b, i) {
        BitAndBit(ip, net.mask, i);
        BitAndBit(net.addr, net.mask, i);
      }
      WordSize();
      BitAndBound(32, ip, net.mask);
      BitAndBound(32, net.addr, net.mask);
      SameBits(32, a, b);
    }
  }

  /** A rewrite takes the bits of the mask from the target and all others from the source. */
  lemma RewriteBits(ip: nat, to: Network, i: nat)
    requires i < 32
    ensures Bit(Rewrite(ip, to), i) == if Bit(to.mask, i) == 1 then Bit(to.addr, i) else Bit(ip, i)
  {
    var hostMask := BitXor(ALL_ONES, to.mask);
    WordSize();
    AllOnesBits(32, i);
    BitXorBit(ALL_ONES, to.mask, i);
    BitAndBit(ip, hostMask, i);
    BitAndBit(to.addr, to.mask, i);
    BitOrBit(BitAnd(ip, hostMask), BitAnd(to.addr, to.mask), i);
    BitRange(to.mask, i);
    BitRange(to.addr, i);
    BitRange(ip, i);
  }

  lemma RewriteIsWord(ip: nat, to: Network)
    requires IsWord(ip) && IsWord(to.addr)
    ensures IsWord(Rewrite(ip, to))
  {
    WordSize();
    BitAndBound(32, ip, BitXor(ALL_ONES, to.mask));
    BitAndBound(32, to.addr, to.mask);
    BitOrBound(32, BitAnd(ip, BitXor(ALL_ONES, to.mask)), BitAnd(to.addr, to.mask));
  }

  lemma {:induction false} AllOnesBits(n: nat, i: nat)
    requires i < n
    ensures Bit(Pow2(n) - 1, i) == 1
  {
    if i > 0 {
      assert (Pow2(n) - 1) / 2 == Pow2(n - 1) - 1;
      AllOnesBits(n - 1, i - 1);
    }
  }

  /**
    With equal masks, "map A to B" is a bijection from the addresses of A onto those of
    B, and the rule with A and B swapped is its inverse.
   */
  lemma MapBijection(a: Network, b: Network, ip: nat)
    requires a.mask == b.mask && IsWord(a.mask) && IsWord(a.addr) && IsWord(b.addr) && IsWord(ip)
    requires Matches(a, ip)
    ensures Matches(b, Rewrite(ip, b))
    ensures Rewrite(Rewrite(ip, b), a) == ip
  {
    var mapped := Rewrite(ip, b);
    var back := Rewrite(mapped, a);
    MatchesBits(a, ip);
    forall i: nat | i < 32
      ensures Bit(b.mask, i) == 1 ==> Bit(mapped, i) == Bit(b.addr, i)
      ensures Bit(back, i) == Bit(ip, i)
    {
      RewriteBits(ip, b, i);
      RewriteBits(mapped, a, i);
    }
    MatchesBits(b, mapped);
    WordSize();
    RewriteIsWord(ip, b);
    RewriteIsWord(mapped, a);
    SameBits(32, back, ip);
  }

  //// Prefix masks, section 3.1 of RFC 4632

  lemma {:induction false} Pow2Sum(j: nat, k: nat)
    ensures Pow2(j + k) == Pow2(j) * Pow2(k)
  {
    if j > 0 {
      Pow2Sum(j - 1, k);
      DoubleProduct(Pow2(k), Pow2(j - 1));
    }
  }

  lemma WordSize()
    ensures Pow2(32) == 0x1_0000_0000
  {
    assert Pow2(8) == 256;
    Pow2Sum(8, 8);
    Pow2Sum(16, 16);
  }

  lemma {:induction false} ShiftedOnes(k: nat)
    requires Pow2(k) < 0x1_0000_0000
    ensures ShiftLeft(ALL_ONES, k) == 0x1_0000_0000 - Pow2(k)
  {
    if k > 0 {
      ShiftedOnes(k - 1);
    }
  }

  lemma PrefixMaskValue(prefix: nat)
    requires 1 <= prefix <= 32
    ensures PrefixMask(prefix) == 0x1_0000_0000 - Pow2(32 - prefix) && Pow2(32 - prefix) < 0x1_0000_0000
  {
    var k := 32 - prefix;
    assert Pow2(k) < 0x1_0000_0000 by {
      WordSize();
      Pow2Sum(prefix, k);
      ProductOrder(1, Pow2(prefix), Pow2(k));
    }
    ShiftedOnes(k);
  }

  /** The mask whose low k of n bits are clear keeps the multiple of 2^k. */
  lemma {:induction false} AndClearsLowBits(n: nat, k: nat, a: nat)
    requires k <= n && a < Pow2(n) && Pow2(k) <= Pow2(n)
    ensures BitAnd(a, Pow2(n) - Pow2(k)) == a / Pow2(k) * Pow2(k)
  {
    if k == 0 {
      AndLowBits(n, a);
      DivModUnique(a, Pow2(n), 0, a);
      DivModUnique(a, 1, a, 0);
    } else {
      var d, b := Pow2(k - 1), Pow2(n - 1) - Pow2(k - 1);
      AndClearsLowBits(n - 1, k - 1, a / 2);
      AndEven(a, b);
      assert Pow2(n) - Pow2(k) == 2 * b;
      TruncateInTwoSteps(a, d);
    }
  }

  lemma TruncateInTwoSteps(a: nat, d: nat)
    requires d > 0
    ensures 2 * (a / 2 / d * d) == a / (2 * d) * (2 * d)
  {
    DivideInTwoSteps(a, d);
    DoubleProduct(a / 2 / d, d);
  }

  lemma AndEven(a: nat, b: nat)
    ensures BitAnd(a, 2 * b) == 2 * BitAnd(a / 2, b)
  {
    if a == 0 || b == 0 {
      assert BitAnd(a / 2, b) == 0;
    } else {
      assert 2 * b / 2 == b && 2 * b % 2 == 0;
    }
  }

  lemma DoubleProduct(q: nat, d: nat)
    ensures q * (2 * d) == 2 * (q * d)
  {
  }

  /** The mask of the k low bits keeps the remainder by 2^k. */
  lemma {:induction false} AndLowBits(k: nat, a: nat)
    ensures BitAnd(a, Pow2(k) - 1) == a % Pow2(k)
  {
    if k > 0 {
      assert (Pow2(k) - 1) / 2 == Pow2(k - 1) - 1;
      AndLowBits(k - 1, a / 2);
      DivideInTwoSteps(a, Pow2(k - 1));
    }
  }

  function PrefixNet(addr: nat, prefix: nat): Network
    requires 1 <= prefix <= 32
  {
    Network(addr, PrefixMask(prefix))
  }

  lemma MaskKeepsQuotient(prefix: nat, ip: nat)
    requires 1 <= prefix <= 32 && IsWord(ip)
    ensures var d := Pow2(32 - prefix); BitAnd(ip, PrefixMask(prefix)) == ip / d * d
  {
    PrefixMaskValue(prefix);
    WordSize();
    AndClearsLowBits(32, 32 - prefix, ip);
  }

  /** Matching a prefix is equality of the quotients by 2^(32 - prefix). */
  lemma PrefixMatchIsQuotient(addr: nat, prefix: nat, ip: nat)
    requires 1 <= prefix <= 32 && IsWord(addr) && IsWord(ip)
    ensures Matches(PrefixNet(addr, prefix), ip) <==> ip / Pow2(32 - prefix) == addr / Pow2(32 - prefix)
  {
    MaskKeepsQuotient(prefix, ip);
    MaskKeepsQuotient(prefix, addr);
    MatchIsQuotient(PrefixNet(addr, prefix), ip, Pow2(32 - prefix));
  }

  lemma MatchIsQuotient(net: Network, ip: nat, d: nat)
    requires d > 0
    requires BitAnd(ip, net.mask) == ip / d * d && BitAnd(net.addr, net.mask) == net.addr / d * d
    ensures Matches(net, ip) <==> ip / d == net.addr / d
  {
    SameMultiple(ip / d, net.addr / d, d);
  }

  /** An address that matches a prefix matches every shorter one. */
  lemma ShorterPrefixMatches(addr: nat, prefix: nat, shorter: nat, ip: nat)
    requires 1 <= shorter <= prefix <= 32 && IsWord(addr) && IsWord(ip)
    requires Matches(PrefixNet(addr, prefix), ip)
    ensures Matches(PrefixNet(addr, shorter), ip)
  {
    PrefixMatchIsQuotient(addr, prefix, ip);
    PrefixMatchIsQuotient(addr, shorter, ip);
    QuotientOfQuotient(ip, prefix - shorter, 32 - prefix);
    QuotientOfQuotient(addr, prefix - shorter, 32 - prefix);
  }

  lemma {:induction false} QuotientOfQuotient(a: nat, j: nat, k: nat)
    ensures a / Pow2(k) / Pow2(j) == a / Pow2(j + k)
  {
    if k == 0 {
      assert a / Pow2(0) == a;
    } else {
      DivideInTwoSteps(a, Pow2(k - 1));
      DivideInTwoSteps(a, Pow2(j + k - 1));
      QuotientOfQuotient(a / 2, j, k - 1);
    }
  }

  /** Rewriting to a prefix replaces the network part and keeps the host part. */
  lemma PrefixRewrite(ip: nat, addr: nat, prefix: nat)
    requires 1 <= prefix <= 32 && IsWord(addr) && IsWord(ip)
    ensures var d := Pow2(32 - prefix); Rewrite(ip, PrefixNet(addr, prefix)) == addr / d * d + ip % d
  {
    var k := 32 - prefix;
    HostMask(prefix);
    MaskKeepsQuotient(prefix, addr);
    AndLowBits(k, ip);
    OrDisjoint(k, ip % Pow2(k), addr / Pow2(k));
  }

  lemma HostMask(prefix: nat)
    requires 1 <= prefix <= 32
    ensures BitXor(ALL_ONES, PrefixMask(prefix)) == Pow2(32 - prefix) - 1
  {
    PrefixMaskValue(prefix);
    WordSize();
    XorPrefixMask(32, 32 - prefix);
  }

  lemma {:induction false} XorPrefixMask(n: nat, k: nat)
    requires k <= n && Pow2(k) <= Pow2(n)
    ensures BitXor(Pow2(n) - 1, Pow2(n) - Pow2(k)) == Pow2(k) - 1
  {
    if n > 0 {
      assert (Pow2(n) - 1) / 2 == Pow2(n - 1) - 1;
      if k == 0 {
        XorPrefixMask(n - 1, 0);
      } else {
        assert (Pow2(n) - Pow2(k)) / 2 == Pow2(n - 1) - Pow2(k - 1);
        XorPrefixMask(n - 1, k - 1);
      }
    }
  }

  lemma {:induction false} OrDisjoint(k: nat, low: nat, high: nat)
    requires low < Pow2(k)
    ensures BitOr(low, high * Pow2(k)) == high * Pow2(k) + low
  {
    if k == 0 {
      OrZero(high);
    } else {
      DoubleProduct(high, Pow2(k - 1));
      OrDisjoint(k - 1, low / 2, high);
      OrEven(low, high * Pow2(k - 1));
    }
  }

  lemma OrEven(a: nat, b: nat)
    ensures BitOr(a, 2 * b) == 2 * BitOr(a / 2, b) + a % 2
  {
  }

  lemma {:induction false} OrZero(a: nat)
    ensures BitOr(0, a) == a
  {
    if a > 0 {
      OrZero(a / 2);
    }
  }
}
