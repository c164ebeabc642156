/** 32-bit words: bitwise and, prefix masks and the byte order of the network. */
module Words {

  const WORD: nat := 0x1_0000_0000

  type Word = w: int | 0 <= w < 0x1_0000_0000

  function Pow2(n: nat): (p: nat)
    ensures p > 0
  {
    if n == 0 then 1 else 2 * Pow2(n - 1)
  }

  /** Bitwise and, one binary digit at a time. */
  function And(a: nat, b: nat): (r: nat)
    ensures r <= a && r <= b
  {
    if a == 0 || b == 0 then 0
    else 2 * And(a / 2, b / 2) + (if a % 2 == 1 && b % 2 == 1 then 1 else 0)
  }

  /** The low k bits of a number and of the one above them. */
  lemma {:induction false} AndJoin(k: nat, lowA: nat, highA: nat, lowB: nat, highB: nat)
    requires lowA < Pow2(k) && lowB < Pow2(k)
    ensures And(lowA + Pow2(k) * highA, lowB + Pow2(k) * highB) == And(lowA, lowB) + Pow2(k) * And(highA, highB)
  {
    if k > 0 {
      var a, b := lowA + Pow2(k) * highA, lowB + Pow2(k) * highB;
      AndJoin(k - 1, lowA / 2, highA, lowB / 2, highB);
      HalfJoin(k, lowA, highA);
      HalfJoin(k, lowB, highB);
      AndHalves(a, b);
      AndHalves(lowA, lowB);
      Double(Pow2(k - 1), And(highA, highB));
    }
  }

  lemma Double(p: nat, x: nat)
    ensures 2 * p * x == 2 * (p * x)
  {
  }

  lemma HalfJoin(k: nat, low: nat, high: nat)
    requires k > 0 && low < Pow2(k)
    ensures low / 2 < Pow2(k - 1)
    ensures (low + Pow2(k) * high) / 2 == low / 2 + Pow2(k - 1) * high
    ensures (low + Pow2(k) * high) % 2 == low % 2
  {
    Double(Pow2(k - 1), high);
  }

  lemma AndHalves(a: nat, b: nat)
    ensures And(a, b) == 2 * And(a / 2, b / 2) + (if a % 2 == 1 && b % 2 == 1 then 1 else 0)
  {
  }

  lemma {:induction false} AndOnes(k: nat, a: nat)
    requires a < Pow2(k)
    ensures And(a, Pow2(k) - 1) == a
  {
    if k > 0 {
      AndOnes(k - 1, a / 2);
      AndHalves(a, Pow2(k) - 1);
    }
  }

  lemma {:induction false} Pow2Add(a: nat, b: nat)
    ensures Pow2(a + b) == Pow2(a) * Pow2(b)
  {
    if a > 0 {
      Pow2Add(a - 1, b);
      Double(Pow2(a - 1), Pow2(b));
    }
  }

  /** The mask whose low k of 32 bits are clear: ~0u << k, and 0 for k == 32. */
  function HostMask(prefix: nat): (m: Word)
    requires prefix <= 32
  {
    Pow2Bounds(32 - prefix);
    if prefix == 0 then 0 else WORD - Pow2(32 - prefix)
  }

  lemma Pow2Of32()
    ensures Pow2(32) == WORD
  {
    assert Pow2(8) == 256 by {
      Pow2Add(4, 4);
    }
    Pow2Add(8, 8);
    Pow2Add(16, 16);
  }

  lemma Pow2Bounds(k: nat)
    requires k <= 32
    ensures Pow2(k) <= WORD
    ensures Pow2(k) * Pow2(32 - k) == WORD
  {
    Pow2Of32();
    Pow2Add(k, 32 - k);
    Grow(Pow2(32 - k), Pow2(k));
  }

  lemma Grow(a: nat, b: nat)
    requires a > 0
    ensures b <= b * a
  {
  }

  /** The mask as an odd number of blocks. */
  lemma MaskShape(prefix: nat)
    requires prefix <= 32
    ensures Pow2(32 - prefix) * Pow2(prefix) == WORD
    ensures HostMask(prefix) == Pow2(32 - prefix) * (Pow2(prefix) - 1)
  {
    var p, q := Pow2(32 - prefix), Pow2(prefix);
    Pow2Bounds(32 - prefix);
    MinusOne(p, q);
  }

  lemma MinusOne(p: nat, q: nat)
    requires q > 0
    ensures p * (q - 1) == p * q - p
  {
  }

  lemma QuotientBound(a: nat, p: nat, q: nat)
    requires p > 0 && a < p * q
    ensures a == a % p + p * (a / p) && a / p < q && a % p < p
  {
    var d := a / p;
    assert p * d <= a;
    if q <= d {
      Monotone(p, q, d);
      assert false;
    }
  }

  lemma Monotone(p: nat, q: nat, d: nat)
    requires q <= d
    ensures p * q <= p * d
  {
  }

  lemma AndHigh(k: nat, p: nat, low: nat, high: nat, ones: nat)
    requires p == Pow2(k) && low < p
    ensures And(low + p * high, p * ones) == p * And(high, ones)
  {
    AndJoin(k, low, high, 0, ones);
  }

  lemma AndBlocks(a: nat, mask: nat, k: nat, p: nat, n: nat, q: nat)
    requires p == Pow2(k) && q == Pow2(n) && a < p * q && mask == p * (q - 1)
    ensures And(a, mask) == p * (a / p)
  {
    QuotientBound(a, p, q);
    AndHigh(k, p, a % p, a / p, q - 1);
    AndOnes(n, a / p);
  }

  /** Masking an address rounds it down to a multiple of the block size. */
  lemma MaskRoundsDown(a: Word, prefix: nat)
    requires prefix <= 32
    ensures And(a, HostMask(prefix)) == Pow2(32 - prefix) * (a / Pow2(32 - prefix))
  {
    var k := 32 - prefix;
    MaskShape(prefix);
    AndBlocks(a, HostMask(prefix), k, Pow2(k), prefix, Pow2(prefix));
  }

  // ---- Byte order ----

  /** htonl on a little-endian machine: the four octets in the opposite order. */
  function Swap(w: Word): (s: Word) {
    Octets(w / 0x100 / 0x100 / 0x100, w / 0x100 / 0x100 % 0x100, w / 0x100 % 0x100, w % 0x100)
  }

  /** The word with these octets, least significant first. */
  function Octets(b0: nat, b1: nat, b2: nat, b3: nat): nat {
    Join(b0, Join(b1, Join(b2, b3)))
  }

  function Join(low: nat, high: nat): nat {
    low + 0x100 * high
  }

  lemma OctetsOf(w: Word) returns (b0: nat, b1: nat, b2: nat, b3: nat)
    ensures b0 < 0x100 && b1 < 0x100 && b2 < 0x100 && b3 < 0x100
    ensures w == Octets(b0, b1, b2, b3) && Swap(w) == Octets(b3, b2, b1, b0)
  {
    b0, b1, b2, b3 := w % 0x100, w / 0x100 % 0x100, w / 0x100 / 0x100 % 0x100, w / 0x100 / 0x100 / 0x100;
  }

  lemma Octet(low: nat, high: nat)
    requires low < 0x100
    ensures (low + 0x100 * high) % 0x100 == low && (low + 0x100 * high) / 0x100 == high
  {
  }

  lemma SwapOctets(b0: nat, b1: nat, b2: nat, b3: nat)
    requires b0 < 0x100 && b1 < 0x100 && b2 < 0x100 && b3 < 0x100
    ensures Octets(b0, b1, b2, b3) < WORD
    ensures Swap(Octets(b0, b1, b2, b3)) == Octets(b3, b2, b1, b0)
  {
    Octet(b0, b1 + 0x100 * (b2 + 0x100 * b3));
    Octet(b1, b2 + 0x100 * b3);
    Octet(b2, b3);
  }

  lemma SwapInvolution(w: Word)
    ensures Swap(Swap(w)) == w
  {
    var b0, b1, b2, b3 := OctetsOf(w);
    SwapOctets(b3, b2, b1, b0);
  }

  lemma AndJoinOctet(lowA: nat, highA: nat, lowB: nat, highB: nat)
    requires lowA < 0x100 && lowB < 0x100
    ensures And(Join(lowA, highA), Join(lowB, highB)) == Join(And(lowA, lowB), And(highA, highB))
  {
    var k := 8;
    assert Pow2(k) == 0x100 by {
      Pow2Add(4, 4);
    }
    AndJoin(k, lowA, highA, lowB, highB);
  }

  lemma AndOctets(a0: nat, a1: nat, a2: nat, a3: nat, b0: nat, b1: nat, b2: nat, b3: nat)
    requires a0 < 0x100 && a1 < 0x100 && a2 < 0x100 && a3 < 0x100
    requires b0 < 0x100 && b1 < 0x100 && b2 < 0x100 && b3 < 0x100
    ensures And(Octets(a0, a1, a2, a3), Octets(b0, b1, b2, b3))
         == Octets(And(a0, b0), And(a1, b1), And(a2, b2), And(a3, b3))
  {
    AndJoinOctet(a2, a3, b2, b3);
    AndJoinOctet(a1, Join(a2, a3), b1, Join(b2, b3));
    AndJoinOctet(a0, Join(a1, Join(a2, a3)), b0, Join(b1, Join(b2, b3)));
  }

  /** Bitwise and does not care about the byte order. */
  lemma {:induction false} SwapAnd(a: Word, b: Word)
    ensures And(Swap(a), Swap(b)) == Swap(And(a, b))
  {
    var a0, a1, a2, a3 := OctetsOf(a);
    var b0, b1, b2, b3 := OctetsOf(b);
    AndOctets(a0, a1, a2, a3, b0, b1, b2, b3);
    AndOctets(a3, a2, a1, a0, b3, b2, b1, b0);
    SwapOctets(And(a0, b0), And(a1, b1), And(a2, b2), And(a3, b3));
  }
}
