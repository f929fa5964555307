/** IPv4 addresses and prefixes as the controllers compute them: 32-bit integers,
    masking, overlap, the split of a prefix into two children, and the only text
    spelling netip accepts for an IPv4 value. */
module Ipv4 {
  import opened Wrappers

  const SPACE := 0x1_0000_0000

  type Addr = a: int | 0 <= a < SPACE

  type Bits = b: int | 0 <= b <= 32

  // ---- Masks ----

  /** Number of addresses in a prefix of this length. */
  function Size(bits: Bits): (s: int)
    ensures s > 0
    decreases 32 - bits
  {
    if bits == 32 then 1 else 2 * Size(bits + 1)
  }

  /** The leading bits of an address: the block of the given length it lies in. */
  function Block(a: Addr, bits: Bits): (k: int) {
    a / Size(bits)
  }

  datatype Prefix = Prefix(addr: Addr, bits: Bits) {

    predicate Contains(a: Addr) {
      Block(a, bits) == Block(addr, bits)
    }

    /** netip.Prefix.Overlaps: equal leading bits at the shorter of both lengths. */
    predicate Overlaps(other: Prefix) {
      var shorter := if bits < other.bits then bits else other.bits;
      Block(addr, shorter) == Block(other.addr, shorter)
    }

    /** Equal to its own mask: no host bits set. */
    predicate Canonical() {
      addr % Size(bits) == 0
    }

    /** netip.Prefix.Masked().Addr() */
    function Network(): (n: Addr) {
      NetworkInSpace(addr, bits);
      Block(addr, bits) * Size(bits)
    }

    /** The address with every host bit set; `v |= ^uint32(0) >> bits` sets exactly those. */
    function Last(): (n: Addr) {
      NetworkInSpace(addr, bits);
      Block(addr, bits) * Size(bits) + Size(bits) - 1
    }
  }

  /** netip.Addr.IsGlobalUnicast for an IPv4 address. */
  predicate GlobalUnicast(a: Addr) {
    && a != 0 && a != 0xFFFF_FFFF
    && !Loopback(a) && !LinkLocal(a)
    && a / 0x1000_0000 != 14
  }

  predicate Loopback(a: Addr) {
    a / 0x100_0000 == 127
  }

  predicate LinkLocal(a: Addr) {
    a / 0x1_0000 == 0xA9FE
  }

  // ---- Arithmetic of blocks ----

  lemma MulAtMost(a: int, b: int, s: int)
    requires a <= b && s >= 0
    ensures a * s <= b * s
  {
  }

  lemma SmallMultiple(d: int, k: int)
    requires -d < d * k < d
    ensures k == 0
  {
  }

  lemma DivIs(a: int, d: int, q: int, r: int)
    requires d > 0 && 0 <= r < d && a == d * q + r
    ensures a / d == q && a % d == r
  {
    assert d * (a / d - q) == r - a % d;
    SmallMultiple(d, a / d - q);
  }

  /** The block of size s around a stays below n blocks of that size. */
  lemma BlockBelow(a: int, s: int, n: int)
    requires s > 0 && 0 <= a < n * s
    ensures 0 <= a / s * s <= a <= a / s * s + s - 1 < n * s
  {
    var k := a / s;
    assert a == s * k + a % s;
    if n <= k {
      MulAtMost(n, k, s);
    }
    MulAtMost(k + 1, n, s);
    assert (k + 1) * s == k * s + s;
  }

  lemma Halve(a: int, s: int)
    requires s > 0
    ensures a / (2 * s) == (a / s) / 2
  {
    var q, r := a / s, a % s;
    var h, t := q / 2, q % 2;
    assert a == s * (2 * h + t) + r;
    assert s * (2 * h + t) == (2 * s) * h + s * t;
    assert 0 <= s * t + r < 2 * s;
    DivIs(a, 2 * s, h, s * t + r);
  }

  lemma SizeWhole()
    ensures Size(0) == SPACE
  {
    assert Size(28) == 16;
    assert Size(24) == 0x100;
    assert Size(20) == 0x1000;
    assert Size(16) == 0x1_0000;
    assert Size(12) == 0x10_0000;
    assert Size(8) == 0x100_0000;
    assert Size(4) == 0x1000_0000;
  }

  /** A shorter prefix length is a whole multiple of a longer one. */
  lemma {:induction false} SizeRatio(short: Bits, long: Bits) returns (n: int)
    requires short <= long
    ensures n > 0 && Size(short) == n * Size(long)
    decreases long - short
  {
    if short == long {
      n := 1;
    } else {
      var m := SizeRatio(short + 1, long);
      n := 2 * m;
    }
  }

  lemma NetworkInSpace(a: Addr, bits: Bits)
    ensures 0 <= Block(a, bits) * Size(bits) <= a <= Block(a, bits) * Size(bits) + Size(bits) - 1 < SPACE
  {
    var n := SizeRatio(0, bits);
    SizeWhole();
    BlockBelow(a, Size(bits), n);
  }

  /** Agreeing at a longer length implies agreeing at every shorter one. */
  lemma {:induction false} Coarsen(a: Addr, b: Addr, short: Bits, long: Bits)
    requires short <= long
    requires Block(a, long) == Block(b, long)
    ensures Block(a, short) == Block(b, short)
    decreases long - short
  {
    if short < long {
      Coarsen(a, b, short + 1, long);
      Halve(a, Size(short + 1));
      Halve(b, Size(short + 1));
    }
  }

  // ---- Nested or disjoint ----

  /** Two prefixes overlap exactly when some address lies in both. */
  lemma OverlapsIffShared(p: Prefix, q: Prefix)
    ensures p.Overlaps(q) <==> exists a: Addr :: p.Contains(a) && q.Contains(a)
  {
    if p.Overlaps(q) {
      assert p.Contains(if p.bits < q.bits then q.addr else p.addr);
      assert q.Contains(if p.bits < q.bits then q.addr else p.addr);
    }
    forall a: Addr | p.Contains(a) && q.Contains(a)
      ensures p.Overlaps(q)
    {
      SharedOverlap(p, q, a);
    }
  }

  lemma SharedOverlap(p: Prefix, q: Prefix, a: Addr)
    requires p.Contains(a) && q.Contains(a)
    ensures p.Overlaps(q)
  {
    var m := if p.bits < q.bits then p.bits else q.bits;
    Coarsen(a, p.addr, m, p.bits);
    Coarsen(a, q.addr, m, q.bits);
  }

  lemma OverlapsSymmetric(p: Prefix, q: Prefix)
    ensures p.Overlaps(q) <==> q.Overlaps(p)
    ensures p.Overlaps(p)
  {
  }

  /** Overlapping prefixes nest: the shorter contains all of the longer. */
  lemma Nested(p: Prefix, q: Prefix, a: Addr)
    requires p.Overlaps(q) && p.bits <= q.bits && q.Contains(a)
    ensures p.Contains(a)
  {
    Coarsen(a, q.addr, p.bits, q.bits);
  }

  lemma SameBlock(a: int, b: int, s: int)
    requires s > 0 && a >= 0 && b >= 0
    ensures a / s == b / s <==> b / s * s <= a <= b / s * s + s - 1
    ensures b / s * s == b - b % s
  {
    var j, k := a / s, b / s;
    assert a == s * j + a % s && b == s * k + b % s;
    if j < k {
      MulAtMost(j + 1, k, s);
      assert (j + 1) * s == j * s + s;
    } else if k < j {
      MulAtMost(k + 1, j, s);
      assert (k + 1) * s == k * s + s;
    }
  }

  /** A prefix holds exactly the addresses from its network address to its last one, as many as its size, its own among them. */
  lemma PrefixRange(p: Prefix, a: Addr)
    ensures p.Contains(a) <==> p.Network() <= a <= p.Last()
    ensures p.Network() == p.addr - p.addr % Size(p.bits) && p.Last() == p.Network() + Size(p.bits) - 1
  {
    hide Size;
    SameBlock(a, p.addr, Size(p.bits));
  }

  /** Sizes double with every bit given up. */
  lemma Sizes()
    ensures Size(32) == 1 && Size(31) == 2 && Size(30) == 4 && Size(24) == 0x100 && Size(16) == 0x1_0000 && Size(8) == 0x100_0000
    ensures Size(0) == 0x1_0000_0000 && forall b: Bits :: b < 32 ==> Size(b) == 2 * Size(b + 1)
  {
    SizeWhole();
    assert Size(28) == 16 && Size(20) == 0x1000 && Size(12) == 0x10_0000;
  }

  /** What counts as a unicast address, by its first two bytes: neither unspecified nor broadcast, not in 127.0.0.0/8,
      169.254.0.0/16 or 224.0.0.0/4. */
  lemma UnicastRanges(p: int, q: int, rest: int)
    requires 0 <= p < 256 && 0 <= q < 256 && 0 <= rest < 0x1_0000
    ensures var a := p * 0x100_0000 + q * 0x1_0000 + rest;
      GlobalUnicast(a) <==> a != 0 && a != 0xFFFF_FFFF && p != 127 && !(p == 169 && q == 254) && !(224 <= p < 240)
  {
  }

  // ---- Children ----

  /** `n | bit` for a single bit of the given weight. */
  function SetBit(n: Addr, weight: int): (m: int)
    requires weight > 0
  {
    if n / weight % 2 == 1 then n else n + weight
  }

  /** Halving a block of size t: the arithmetic behind both children. */
  lemma HalveBlock(n: int, s: int, t: int)
    requires s > 0 && n >= 0 && t == 2 * s && n % t == 0
    ensures n == n / t * t
    ensures n / s == 2 * (n / t) && n % s == 0
    ensures (n + s) / s == 2 * (n / t) + 1 && (n + s) % s == 0
  {
    var k := n / t;
    assert n == t * k;
    assert (2 * s) * k == s * (2 * k);
    DivIs(n, s, 2 * k, 0);
    assert s * (2 * k + 1) == s * (2 * k) + s;
    DivIs(n + s, s, 2 * k + 1, 0);
  }

  lemma BitInSpace(p: Prefix)
    requires p.Canonical() && p.bits < 32
    ensures p.addr + Size(p.bits) <= SPACE
    ensures SetBit(p.addr, Size(p.bits + 1)) == p.addr + Size(p.bits + 1)
  {
    var s, t := Size(p.bits + 1), Size(p.bits);
    HalveBlock(p.addr, s, t);
    NetworkInSpace(p.addr, p.bits);
    assert p.addr / t * t == p.addr;
  }

  /** The two halves of a prefix, computed by setting the first host bit. */
  function Children(p: Prefix): (c: (Prefix, Prefix))
    requires p.Canonical() && p.bits < 32
  {
    BitInSpace(p);
    (Prefix(p.addr, p.bits + 1), Prefix(SetBit(p.addr, Size(p.bits + 1)), p.bits + 1))
  }

  /** The leading bits of both children, and that both are canonical. */
  lemma ChildBlocks(p: Prefix)
    requires p.Canonical() && p.bits < 32
    ensures var (low, high) := Children(p);
            && Block(low.addr, low.bits) == 2 * Block(p.addr, p.bits)
            && Block(high.addr, high.bits) == 2 * Block(p.addr, p.bits) + 1
            && low.Canonical() && high.Canonical()
  {
    BitInSpace(p);
    HalveBlock(p.addr, Size(p.bits + 1), Size(p.bits));
  }

  lemma HalveIs(x: int, k: int)
    ensures x / 2 == k <==> x == 2 * k || x == 2 * k + 1
  {
  }

  /** The children are canonical, cover their parent exactly, and share no address. */
  lemma ChildrenPartition(p: Prefix, a: Addr)
    requires p.Canonical() && p.bits < 32
    ensures var (low, high) := Children(p);
            && low.Canonical() && high.Canonical() && low != high
            && (p.Contains(a) <==> low.Contains(a) || high.Contains(a))
            && !(low.Contains(a) && high.Contains(a))
  {
    ChildBlocks(p);
    Halve(a, Size(p.bits + 1));
    assert Block(a, p.bits) == Block(a, p.bits + 1) / 2;
    HalveIs(Block(a, p.bits + 1), Block(p.addr, p.bits));
  }

  // ---- Text ----

  function Digit(n: int): (c: char)
    requires 0 <= n < 10
    ensures c as int == 48 + n
  {
    (48 + n) as char
  }

  /** Decimal spelling without leading zeros, for numbers below 1000. */
  function Decimal(n: int): (s: string)
    requires 0 <= n < 1000
    ensures forall c :: c in s ==> 48 <= c as int <= 57
  {
    if n < 10 then [Digit(n)]
    else if n < 100 then [Digit(n / 10), Digit(n % 10)]
    else [Digit(n / 100), Digit(n / 10 % 10), Digit(n % 10)]
  }

  function Octet(a: Addr, i: int): (o: int)
    requires 0 <= i < 4
    ensures 0 <= o < 256
  {
    match i
    case 0 => a / 0x100_0000
    case 1 => a / 0x1_0000 % 256
    case 2 => a / 0x100 % 256
    case _ => a % 256
  }

  function AddrText(a: Addr): (s: string) {
    Decimal(Octet(a, 0)) + ("." + (Decimal(Octet(a, 1)) + ("." + (Decimal(Octet(a, 2)) + ("." + Decimal(Octet(a, 3)))))))
  }

  function PrefixText(p: Prefix): (s: string) {
    AddrText(p.addr) + ("/" + Decimal(p.bits))
  }

  lemma Octets(p: int, q: int, r: int, t: int)
    requires 0 <= p < 256 && 0 <= q < 256 && 0 <= r < 256 && 0 <= t < 256
    ensures var a := p * 0x100_0000 + q * 0x1_0000 + r * 0x100 + t;
      Octet(a, 0) == p && Octet(a, 1) == q && Octet(a, 2) == r && Octet(a, 3) == t
  {
    var a := p * 0x100_0000 + q * 0x1_0000 + r * 0x100 + t;
    DivIs(a, 0x100_0000, p, q * 0x1_0000 + r * 0x100 + t);
    DivIs(a, 0x1_0000, p * 256 + q, r * 256 + t);
    DivIs(a, 0x100, p * 0x1_0000 + q * 256 + r, t);
    DivIs(p * 256 + q, 256, p, q);
    DivIs(p * 0x1_0000 + q * 256 + r, 256, p * 256 + q, r);
  }

  /** The spelling, byte by byte. */
  lemma Dotted(p: int, q: int, r: int, t: int)
    requires 0 <= p < 256 && 0 <= q < 256 && 0 <= r < 256 && 0 <= t < 256
    ensures var a := p * 0x100_0000 + q * 0x1_0000 + r * 0x100 + t;
      AddrText(a) == Decimal(p) + ("." + (Decimal(q) + ("." + (Decimal(r) + ("." + Decimal(t))))))
  {
    hide Decimal, Octet;
    Octets(p, q, r, t);
  }

  lemma Spelled()
    ensures AddrText(0x0A01_C807) == "10.1.200.7" && PrefixText(Prefix(0x0A01_0000, 16)) == "10.1.0.0/16"
  {
    hide AddrText;
    assert Decimal(10) == "10" && Decimal(1) == "1" && Decimal(200) == "200" && Decimal(7) == "7" && Decimal(0) == "0" && Decimal(16) == "16";
    hide Decimal;
    Dotted(10, 1, 200, 7);
    Dotted(10, 1, 0, 0);
  }

  /** The number a decimal spelling of at most three digits stands for. */
  function Value(s: string): (n: int)
    requires 1 <= |s| <= 3
  {
    var d := i requires 0 <= i < |s| => s[i] as int - 48;
    if |s| == 1 then d(0)
    else if |s| == 2 then 10 * d(0) + d(1)
    else 100 * d(0) + 10 * d(1) + d(2)
  }

  lemma ValueOfDecimal(n: int)
    requires 0 <= n < 1000
    ensures Value(Decimal(n)) == n
  {
  }

  lemma DecimalInjective(m: int, n: int)
    requires 0 <= m < 1000 && 0 <= n < 1000
    requires Decimal(m) == Decimal(n)
    ensures m == n
  {
    ValueOfDecimal(m);
    ValueOfDecimal(n);
  }

  function Before(s: string, sep: char): (r: string) {
    if s == [] || s[0] == sep then [] else [s[0]] + Before(s[1..], sep)
  }

  lemma {:induction false} BeforeSeparator(a: string, b: string, sep: char)
    requires sep !in a
    ensures Before(a + ([sep] + b), sep) == a
  {
    if a != [] {
      assert (a + ([sep] + b))[1..] == a[1..] + ([sep] + b);
      BeforeSeparator(a[1..], b, sep);
    }
  }

  /** Text before the first separator is determined by the whole. */
  lemma SplitInjective(a: string, b: string, c: string, d: string, sep: char)
    requires sep !in a && sep !in c
    requires a + ([sep] + b) == c + ([sep] + d)
    ensures a == c && b == d
  {
    BeforeSeparator(a, b, sep);
    BeforeSeparator(c, d, sep);
    assert b == (a + ([sep] + b))[|a| + 1..] && d == (c + ([sep] + d))[|c| + 1..];
  }

  lemma AddrTextInjective(a: Addr, b: Addr)
    requires AddrText(a) == AddrText(b)
    ensures a == b
  {
    var a3, b3 := Decimal(Octet(a, 3)), Decimal(Octet(b, 3));
    var a2, b2 := Decimal(Octet(a, 2)) + ("." + a3), Decimal(Octet(b, 2)) + ("." + b3);
    var a1, b1 := Decimal(Octet(a, 1)) + ("." + a2), Decimal(Octet(b, 1)) + ("." + b2);
    SplitInjective(Decimal(Octet(a, 0)), a1, Decimal(Octet(b, 0)), b1, '.');
    SplitInjective(Decimal(Octet(a, 1)), a2, Decimal(Octet(b, 1)), b2, '.');
    SplitInjective(Decimal(Octet(a, 2)), a3, Decimal(Octet(b, 2)), b3, '.');
    forall i | 0 <= i < 4
      ensures Octet(a, i) == Octet(b, i)
    {
      DecimalInjective(Octet(a, i), Octet(b, i));
    }
    OctetsRebuild(a);
    OctetsRebuild(b);
  }

  lemma OctetsRebuild(a: Addr)
    ensures a == Octet(a, 0) * 0x100_0000 + Octet(a, 1) * 0x1_0000 + Octet(a, 2) * 0x100 + Octet(a, 3)
  {
  }

  lemma AddrTextChars(a: Addr)
    ensures '/' !in AddrText(a)
  {
    hide Octet;
  }

  lemma PrefixTextInjective(p: Prefix, q: Prefix)
    requires PrefixText(p) == PrefixText(q)
    ensures p == q
  {
    AddrTextChars(p.addr);
    AddrTextChars(q.addr);
    SplitInjective(AddrText(p.addr), Decimal(p.bits), AddrText(q.addr), Decimal(q.bits), '/');
    AddrTextInjective(p.addr, q.addr);
    DecimalInjective(p.bits, q.bits);
  }

  /** netip.ParseAddr restricted to IPv4. It accepts exactly the spelling it prints. */
  function ParseAddr(s: string): (r: Option<Addr>)
    ensures r.Some? ==> AddrText(r.value) == s
    ensures r.None? ==> forall a: Addr :: AddrText(a) != s
  {
    if exists a: Addr | 0 <= a < SPACE :: AddrText(a) == s then
      assert forall a: Addr, b: Addr | AddrText(a) == s && AddrText(b) == s :: a == b by {
        forall a: Addr, b: Addr | AddrText(a) == s && AddrText(b) == s ensures a == b {
          AddrTextInjective(a, b);
        }
      }
      var a: Addr :| 0 <= a < SPACE && AddrText(a) == s;
      Some(a)
    else
      None
  }

  /** netip.ParsePrefix restricted to IPv4; host bits may be set. */
  function ParsePrefix(s: string): (r: Option<Prefix>)
    ensures r.Some? ==> PrefixText(r.value) == s
    ensures r.None? ==> forall p: Prefix :: PrefixText(p) != s
  {
    if exists a: Addr, b: Bits | 0 <= a < SPACE && 0 <= b <= 32 :: PrefixText(Prefix(a, b)) == s then
      assert forall p: Prefix, q: Prefix | PrefixText(p) == s && PrefixText(q) == s :: p == q by {
        forall p: Prefix, q: Prefix | PrefixText(p) == s && PrefixText(q) == s ensures p == q {
          PrefixTextInjective(p, q);
        }
      }
      var a: Addr, b: Bits :| 0 <= a < SPACE && 0 <= b <= 32 && PrefixText(Prefix(a, b)) == s;
      Some(Prefix(a, b))
    else
      None
  }

  /** Printing and parsing are inverse. */
  lemma ParsePrinted(p: Prefix)
    ensures ParsePrefix(PrefixText(p)) == Some(p)
    ensures ParseAddr(AddrText(p.addr)) == Some(p.addr)
  {
    PrefixTextInjective(p, ParsePrefix(PrefixText(p)).value);
    AddrTextInjective(p.addr, ParseAddr(AddrText(p.addr)).value);
  }
}
