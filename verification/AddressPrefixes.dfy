/** Address prefixes (`backend/src/auth/security.cpp`): mask tests as membership in intervals. */
module AddressPrefixes {
  import opened Bits
  import opened Text

  /** `&` on unsigned words. */
  function BitAnd(a: nat, b: nat): nat
    decreases a
  {
    if a == 0 then 0 else (if a % 2 == 1 && b % 2 == 1 then 1 else 0) + 2 * BitAnd(a / 2, b / 2)
  }

  /** `x << k` in a word of `width` bits. */
  function ShiftLeft(x: nat, k: nat, width: nat): nat {
    x * Pow2(k) % Pow2(width)
  }

  // ---------------------------------------------------------------------------------
  // Masks
  // ---------------------------------------------------------------------------------

  lemma ModUnique(x: nat, q: nat, r: nat, m: nat)
    requires m > 0 && x == q * m + r && r < m
    ensures x / m == q && x % m == r
  {
    var q', r' := x / m, x % m;
    assert x == q' * m + r' && 0 <= r' < m;
    if q' < q {
      MulMono(q' + 1, q, m);
    } else if q < q' {
      MulMono(q + 1, q', m);
    }
  }

  /** All ones shifted left by `k` are the ones above bit `k`. */
  lemma MaskValue(k: nat, width: nat)
    requires k <= width
    ensures Pow2(k) <= Pow2(width)
    ensures ShiftLeft(Pow2(width) - 1, k, width) == Pow2(width) - Pow2(k)
  {
    hide Pow2;
    Pow2Mono(k, width);
    var w, p := Pow2(width), Pow2(k);
    OnesTimes(w, p);
    ModUnique((w - 1) * p, p - 1, w - p, w);
  }

  lemma OnesTimes(w: nat, p: nat)
    requires w > 0 && p > 0
    ensures (w - 1) * p == (p - 1) * w + (w - p)
  {
    assert (w - 1) * p == w * p - p;
    assert (p - 1) * w == p * w - w;
  }

  lemma HalveMod(x: nat, p: nat)
    requires p > 0
    ensures x % (2 * p) == 2 * (x / 2 % p) + x % 2
  {
    var q, r := x / 2 / p, x / 2 % p;
    assert x / 2 == q * p + r;
    assert x == q * (2 * p) + (2 * r + x % 2);
    ModUnique(x, q, 2 * r + x % 2, 2 * p);
  }

  /** `x` rounded down to a multiple of `p`. */
  function Floored(x: nat, p: nat): nat
    requires p > 0
  {
    x - x % p
  }

  lemma {:induction false} AndOnes(x: nat, width: nat)
    requires x < Pow2(width)
    ensures BitAnd(x, Pow2(width) - 1) == x
    decreases width
  {
    hide BitAnd;
    if width == 0 {
      AndZero(x);
    } else {
      AndOnes(x / 2, width - 1);
      AndDigit(x, 1, Pow2(width - 1) - 1);
    }
  }

  /** Masking the low `k` bits off. */
  lemma {:induction false} AndMask(x: nat, k: nat, width: nat)
    requires k <= width && x < Pow2(width)
    ensures Pow2(k) <= Pow2(width) && BitAnd(x, Pow2(width) - Pow2(k)) == Floored(x, Pow2(k))
    decreases width
  {
    hide BitAnd, Floored;
    Pow2Mono(k, width);
    if k == 0 {
      AndOnes(x, width);
      FlooredOne(x);
    } else {
      AndMask(x / 2, k - 1, width - 1);
      MaskStep(x, Pow2(width - 1), Pow2(k - 1));
    }
  }

  lemma FlooredOne(x: nat)
    ensures Floored(x, 1) == x
  {
  }

  lemma MaskStep(x: nat, w: nat, p: nat)
    requires 0 < p <= w && BitAnd(x / 2, w - p) == Floored(x / 2, p)
    ensures BitAnd(x, 2 * w - 2 * p) == Floored(x, 2 * p)
  {
    hide BitAnd;
    AndDigit(x, 0, w - p);
    HalveMod(x, p);
  }

  lemma AndDigit(x: nat, bit: nat, mask: nat)
    requires bit <= 1
    ensures BitAnd(x, 2 * mask + bit) == (if bit == 1 then x % 2 else 0) + 2 * BitAnd(x / 2, mask)
  {
    assert (2 * mask + bit) / 2 == mask && (2 * mask + bit) % 2 == bit;
  }

  // ---------------------------------------------------------------------------------
  // IPv4
  // ---------------------------------------------------------------------------------

  const WORD: nat := Pow2(32)

  predicate IsIpv4(ip: nat) {
    ip < WORD
  }

  /** `ipv4_in_cidr`; every caller passes a constant length of at most 32. */
  predicate Ipv4InCidr(ip: nat, network: nat, prefixLen: int)
    requires prefixLen <= 32
  {
    if prefixLen <= 0 then true
    else
      var mask := if prefixLen == 32 then WORD - 1 else ShiftLeft(WORD - 1, 32 - prefixLen, 32);
      BitAnd(ip, mask) == network
  }

  /** The mask test is membership in the block of 2^(32-p) addresses that starts at the
      network, and is never met for a network that does not start a block. */
  lemma Ipv4InCidrExactly(ip: nat, network: nat, prefixLen: int)
    requires IsIpv4(ip) && prefixLen <= 32
    ensures Ipv4InCidr(ip, network, prefixLen) <==>
              prefixLen <= 0 ||
              var size := Pow2(32 - prefixLen);
              network % size == 0 && network <= ip < network + size
  {
    hide BitAnd, Pow2;
    if prefixLen > 0 {
      var k := 32 - prefixLen;
      MaskValue(k, 32);
      AndMask(ip, k, 32);
      PowZero();
      BlockStart(ip, network, Pow2(k));
    }
  }

  lemma PowZero()
    ensures Pow2(0) == 1
  {
  }

  lemma BlockStart(ip: nat, network: nat, size: nat)
    requires size > 0
    ensures ip - ip % size == network <==> network % size == 0 && network <= ip < network + size
  {
    var q, r := ip / size, ip % size;
    assert ip == q * size + r;
    if ip - ip % size == network {
      ModUnique(network, q, 0, size);
    }
    if network % size == 0 && network <= ip < network + size {
      ModUnique(ip, network / size, ip - network, size);
    }
  }

  /** A network that is not an address, or a length out of range: every address is trusted. */
  lemma IllFormedTrustsAll(network: Option<nat>, prefixLen: int, ip: nat)
    requires network.None? || prefixLen < 0 || prefixLen > 32
    ensures Trusts(MakeProxy(network, prefixLen), ip)
  {
    AndZero(ip);
  }

  lemma SameBlock(ip: nat, network: nat, size: nat)
    requires size > 0
    ensures var first := network - network % size;
            ip - ip % size == first <==> first <= ip < first + size
  {
    var q := network / size;
    assert network == q * size + network % size;
    ModUnique(network - network % size, q, 0, size);
    BlockStart(ip, network - network % size, size);
  }

  datatype TrustedProxy = TrustedProxy(network: nat, mask: nat)

  /** `make_proxy`; the network is given parsed, `None` if it is not an IPv4 address. */
  function MakeProxy(network: Option<nat>, prefixLen: int): TrustedProxy {
    if network.None? || prefixLen < 0 || prefixLen > 32 then TrustedProxy(0, 0)
    else
      var mask := if prefixLen == 0 then 0 else ShiftLeft(WORD - 1, 32 - prefixLen, 32);
      TrustedProxy(BitAnd(network.value, mask), mask)
  }

  predicate Trusts(proxy: TrustedProxy, ip: nat) {
    BitAnd(ip, proxy.mask) == proxy.network
  }

  /** `is_trusted_proxy_ipv4` on a parsed address. */
  method IsTrustedProxyIpv4(ip: Option<nat>, proxies: seq<TrustedProxy>) returns (trusted: bool)
    ensures trusted <==> ip.Some? && exists i :: 0 <= i < |proxies| && Trusts(proxies[i], ip.value)
  {
    if ip.None? {
      return false;
    }
    for i := 0 to |proxies|
      invariant forall k | 0 <= k < i :: !Trusts(proxies[k], ip.value)
    {
      if BitAnd(ip.value, proxies[i].mask) == proxies[i].network {
        assert Trusts(proxies[i], ip.value);
        return true;
      }
    }
    return false;
  }

  lemma AndZero(x: nat)
    ensures BitAnd(x, 0) == 0
  {
    if x > 0 {
      AndZero(x / 2);
    }
  }

  /** A well-formed proxy trusts exactly the block its network lies in; one that could not be
      parsed trusts every address. */
  lemma TrustsExactly(network: Option<nat>, prefixLen: int, ip: nat)
    requires IsIpv4(ip) && (network.Some? ==> IsIpv4(network.value))
    ensures
      Trusts(MakeProxy(network, prefixLen), ip) <==>
      (network.Some? && 0 <= prefixLen <= 32 ==>
         var size := Pow2(32 - prefixLen);
         var first := network.value - network.value % size;
         first <= ip < first + size)
  {
    hide BitAnd, Pow2;
    AndZero(ip);
    if network.Some? && 0 <= prefixLen <= 32 {
      var k := 32 - prefixLen;
      AndZero(network.value);
      MaskValue(k, 32);
      AndMask(ip, k, 32);
      AndMask(network.value, k, 32);
      SameBlock(ip, network.value, Pow2(k));
      if prefixLen == 0 {
        ModUnique(network.value, 0, network.value, Pow2(k));
      }
    }
  }

  // ---------------------------------------------------------------------------------
  // IPv6
  // ---------------------------------------------------------------------------------

  /** Network byte order. */
  function Value(bytes: seq<Byte>): nat {
    if bytes == [] then 0 else Value(bytes[..|bytes| - 1]) * 256 + bytes[|bytes| - 1]
  }

  /** `ipv6_prefix_match`: whole bytes by comparison, the remaining bits under a mask. */
  predicate Ipv6PrefixMatch(addr: seq<Byte>, prefix: seq<Byte>, prefixBits: nat)
    requires |addr| == |prefix| == 16 && prefixBits <= 128
  {
    var wholeBytes, remainingBits := prefixBits / 8, prefixBits % 8;
    if wholeBytes > 0 && addr[..wholeBytes] != prefix[..wholeBytes] then false
    else if remainingBits == 0 then true
    else
      var mask := ShiftLeft(255, 8 - remainingBits, 8);
      BitAnd(addr[wholeBytes], mask) == BitAnd(prefix[wholeBytes], mask)
  }

  lemma {:induction false} ValueInjective(a: seq<Byte>, b: seq<Byte>)
    requires |a| == |b|
    ensures Value(a) == Value(b) <==> a == b
  {
    if a != [] {
      ValueInjective(a[..|a| - 1], b[..|b| - 1]);
      assert a == a[..|a| - 1] + [a[|a| - 1]] && b == b[..|b| - 1] + [b[|b| - 1]];
    }
  }

  lemma DivShift(v: nat, l: Byte, q: nat)
    requires q > 0
    ensures (v * 256 + l) / (q * 256) == v / q
  {
    var d, r := v / q, v % q;
    assert v == d * q + r;
    assert v * 256 + l == d * (q * 256) + (r * 256 + l);
    ModUnique(v * 256 + l, d, r * 256 + l, q * 256);
  }

  /** The number formed by the bits from bit `k` upward. */
  function Top(x: nat, k: nat): nat {
    Quotient(x, Pow2(k))
  }

  function Quotient(x: nat, p: nat): nat
    requires p > 0
  {
    x / p
  }

  /** The top bits of an address depend only on its leading bytes. */
  lemma {:induction false} TopBits(bytes: seq<Byte>, n: nat, w: nat)
    requires w <= |bytes| && n >= 8 * (|bytes| - w)
    ensures Top(Value(bytes), n) == Top(Value(bytes[..w]), n - 8 * (|bytes| - w))
    decreases |bytes|
  {
    if w == |bytes| {
      assert bytes[..w] == bytes;
    } else {
      var init := bytes[..|bytes| - 1];
      Pow2Add(n - 8, 8);
      assert Pow2(8) == 256;
      DivShift(Value(init), bytes[|bytes| - 1], Pow2(n - 8));
      TopBits(init, n - 8, w);
      assert init[..w] == bytes[..w];
    }
  }

  lemma SplitTop(v: nat, b: Byte, r: nat)
    requires r <= 8
    ensures Top(v * 256 + b, 8 - r) == v * Pow2(r) + Top(b, 8 - r) && Top(b, 8 - r) < Pow2(r)
  {
    assert Pow2(8) == 256;
    hide Pow2;
    Pow2Add(8 - r, r);
    SplitAt(v, b, Pow2(8 - r), Pow2(r));
  }

  lemma SplitAt(v: nat, b: nat, p: nat, q: nat)
    requires p > 0 && p * q == 256 && b < 256
    ensures (v * 256 + b) / p == v * q + b / p && b / p < q
  {
    var d, m := b / p, b % p;
    assert b == d * p + m;
    Distribute(v, q, d, p);
    ModUnique(v * 256 + b, v * q + d, m, p);
    if d >= q {
      MulMono(q, d, p);
    }
  }

  lemma Distribute(v: nat, q: nat, d: nat, p: nat)
    ensures (v * q + d) * p == v * (p * q) + d * p
  {
  }

  lemma SameParts(v: nat, x: nat, u: nat, y: nat, q: nat)
    requires x < q && y < q
    ensures v * q + x == u * q + y <==> v == u && x == y
  {
    if v * q + x == u * q + y {
      ModUnique(v * q + x, v, x, q);
      ModUnique(u * q + y, u, y, q);
    }
  }

  lemma SameMasked(a: Byte, b: Byte, r: nat)
    requires 0 < r < 8
    ensures var mask := ShiftLeft(255, 8 - r, 8);
            BitAnd(a, mask) == BitAnd(b, mask) <==> Top(a, 8 - r) == Top(b, 8 - r)
  {
    hide Pow2, BitAnd, ShiftLeft, Quotient;
    MaskedByte(a, r);
    MaskedByte(b, r);
    SameFloor(a, b, Pow2(8 - r));
  }

  lemma MaskedByte(a: Byte, r: nat)
    requires r <= 8
    ensures BitAnd(a, ShiftLeft(255, 8 - r, 8)) == a - a % Pow2(8 - r)
  {
    assert Pow2(8) == 256;
    hide BitAnd, Pow2, ShiftLeft;
    MaskValue(8 - r, 8);
    AndMask(a, 8 - r, 8);
  }

  lemma SameFloor(a: nat, b: nat, p: nat)
    requires p > 0
    ensures a - a % p == b - b % p <==> Quotient(a, p) == Quotient(b, p)
  {
    assert a - a % p == a / p * p && b - b % p == b / p * p;
    SameParts(a / p, 0, b / p, 0, p);
  }

  lemma TopZero(x: nat)
    ensures Top(x, 0) == x
  {
  }

  lemma WholeBytes(addr: seq<Byte>, prefix: seq<Byte>, w: nat)
    requires |addr| == |prefix| == 16 && w <= 16
    ensures addr[..w] == prefix[..w] <==> Top(Value(addr), 128 - 8 * w) == Top(Value(prefix), 128 - 8 * w)
  {
    hide Pow2, Top, Value;
    TopBits(addr, 128 - 8 * w, w);
    TopBits(prefix, 128 - 8 * w, w);
    TopZero(Value(addr[..w]));
    TopZero(Value(prefix[..w]));
    ValueInjective(addr[..w], prefix[..w]);
  }

  lemma ValueSnoc(bytes: seq<Byte>, w: nat)
    requires w < |bytes|
    ensures Value(bytes[..w + 1]) == Value(bytes[..w]) * 256 + bytes[w]
  {
    assert bytes[..w + 1][..w] == bytes[..w];
  }

  lemma TopParts(addr: seq<Byte>, w: nat, r: nat)
    requires |addr| == 16 && w < 16 && 0 < r < 8
    ensures Top(Value(addr), 128 - 8 * w - r) == Value(addr[..w]) * Pow2(r) + Top(addr[w], 8 - r)
    ensures Top(addr[w], 8 - r) < Pow2(r)
  {
    hide Pow2, Top, Value;
    TopBits(addr, 128 - 8 * w - r, w + 1);
    ValueSnoc(addr, w);
    SplitTop(Value(addr[..w]), addr[w], r);
  }

  lemma PartByte(addr: seq<Byte>, prefix: seq<Byte>, w: nat, r: nat)
    requires |addr| == |prefix| == 16 && w < 16 && 0 < r < 8
    ensures var n := 128 - 8 * w - r;
            Top(Value(addr), n) == Top(Value(prefix), n) <==>
            addr[..w] == prefix[..w] && Top(addr[w], 8 - r) == Top(prefix[w], 8 - r)
  {
    hide Pow2, Top, Value;
    TopParts(addr, w, r);
    TopParts(prefix, w, r);
    SameParts(Value(addr[..w]), Top(addr[w], 8 - r), Value(prefix[..w]), Top(prefix[w], 8 - r), Pow2(r));
    ValueInjective(addr[..w], prefix[..w]);
  }

  /** Byte comparison and byte mask together are equality of the top bits as numbers, for
      every length from 0 to 128. */
  lemma Ipv6PrefixMatchExactly(addr: seq<Byte>, prefix: seq<Byte>, prefixBits: nat)
    requires |addr| == |prefix| == 16 && prefixBits <= 128
    ensures Ipv6PrefixMatch(addr, prefix, prefixBits) <==>
              Top(Value(addr), 128 - prefixBits) == Top(Value(prefix), 128 - prefixBits)
  {
    hide BitAnd, Pow2, ShiftLeft, Top, Value;
    var w, r := prefixBits / 8, prefixBits % 8;
    assert prefixBits == 8 * w + r;
    assert w == 0 ==> addr[..w] == prefix[..w];
    if r == 0 {
      WholeBytes(addr, prefix, w);
    } else {
      PartByte(addr, prefix, w, r);
      SameMasked(addr[w], prefix[w], r);
    }
  }

  // ---------------------------------------------------------------------------------
  // The refused IPv4 ranges
  // ---------------------------------------------------------------------------------

  predicate IsPrivateOrSpecialIpv4(ip: nat) {
    || Ipv4InCidr(ip, 0x00000000, 8)
    || Ipv4InCidr(ip, 0x0a000000, 8)
    || Ipv4InCidr(ip, 0x64400000, 10)
    || Ipv4InCidr(ip, 0x7f000000, 8)
    || Ipv4InCidr(ip, 0xa9fe0000, 16)
    || Ipv4InCidr(ip, 0xac100000, 12)
    || Ipv4InCidr(ip, 0xc0000000, 24)
    || Ipv4InCidr(ip, 0xc0000200, 24)
    || Ipv4InCidr(ip, 0xc0a80000, 16)
    || Ipv4InCidr(ip, 0xc6120000, 15)
    || Ipv4InCidr(ip, 0xc6336400, 24)
    || Ipv4InCidr(ip, 0xcb007100, 24)
    || Ipv4InCidr(ip, 0xe0000000, 4)
    || Ipv4InCidr(ip, 0xf0000000, 4)
  }

  predicate Within(ip: nat, first: nat, last: nat) {
    first <= ip <= last
  }

  lemma InBlock(ip: nat, network: nat, prefixLen: nat, size: nat)
    requires IsIpv4(ip) && 1 <= prefixLen <= 32 && size == Pow2(32 - prefixLen) && network % size == 0
    ensures Ipv4InCidr(ip, network, prefixLen) <==> Within(ip, network, network + size - 1)
  {
    Ipv4InCidrExactly(ip, network, prefixLen);
  }

  lemma BlockSizes()
    ensures Pow2(8) == 0x100 && Pow2(16) == 0x10000 && Pow2(17) == 0x20000 && Pow2(20) == 0x100000
    ensures Pow2(22) == 0x400000 && Pow2(24) == 0x1000000 && Pow2(28) == 0x10000000 && Pow2(32) == 0x1_0000_0000
  {
    assert Pow2(4) == 16;
    Pow2Add(4, 4);
    Pow2Add(8, 8);
    Pow2Add(16, 1);
    Pow2Add(16, 4);
    Pow2Add(20, 2);
    Pow2Add(16, 8);
    Pow2Add(24, 4);
    Pow2Add(28, 4);
    assert Pow2(1) == 2 && Pow2(2) == 4;
  }

  /** The refused addresses, as ranges of numbers. */
  lemma SpecialRanges(ip: nat)
    requires IsIpv4(ip)
    ensures IsPrivateOrSpecialIpv4(ip) <==>
              || Within(ip, 0x00000000, 0x00ffffff)
              || Within(ip, 0x0a000000, 0x0affffff)
              || Within(ip, 0x64400000, 0x647fffff)
              || Within(ip, 0x7f000000, 0x7fffffff)
              || Within(ip, 0xa9fe0000, 0xa9feffff)
              || Within(ip, 0xac100000, 0xac1fffff)
              || Within(ip, 0xc0000000, 0xc00000ff)
              || Within(ip, 0xc0000200, 0xc00002ff)
              || Within(ip, 0xc0a80000, 0xc0a8ffff)
              || Within(ip, 0xc6120000, 0xc613ffff)
              || Within(ip, 0xc6336400, 0xc63364ff)
              || Within(ip, 0xcb007100, 0xcb0071ff)
              || Within(ip, 0xe0000000, 0xffffffff)
  {
    BlockSizes();
    hide Ipv4InCidr, Pow2;
    InBlock(ip, 0x00000000, 8, 0x1000000);
    InBlock(ip, 0x0a000000, 8, 0x1000000);
    InBlock(ip, 0x64400000, 10, 0x400000);
    InBlock(ip, 0x7f000000, 8, 0x1000000);
    InBlock(ip, 0xa9fe0000, 16, 0x10000);
    InBlock(ip, 0xac100000, 12, 0x100000);
    InBlock(ip, 0xc0000000, 24, 0x100);
    InBlock(ip, 0xc0000200, 24, 0x100);
    InBlock(ip, 0xc0a80000, 16, 0x10000);
    InBlock(ip, 0xc6120000, 15, 0x20000);
    InBlock(ip, 0xc6336400, 24, 0x100);
    InBlock(ip, 0xcb007100, 24, 0x100);
    InBlock(ip, 0xe0000000, 4, 0x10000000);
    InBlock(ip, 0xf0000000, 4, 0x10000000);
  }
}
