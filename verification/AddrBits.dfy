/** Bit prefixes of addresses, networks, and the policy tables of section 2.1 of RFC 3484. */
module AddrBits {
  import opened Bytes

  type Octets = seq<bv8>

  // ------------------------------------------------------------------- bits

  /** Bit `k` of an octet, the highest one first. */
  function BitOf(b: bv8, k: nat): bool
    requires k < 8
  {
    if k == 0 then b & 0x80 != 0 else if k == 1 then b & 0x40 != 0
    else if k == 2 then b & 0x20 != 0 else if k == 3 then b & 0x10 != 0
    else if k == 4 then b & 0x08 != 0 else if k == 5 then b & 0x04 != 0
    else if k == 6 then b & 0x02 != 0 else b & 0x01 != 0
  }

  function Bit(a: Octets, k: nat): bool
    requires k < 8 * |a|
  {
    if k < 8 then BitOf(a[0], k) else Bit(a[1..], k - 8)
  }

  /** The addresses have the same first `k` bits. */
  ghost predicate Agree(a: Octets, b: Octets, k: nat)
    requires k <= 8 * |a| && |a| == |b|
  {
    forall j | 0 <= j < k :: Bit(a, j) == Bit(b, j)
  }

  /** Bits of the number, up to the highest one set. */
  function Width(m: bv8): nat {
    if m >= 0x80 then 8 else if m >= 0x40 then 7 else if m >= 0x20 then 6 else if m >= 0x10 then 5
    else if m >= 0x08 then 4 else if m >= 0x04 then 3 else if m >= 0x02 then 2 else if m >= 0x01 then 1 else 0
  }

  function CommonOctet(x: bv8, y: bv8): (n: nat)
    ensures n <= 8
  {
    8 - Width(x ^ y)
  }

  function CommonPrefix(a: Octets, b: Octets): (n: nat)
    requires |a| == |b|
    ensures n <= 8 * |a|
  {
    if a == [] then 0
    else if a[0] != b[0] then CommonOctet(a[0], b[0])
    else 8 + CommonPrefix(a[1..], b[1..])
  }

  lemma CommonOctetBit(x: bv8, y: bv8, j: nat)
    requires j < 8
    ensures j < CommonOctet(x, y) ==> BitOf(x, j) == BitOf(y, j)
    ensures j == CommonOctet(x, y) ==> BitOf(x, j) != BitOf(y, j)
  {
    if j == 0 { assert BitOf(x, 0) == BitOf(y, 0) <==> (x ^ y) < 0x80; }
  }

  lemma CommonOctetAll(x: bv8, y: bv8)
    ensures CommonOctet(x, y) == 8 <==> x == y
  {
  }

  /** The first bit in which the addresses differ is the one after the common prefix. */
  lemma {:induction false} CommonBits(a: Octets, b: Octets, j: nat)
    requires |a| == |b| && j < 8 * |a|
    ensures j < CommonPrefix(a, b) ==> Bit(a, j) == Bit(b, j)
    ensures j == CommonPrefix(a, b) ==> Bit(a, j) != Bit(b, j)
    decreases |a|
  {
    hide BitOf, CommonOctet;
    if j < 8 {
      CommonOctetBit(a[0], b[0], j);
      CommonOctetAll(a[0], b[0]);
    } else {
      CommonOctetAll(a[0], b[0]);
      CommonBits(a[1..], b[1..], j - 8);
    }
  }

  /** It is the largest number of leading bits that are the same. */
  lemma CommonIsLargest(a: Octets, b: Octets, k: nat)
    requires |a| == |b| && k <= 8 * |a|
    ensures Agree(a, b, k) <==> k <= CommonPrefix(a, b)
  {
    hide Bit, CommonPrefix;
    forall j | 0 <= j < 8 * |a|
      ensures j < CommonPrefix(a, b) ==> Bit(a, j) == Bit(b, j)
      ensures j == CommonPrefix(a, b) ==> Bit(a, j) != Bit(b, j)
    {
      CommonBits(a, b, j);
    }
    if CommonPrefix(a, b) < k {
      assert Bit(a, CommonPrefix(a, b)) != Bit(b, CommonPrefix(a, b));
    }
  }

  /** Symmetric, full exactly on equal addresses, and an ultrametric: of three lengths the two
      smallest are equal. */
  lemma CommonIsUltrametric(a: Octets, b: Octets, c: Octets)
    requires |a| == |b| == |c|
    ensures CommonPrefix(a, b) == CommonPrefix(b, a)
    ensures CommonPrefix(a, b) == 8 * |a| <==> a == b
    ensures CommonPrefix(a, c) >= CommonPrefix(a, b) || CommonPrefix(a, c) >= CommonPrefix(b, c)
    ensures CommonPrefix(a, b) < CommonPrefix(b, c) ==> CommonPrefix(a, c) == CommonPrefix(a, b)
  {
    CommonTransitive(a, b, c);
    CommonTransitive(a, c, b);
    CommonSymmetric(a, b);
    CommonSymmetric(b, c);
    CommonFull(a, b);
  }

  lemma CommonSymmetric(a: Octets, b: Octets)
    requires |a| == |b|
    ensures CommonPrefix(a, b) == CommonPrefix(b, a)
  {
    CommonIsLargest(a, b, CommonPrefix(a, b));
    CommonIsLargest(b, a, CommonPrefix(b, a));
    CommonIsLargest(a, b, CommonPrefix(b, a));
    CommonIsLargest(b, a, CommonPrefix(a, b));
  }

  lemma CommonTransitive(a: Octets, b: Octets, c: Octets)
    requires |a| == |b| == |c|
    ensures CommonPrefix(a, c) >= CommonPrefix(a, b) || CommonPrefix(a, c) >= CommonPrefix(b, c)
  {
    hide CommonPrefix, Bit;
    var k := if CommonPrefix(a, b) <= CommonPrefix(b, c) then CommonPrefix(a, b) else CommonPrefix(b, c);
    CommonIsLargest(a, b, k);
    CommonIsLargest(b, c, k);
    CommonIsLargest(a, c, k);
  }

  lemma {:induction false} CommonFull(a: Octets, b: Octets)
    requires |a| == |b|
    ensures CommonPrefix(a, b) == 8 * |a| <==> a == b
  {
    if a != [] {
      CommonOctetAll(a[0], b[0]);
      CommonFull(a[1..], b[1..]);
      assert a == [a[0]] + a[1..] && b == [b[0]] + b[1..];
    }
  }

  /** The program's count: eight bits an octet, then those of the first octets that differ. It
      takes up to 32 octets, and its last assertion fails beyond 128 bits. */
  method CommonPrefixBitlen(a: Octets, b: Octets) returns (bitlen: nat, aborted: bool)
    requires |a| == |b| <= 32
    ensures bitlen == CommonPrefix(a, b) && (aborted <==> bitlen > 128)
  {
    bitlen := 0;
    var i := 0;
    while i < |a|
      invariant i <= |a| && bitlen == 8 * i
      invariant CommonPrefix(a, b) == bitlen + CommonPrefix(a[i..], b[i..])
    {
      if a[i] != b[i] {
        var mask, matchBits := a[i] ^ b[i], 8;
        while mask != 0
          invariant matchBits == CommonOctet(a[i], b[i]) + Width(mask)
          decreases Width(mask)
        {
          HalfWidth(mask);
          mask, matchBits := mask >> 1, matchBits - 1;
        }
        return bitlen + matchBits, bitlen + matchBits > 128;
      }
      assert a[i..][1..] == a[i + 1..] && b[i..][1..] == b[i + 1..];
      i, bitlen := i + 1, bitlen + 8;
    }
    aborted := bitlen > 128;
  }

  lemma HalfWidth(m: bv8)
    requires m != 0
    ensures Width(m >> 1) == Width(m) - 1
  {
  }

  // --------------------------------------------------------------- networks

  /** The first `n` bits of an octet. */
  function Mask(n: nat): bv8
    requires n <= 8
  {
    if n == 0 then 0x00 else if n == 1 then 0x80 else if n == 2 then 0xC0 else if n == 3 then 0xE0
    else if n == 4 then 0xF0 else if n == 5 then 0xF8 else if n == 6 then 0xFC else if n == 7 then 0xFE else 0xFF
  }

  function InNet(net: Octets, n: nat, addr: Octets): bool
    requires |net| == |addr| && n <= 8 * |net|
  {
    if n >= 8 then net[0] == addr[0] && InNet(net[1..], n - 8, addr[1..])
    else n == 0 || net[0] == addr[0] & Mask(n)
  }

  /** The octet in which the prefix ends has no bits behind it. */
  predicate TailZero(net: Octets, n: nat)
    requires n <= 8 * |net|
  {
    n % 8 != 0 ==> net[n / 8] == net[n / 8] & Mask(n % 8)
  }

  lemma MaskedBits(x: bv8, y: bv8)
    ensures x == y & 0x80 <==> x == x & 0x80 && (x ^ y) < 0x80
    ensures x == y & 0xC0 <==> x == x & 0xC0 && (x ^ y) < 0x40
    ensures x == y & 0xE0 <==> x == x & 0xE0 && (x ^ y) < 0x20
    ensures x == y & 0xF0 <==> x == x & 0xF0 && (x ^ y) < 0x10
    ensures x == y & 0xF8 <==> x == x & 0xF8 && (x ^ y) < 0x08
    ensures x == y & 0xFC <==> x == x & 0xFC && (x ^ y) < 0x04
    ensures x == y & 0xFE <==> x == x & 0xFE && (x ^ y) < 0x02
  {
  }

  lemma MaskedOctet(x: bv8, y: bv8, n: nat)
    requires 0 < n < 8
    ensures x == y & Mask(n) <==> x == x & Mask(n) && n <= CommonOctet(x, y)
  {
    MaskedBits(x, y);
  }

  /** An address belongs to a network exactly when they share a prefix of that length and the
      network has no bits behind it; a network with such bits has no members at all. */
  lemma {:induction false} InNetIsPrefix(net: Octets, n: nat, addr: Octets)
    requires |net| == |addr| && n <= 8 * |net|
    ensures InNet(net, n, addr) <==> n <= CommonPrefix(net, addr) && TailZero(net, n)
    decreases |net|
  {
    hide Mask, CommonOctet;
    if n >= 8 {
      InNetIsPrefix(net[1..], n - 8, addr[1..]);
      CommonOctetAll(net[0], addr[0]);
      assert n % 8 == (n - 8) % 8 && n / 8 == (n - 8) / 8 + 1;
      assert n % 8 != 0 ==> net[n / 8] == net[1..][(n - 8) / 8];
    } else if n > 0 {
      MaskedOctet(net[0], addr[0], n);
      CommonOctetAll(net[0], addr[0]);
    }
  }

  method AddrInNet(net: Octets, prefixLen: nat, addr: Octets) returns (r: bool)
    requires |net| == |addr| && prefixLen <= 8 * |net|
    ensures r == InNet(net, prefixLen, addr)
  {
    var byteLen, i := prefixLen / 8, 0;
    while i < byteLen
      invariant i <= byteLen
      invariant InNet(net, prefixLen, addr) == InNet(net[i..], prefixLen - 8 * i, addr[i..])
    {
      if net[i] != addr[i] {
        return false;
      }
      assert net[i..][1..] == net[i + 1..] && addr[i..][1..] == addr[i + 1..];
      i := i + 1;
    }
    var left := prefixLen % 8;
    if left == 0 {
      return true;
    }
    r := net[i] == addr[i] & Mask(left);
  }

  // ----------------------------------------------------------------- tables

  datatype Prefix = Prefix(net: Octets, bits: nat, val: int)

  const ZERO6: Octets := [0, 0, 0, 0, 0, 0, 0, 0, 0, 0, 0, 0, 0, 0, 0, 0]
  const LOOPBACK6: Octets := [0, 0, 0, 0, 0, 0, 0, 0, 0, 0, 0, 0, 0, 0, 0, 1]
  const SIX_TO_FOUR: Octets := [0x20, 0x02, 0, 0, 0, 0, 0, 0, 0, 0, 0, 0, 0, 0, 0, 0]
  const MAPPED: Octets := [0, 0, 0, 0, 0, 0, 0, 0, 0, 0, 0xFF, 0xFF, 0, 0, 0, 0]

  const DEFAULT_LABEL: seq<Prefix> :=
    [Prefix(LOOPBACK6, 128, 0), Prefix(SIX_TO_FOUR, 16, 2), Prefix(ZERO6, 96, 3), Prefix(MAPPED, 96, 4), Prefix(ZERO6, 0, 1)]

  const DEFAULT_PRECEDENCE: seq<Prefix> :=
    [Prefix(LOOPBACK6, 128, 50), Prefix(SIX_TO_FOUR, 16, 30), Prefix(ZERO6, 96, 20), Prefix(MAPPED, 96, 10), Prefix(ZERO6, 0, 40)]

  ghost predicate WellSized(t: seq<Prefix>) {
    forall i | 0 <= i < |t| :: |t[i].net| == 16 && t[i].bits <= 128
  }

  /** The first entry that contains the address. */
  function FirstMatch(t: seq<Prefix>, a: Octets, i: nat): (k: nat)
    requires WellSized(t) && |a| == 16 && i <= |t|
    ensures i <= k <= |t| && (k < |t| ==> InNet(t[k].net, t[k].bits, a))
    ensures forall j | i <= j < k :: !InNet(t[j].net, t[j].bits, a)
    decreases |t| - i
  {
    if i == |t| || InNet(t[i].net, t[i].bits, a) then i else FirstMatch(t, a, i + 1)
  }

  /** The two tables hold the same networks, in an order that is not by length. */
  ghost predicate PolicyNets(t: seq<Prefix>) {
    && |t| == 5
    && t[0].net == LOOPBACK6 && t[0].bits == 128
    && t[1].net == SIX_TO_FOUR && t[1].bits == 16
    && t[2].net == ZERO6 && t[2].bits == 96
    && t[3].net == MAPPED && t[3].bits == 96
    && t[4].net == ZERO6 && t[4].bits == 0
  }

  /** Still the first match is a longest one, for every address: the networks that precede a
      longer one have no address in common with it. */
  lemma FirstMatchIsLongest(t: seq<Prefix>, a: Octets)
    requires PolicyNets(t) && |a| == 16
    ensures WellSized(t)
    ensures var k := FirstMatch(t, a, 0);
            k < 5 && forall j | 0 <= j < 5 && InNet(t[j].net, t[j].bits, a) :: t[j].bits <= t[k].bits
  {
    hide FirstMatch, InNet;
    InNetFirst(ZERO6, 0, a);
    InNetFirst(SIX_TO_FOUR, 16, a);
    InNetFirst(ZERO6, 96, a);
    InNetFirst(MAPPED, 96, a);
  }

  lemma InNetFirst(net: Octets, n: nat, a: Octets)
    requires |net| == |a| > 0 && n <= 8 * |net|
    ensures n == 0 ==> InNet(net, n, a)
    ensures n >= 8 && InNet(net, n, a) ==> a[0] == net[0]
  {
  }

  method MatchPrefix(t: seq<Prefix>, a: Octets) returns (val: int)
    requires PolicyNets(t) && |a| == 16
    ensures WellSized(t) && FirstMatch(t, a, 0) < 5 && val == t[FirstMatch(t, a, 0)].val
  {
    FirstMatchIsLongest(t, a);
    var i := 0;
    while true
      invariant i <= FirstMatch(t, a, 0) < 5 && FirstMatch(t, a, 0) == FirstMatch(t, a, i)
      decreases 5 - i
    {
      var found := AddrInNet(t[i].net, t[i].bits, a);
      if found {
        return t[i].val;
      }
      i := i + 1;
    }
  }
}
