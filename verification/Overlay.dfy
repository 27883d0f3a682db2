/** The overlay address allocator (src/api.rs, from `ipv4_nets_overlap` to `allocate_node_ips`). */
module Overlay {
  import opened Base
  import opened Model

  // ---------------------------------------------------------------- blocks

  function Size(c: Cidr, bits: nat): (n: nat)
    requires c.prefix <= bits
    ensures n >= 1
  {
    Pow2(bits - c.prefix)
  }

  /** The largest multiple of `s` up to `x`: `x` with its low bits masked out. */
  function RoundDown(x: nat, s: nat): (r: nat)
    requires s >= 1
    ensures r <= x < r + s
  {
    if x < s then 0 else s + RoundDown(x - s, s)
  }

  /** The network address. */
  function First(c: Cidr, bits: nat): (n: nat)
    requires c.prefix <= bits
  {
    RoundDown(c.addr, Size(c, bits))
  }

  /** `contains`: from the network address to the broadcast address. */
  predicate Contains(c: Cidr, bits: nat, x: nat)
    requires c.prefix <= bits
  {
    First(c, bits) <= x < First(c, bits) + Size(c, bits)
  }

  predicate Overlap(a: Cidr, b: Cidr, bits: nat)
    requires a.prefix <= bits && b.prefix <= bits
  {
    Contains(a, bits, First(b, bits)) || Contains(b, bits, First(a, bits))
  }

  /** The overlap test is exact: it holds if and only if some address is in both blocks. */
  lemma OverlapIffShared(a: Cidr, b: Cidr, bits: nat)
    requires a.prefix <= bits && b.prefix <= bits
    ensures Overlap(a, b, bits) <==> exists x :: Contains(a, bits, x) && Contains(b, bits, x)
  {
    if Contains(a, bits, First(b, bits)) {
      assert Contains(b, bits, First(b, bits));
    }
    if Contains(b, bits, First(a, bits)) {
      assert Contains(a, bits, First(a, bits));
    }
  }

  lemma {:induction false} Pow2Add(a: nat, b: nat)
    ensures Pow2(a + b) == Pow2(a) * Pow2(b)
  {
    if a > 0 {
      Pow2Add(a - 1, b);
      assert Pow2(a + b) == 2 * Pow2(a - 1 + b);
      assert 2 * (Pow2(a - 1) * Pow2(b)) == (2 * Pow2(a - 1)) * Pow2(b);
    }
  }

  lemma {:induction false} Pow2Monotone(a: nat, b: nat)
    requires a <= b
    ensures Pow2(a) <= Pow2(b)
  {
    if a > 0 {
      Pow2Monotone(a - 1, b - 1);
    }
  }

  /** Rounding down gives a multiple of the block size. */
  lemma {:induction false} RoundDownMultiple(x: nat, s: nat) returns (q: nat)
    requires s >= 1
    ensures RoundDown(x, s) == q * s
  {
    if x < s {
      q := 0;
    } else {
      var p := RoundDownMultiple(x - s, s);
      q := p + 1;
      assert q * s == p * s + s;
    }
  }

  lemma {:induction false} RoundDownFits(x: nat, s: nat, c: nat)
    requires s >= 1 && x < c * s
    ensures RoundDown(x, s) + s <= c * s
  {
    assert c >= 1;
    assert c * s == (c - 1) * s + s;
    if x >= s {
      RoundDownFits(x - s, s, c - 1);
    }
  }

  lemma {:induction false} Pow2Is(n: nat, v: nat)
    requires Pow2(n) == v
    ensures Pow2(2 * n) == v * v
  {
    Pow2Add(n, n);
  }

  lemma Space4()
    ensures Pow2(32) == IPV4_SPACE
  {
    assert Pow2(8) == 0x100;
    Pow2Is(8, 0x100);
    Pow2Is(16, 0x1_0000);
  }

  lemma Spaces()
    ensures Pow2(32) == IPV4_SPACE && Pow2(128) == IPV6_SPACE
  {
    Space4();
    Pow2Is(32, 0x1_0000_0000);
    Pow2Is(64, 0x1_0000_0000_0000_0000);
  }

  /** A block does not reach past the end of the address space. */
  lemma BlockFits(c: Cidr, bits: nat)
    requires c.prefix <= bits && c.addr < Pow2(bits)
    ensures First(c, bits) + Size(c, bits) <= Pow2(bits)
  {
    Pow2Add(c.prefix, bits - c.prefix);
    RoundDownFits(c.addr, Size(c, bits), Pow2(c.prefix));
  }

  lemma BlocksFit(c4: Cidr4, c6: Cidr6)
    ensures First(c4, 32) + Size(c4, 32) <= IPV4_SPACE
    ensures First(c6, 128) + Size(c6, 128) <= IPV6_SPACE
  {
    Spaces();
    BlockFits(c4, 32);
    BlockFits(c6, 128);
  }

  // ---------------------------------------------------------------- offsets

  /** The last offset before the broadcast address; None if there are no host addresses. */
  function MaxIpv4Offset(c: Cidr4): (r: Option<nat>) {
    if c.prefix >= 31 then None else
    var total := Pow2(32 - c.prefix);
    var lastUsable := if total >= 2 then total - 2 else 0;
    if lastUsable < IPV4_SPACE then Some(lastUsable) else None
  }

  function InitialIpv4Offset(c: Cidr4): (r: Option<nat>) {
    match MaxIpv4Offset(c)
    case None => None
    case Some(max) => if max >= 10 then Some(10) else if max >= 1 then Some(1) else None
  }

  function MaxIpv6Offset(c: Cidr6): (r: nat) {
    var hostBits := 128 - c.prefix;
    if hostBits == 128 then IPV6_SPACE - 1 else if hostBits == 0 then 0 else Pow2(hostBits) - 1
  }

  function InitialIpv6Offset(c: Cidr6): (r: nat) {
    var max := MaxIpv6Offset(c);
    if max >= 10 then 10 else if max >= 1 then 1 else 0
  }

  /** The usable IPv4 offsets are those strictly between network and broadcast address. */
  lemma Ipv4Bounds(c: Cidr4)
    ensures MaxIpv4Offset(c).Some? <==> c.prefix <= 30
    ensures InitialIpv4Offset(c).Some? <==> c.prefix <= 30
    ensures c.prefix <= 30 ==>
              && MaxIpv4Offset(c).value == Size(c, 32) - 2
              && 1 <= InitialIpv4Offset(c).value <= 10
              && InitialIpv4Offset(c).value <= MaxIpv4Offset(c).value < IPV4_SPACE - 1
  {
    if c.prefix <= 30 {
      Spaces();
      Pow2Monotone(32 - c.prefix, 32);
      Pow2Monotone(2, 32 - c.prefix);
      assert Pow2(2) == 4;
    }
  }

  lemma Ipv6Bounds(c: Cidr6)
    ensures MaxIpv6Offset(c) == Size(c, 128) - 1
    ensures InitialIpv6Offset(c) <= 10 && InitialIpv6Offset(c) <= MaxIpv6Offset(c)
  {
    if c.prefix == 0 {
      Spaces();
    }
  }

  // ---------------------------------------------------------------- allocation

  datatype Allocation = Allocation(network: Network, result: Result<(nat, nat), ApiError>)

  /** `allocate_node_ips`: the IPv4 cursor has moved on even if there is no IPv6 address left. */
  function Allocate(n: Network): (a: Allocation) {
    match MaxIpv4Offset(n.overlay4)
    case None => Allocation(n, Err(Conflict(NoIpv4Hosts)))
    case Some(max4) =>
      if n.nextIpv4 > max4 then Allocation(n, Err(Conflict(Ipv4Exhausted))) else
      var ip4 := First(n.overlay4, 32) + n.nextIpv4;
      var n1 := n.(nextIpv4 := n.nextIpv4 + 1);
      if n.nextIpv6 > MaxIpv6Offset(n.overlay6) then Allocation(n1, Err(Conflict(Ipv6Exhausted))) else
      var ip6 := First(n.overlay6, 128) + n.nextIpv6;
      Allocation(n1.(nextIpv6 := n.nextIpv6 + 1), Ok((ip4, ip6)))
  }

  /** The cursors are within their subnets, and the IPv6 one has not outrun the IPv4 one. */
  predicate CursorsOk(n: Network) {
    && n.overlay4.prefix <= 30
    && InitialIpv4Offset(n.overlay4).Some? && MaxIpv4Offset(n.overlay4).Some?
    && InitialIpv4Offset(n.overlay4).value <= n.nextIpv4 <= MaxIpv4Offset(n.overlay4).value + 1
    && InitialIpv6Offset(n.overlay6) <= n.nextIpv6 <= MaxIpv6Offset(n.overlay6) + 1
    && n.nextIpv6 - InitialIpv6Offset(n.overlay6) <= n.nextIpv4 - InitialIpv4Offset(n.overlay4).value
  }

  /** A network as `create_network` makes it. */
  predicate CursorsFresh(n: Network) {
    && InitialIpv4Offset(n.overlay4) == Some(n.nextIpv4)
    && n.nextIpv6 == InitialIpv6Offset(n.overlay6)
  }

  lemma FreshCursorsOk(n: Network)
    requires CursorsFresh(n)
    ensures CursorsOk(n)
  {
    Ipv4Bounds(n.overlay4);
    Ipv6Bounds(n.overlay6);
  }

  /**
   Allocation keeps the cursors in order and no sum or increment leaves u32 or u128, for
   every prefix length; an IPv4 address is strictly between network and broadcast address.
   */
  lemma AllocateSafe(n: Network)
    requires CursorsOk(n)
    ensures CursorsOk(Allocate(n).network)
    ensures n.nextIpv4 < IPV4_SPACE && n.nextIpv6 < IPV6_SPACE
    ensures Allocate(n).network.nextIpv4 < IPV4_SPACE && Allocate(n).network.nextIpv6 < IPV6_SPACE
    ensures Allocate(n).result.Ok? <==>
              n.nextIpv4 <= MaxIpv4Offset(n.overlay4).value && n.nextIpv6 <= MaxIpv6Offset(n.overlay6)
    ensures Allocate(n).result.Ok? ==>
              var (ip4, ip6) := Allocate(n).result.value;
              && First(n.overlay4, 32) < ip4 < First(n.overlay4, 32) + Size(n.overlay4, 32) - 1
              && Contains(n.overlay6, 128, ip6)
              && ip4 < IPV4_SPACE && ip6 < IPV6_SPACE
  {
    Ipv4Bounds(n.overlay4);
    Ipv6Bounds(n.overlay6);
    BlocksFit(n.overlay4, n.overlay6);
  }

  // ---------------------------------------------------------------- capacity

  function Capacity4(c: Cidr4): (n: nat)
    requires c.prefix <= 30
  {
    Ipv4Bounds(c);
    MaxIpv4Offset(c).value - InitialIpv4Offset(c).value + 1
  }

  function Capacity6(c: Cidr6): (n: nat) {
    Ipv6Bounds(c);
    MaxIpv6Offset(c) - InitialIpv6Offset(c) + 1
  }

  function Min(a: nat, b: nat): (m: nat) {
    if a <= b then a else b
  }

  /** A network after `k` calls of the allocator, failed ones included. */
  function AfterCalls(n: Network, k: nat): (r: Network) {
    if k == 0 then n else Allocate(AfterCalls(n, k - 1)).network
  }

  lemma {:induction false} CursorsAfter(n: Network, k: nat)
    requires CursorsFresh(n) && n.overlay4.prefix <= 30
    ensures var r := AfterCalls(n, k);
            && r.overlay4 == n.overlay4 && r.overlay6 == n.overlay6
            && r.nextIpv4 == n.nextIpv4 + Min(k, Capacity4(n.overlay4))
            && r.nextIpv6 == n.nextIpv6 + Min(Min(k, Capacity4(n.overlay4)), Capacity6(n.overlay6))
  {
    Ipv4Bounds(n.overlay4);
    Ipv6Bounds(n.overlay6);
    if k > 0 {
      CursorsAfter(n, k - 1);
    }
  }

  /** The state of the cursors decides what the next call answers. */
  lemma NextAnswer(n: Network)
    requires MaxIpv4Offset(n.overlay4).Some?
    ensures Allocate(n).result
         == if n.nextIpv4 > MaxIpv4Offset(n.overlay4).value then Err(Conflict(Ipv4Exhausted))
            else if n.nextIpv6 > MaxIpv6Offset(n.overlay6) then Err(Conflict(Ipv6Exhausted))
            else Ok((First(n.overlay4, 32) + n.nextIpv4, First(n.overlay6, 128) + n.nextIpv6))
  {
  }

  /**
   A network grants exactly as many pairs as the smaller of its two subnets has addresses,
   one after the other, and then refuses forever.
   */
  lemma GrantsThenRefuses(n: Network, k: nat)
    requires CursorsFresh(n) && n.overlay4.prefix <= 30
    ensures Allocate(AfterCalls(n, k)).result
         == if k >= Capacity4(n.overlay4) then Err(Conflict(Ipv4Exhausted))
            else if k >= Capacity6(n.overlay6) then Err(Conflict(Ipv6Exhausted))
            else Ok((First(n.overlay4, 32) + (n.nextIpv4 + k), First(n.overlay6, 128) + (n.nextIpv6 + k)))
  {
    Ipv4Bounds(n.overlay4);
    CursorsAfter(n, k);
    NextAnswer(AfterCalls(n, k));
  }
}
