/** The allocator of guest addresses and host ports: next-fit over two cyclic ranges. */
module Ipam {
  import opened Bytes
  import FileData

  // ---------------------------------------------------------------- ranges

  /** A cyclic range of numbers, both ends included. */
  datatype Range = Range(lo: int, hi: int) {
    ghost predicate Has(x: int) { lo <= x <= hi }

    function Span(): int { hi - lo + 1 }

    /** The `k`-th candidate when the scan starts at `c`. */
    function At(c: int, k: int): int { if c + k <= hi then c + k else c + k - Span() }
  }

  /** Starting anywhere in the range, as many steps as it is long visit everything once. */
  lemma ScanCovers(r: Range, c: int, x: int)
    requires r.Has(c) && r.Has(x)
    ensures exists k :: 0 <= k < r.Span() && r.At(c, k) == x
  {
    var k := if x >= c then x - c else x - c + r.Span();
    assert 0 <= k < r.Span() && r.At(c, k) == x;
  }

  lemma ScanStays(r: Range, c: int, k: int)
    requires r.Has(c) && 0 <= k <= r.Span()
    ensures r.Has(r.At(c, k)) && r.At(c, r.Span()) == c
    ensures k < r.Span() ==> r.At(c, k + 1) == if r.At(c, k) == r.hi then r.lo else r.At(c, k) + 1
  {
  }

  ghost predicate Full(r: Range, used: set<int>) {
    forall x :: r.Has(x) ==> x in used
  }

  /** `x` is the first free candidate from the cursor `c`, cyclically. */
  ghost predicate FirstFree(r: Range, used: set<int>, c: int, x: int) {
    exists k :: 0 <= k < r.Span() && r.At(c, k) == x && x !in used && forall j :: 0 <= j < k ==> r.At(c, j) in used
  }

  function After(r: Range, x: int): int { if x == r.hi then r.lo else x + 1 }

  /** The address cursor is a 32-bit number: one step, then back to the start past the end. */
  function NextCursor(r: Range, c: int): int {
    var n := (c + 1) % WRAP32;
    if n > r.hi then r.lo else n
  }

  /** The cursor stays in range, except when it steps off the very last 32-bit address. */
  lemma CursorStays(r: Range, c: int)
    requires r.Has(c) && 0 <= r.lo && r.hi < WRAP32
    ensures r.Has(NextCursor(r, c)) <==> !(c == WRAP32 - 1 && r.lo > 0)
    ensures c < WRAP32 - 1 ==> NextCursor(r, c) == After(r, c)
  {
    if c < WRAP32 - 1 { assert (c + 1) % WRAP32 == c + 1; }
  }

  /** The scan of at most `n` addresses from the cursor: the address found, and where the cursor is then. */
  function Scan(r: Range, used: set<int>, c: int, n: nat): (Option<int>, int)
    decreases n
  {
    if n == 0 then (None, c) else
    if c !in used then (Some(c), NextCursor(r, c)) else Scan(r, used, NextCursor(r, c), n - 1)
  }

  lemma {:induction false} ScanRest(r: Range, used: set<int>, c: int, i: nat)
    requires 0 <= r.lo && r.hi < WRAP32 - 1 && r.Has(c) && i <= r.Span() && forall j :: 0 <= j < i ==>
             r.At(c, j) in used
    ensures var (x, c') := Scan(r, used, r.At(c, i), r.Span() - i);
            && r.Has(c')
            && (x.Some? ==> FirstFree(r, used, c, x.value) && r.Has(x.value) && c' == After(r, x.value))
            && (x.None? ==> c' == c && forall j :: 0 <= j < r.Span() ==> r.At(c, j) in used)
    decreases r.Span() - i
  {
    ScanStays(r, c, i);
    if i < r.Span() {
      var at := r.At(c, i);
      CursorStays(r, at);
      if at in used { ScanRest(r, used, c, i + 1); }
    }
  }

  /** In a range that ends below the last 32-bit address, the scan finds the first free address cyclically from
      the cursor, fails exactly when the range is full, and leaves the cursor in the range. */
  lemma ScanIsSound(r: Range, used: set<int>, c: int)
    requires 0 <= r.lo && r.hi < WRAP32 - 1 && r.Has(c)
    ensures var (x, c') := Scan(r, used, c, r.Span());
            && r.Has(c')
            && (x.None? <==> Full(r, used))
            && (x.None? ==> c' == c)
            && (x.Some? ==> FirstFree(r, used, c, x.value) && r.Has(x.value) && c' == After(r, x.value))
  {
    assert r.At(c, 0) == c;
    ScanRest(r, used, c, 0);
    if Scan(r, used, c, r.Span()).0.None? {
      forall x | r.Has(x) ensures x in used { ScanCovers(r, c, x); }
    }
  }

  /** In one that ends at the last 32-bit address, the scan after that address was handed out starts at 0.0.0.0 and
      hands that out, although it is outside the range. */
  lemma ScanLeavesRange(r: Range, used: set<int>)
    requires 0 < r.lo <= r.hi == WRAP32 - 1 && 0 !in used
    ensures NextCursor(r, r.hi) == 0 && Scan(r, used, 0, r.Span()).0 == Some(0) && !r.Has(0)
  {
  }

  // ---------------------------------------------------------------- guest identities

  datatype Net = Net(ip: int, port: int)

  /** 02:00 and the four address octets. */
  function Mac(ip: int): seq<int> {
    [2, 0, ip / 0x100_0000 % 256, ip / 0x1_0000 % 256, ip / 256 % 256, ip % 256]
  }

  /** Six octets: 02, 00, and the address, most significant octet first. */
  lemma MacReads(ip: int)
    requires 0 <= ip < WRAP32
    ensures var m := Mac(ip);
            && |m| == 6 && m[0] == 2 && m[1] == 0 && (forall i :: 0 <= i < 6 ==> 0 <= m[i] < 256)
            && ((m[2] * 256 + m[3]) * 256 + m[4]) * 256 + m[5] == ip
  {
    Octets(ip);
  }

  /** Different addresses give different MACs, and every MAC is unicast and locally administered. */
  lemma MacInjective(a: int, b: int)
    requires 0 <= a < WRAP32 && 0 <= b < WRAP32 && Mac(a) == Mac(b)
    ensures a == b && Mac(a)[0] % 2 == 0 && Mac(a)[0] / 2 % 2 == 1
  {
    var m, n := Mac(a), Mac(b);
    assert m[2] == n[2] && m[3] == n[3] && m[4] == n[4] && m[5] == n[5];
    Octets(a);
    Octets(b);
  }

  lemma Octets(a: int)
    requires 0 <= a < WRAP32
    ensures a == ((a / 0x100_0000 % 256 * 256 + a / 0x1_0000 % 256) * 256 + a / 256 % 256) * 256 + a % 256
  {
    assert a / 0x1_0000 == a / 256 / 256;
    assert a / 0x100_0000 == a / 256 / 256 / 256;
  }

  // ---------------------------------------------------------------- the allocator

  datatype Failure = BadGateway | BadMac | BadPorts | NoAddresses

  /** The assignable addresses of a subnet: without network and broadcast address, unless it is a /31 or /32. */
  function Assignable(addr: nat, ones: nat): (Range, int, int)
    requires ones <= 32
  {
    var size := Pow2(32 - ones);
    var net := addr - addr % size;
    var bcast := net + size - 1;
    (if ones < 31 then Range(net + 1, bcast - 1) else Range(net, bcast), net, bcast)
  }

  /** `x` and `addr` agree in the first `ones` of their 32 bits. */
  predicate SameSubnet(addr: nat, x: nat, ones: nat)
    requires ones <= 32
  {
    x / Pow2(32 - ones) == addr / Pow2(32 - ones)
  }

  /** All bits after the first `ones` are zero: the network address. */
  predicate LowestOf(x: nat, ones: nat)
    requires ones <= 32
  {
    x % Pow2(32 - ones) == 0
  }

  /** All bits after the first `ones` are one: the broadcast address. */
  predicate HighestOf(x: nat, ones: nat)
    requires ones <= 32
  {
    (x + 1) % Pow2(32 - ones) == 0
  }

  class Allocator {
    const ips: Range
    const ports: Range
    const gateway: int
    var usedIPs: set<int>
    var nextIP: int
    var usedPorts: set<int>
    var nextPort: int
    /** What has been handed out and not returned. */
    ghost var live: set<Net>

    /** Used is exactly what is live, plus the gateway; nothing is handed out twice. */
    ghost predicate Valid()
      reads this
    {
      && 0 <= ips.lo <= ips.hi < WRAP32 - 1 && ips.Has(nextIP)
      && 0 < ports.lo <= ports.hi < 0x1_0000 && ports.Has(nextPort)
      && (forall x :: x in usedIPs <==> x == gateway || exists n :: n in live && n.ip == x)
      && (forall x :: x in usedPorts <==> exists n :: n in live && n.port == x)
      && (forall n :: n in live ==> ips.Has(n.ip) && n.ip != gateway && ports.Has(n.port))
      && forall m, n :: m in live && n in live && m != n ==> m.ip != n.ip && m.port != n.port
    }

    constructor (ips: Range, ports: Range, gateway: int)
      requires ips.lo <= ips.hi && 0 < ports.lo <= ports.hi < 0x1_0000
      ensures 0 <= ips.lo && ips.hi < WRAP32 - 1 ==> Valid()
      ensures live == {} && usedIPs == {gateway} && usedPorts == {} && nextIP == ips.lo && nextPort == ports.lo
      ensures this.ips == ips && this.ports == ports && this.gateway == gateway
    {
      this.ips, this.ports, this.gateway := ips, ports, gateway;
      usedIPs, nextIP := {gateway}, ips.lo;
      usedPorts, nextPort := {}, ports.lo;
      live := {};
    }

    /** Next free address; the cursor is 32 bits wide. */
    method TakeIP() returns (r: Option<int>)
      requires ips.lo <= ips.hi
      modifies this`usedIPs, this`nextIP
      ensures (r, nextIP) == Scan(ips, old(usedIPs), old(nextIP), ips.Span())
      ensures usedIPs == old(usedIPs) + if r.Some? then {r.value} else {}
    {
      var span := ips.hi - ips.lo + 1;
      for i := 0 to span
        invariant usedIPs == old(usedIPs)
        invariant Scan(ips, usedIPs, nextIP, span - i) == Scan(ips, usedIPs, old(nextIP), ips.Span())
      {
        var cand := nextIP;
        nextIP := NextCursor(ips, nextIP);
        if cand !in usedIPs {
          usedIPs := usedIPs + {cand};
          return Some(cand);
        }
      }
      r := None;
    }

    method TakePort() returns (r: Option<int>)
      requires ports.lo <= ports.hi && ports.Has(nextPort)
      modifies this`usedPorts, this`nextPort
      ensures ports.Has(nextPort)
      ensures r.None? <==> Full(ports, old(usedPorts))
      ensures r.None? ==> usedPorts == old(usedPorts) && nextPort == old(nextPort)
      ensures r.Some? ==> FirstFree(ports, old(usedPorts), old(nextPort), r.value) && ports.Has(r.value)
      ensures r.Some? ==> usedPorts == old(usedPorts) + {r.value} && nextPort == After(ports, r.value)
    {
      var span := ports.hi - ports.lo + 1;
      ghost var c := nextPort;
      for i := 0 to span
        invariant ports.Has(nextPort) && nextPort == ports.At(c, i) && usedPorts == old(usedPorts)
        invariant forall j :: 0 <= j < i ==> ports.At(c, j) in usedPorts
      {
        var cand := nextPort;
        if nextPort == ports.hi {
          nextPort := ports.lo;
        } else {
          nextPort := nextPort + 1;
        }
        ScanStays(ports, c, i);
        if cand !in usedPorts {
          usedPorts := usedPorts + {cand};
          return Some(cand);
        }
      }
      ScanStays(ports, c, span);
      forall x | ports.Has(x) ensures x in usedPorts { ScanCovers(ports, c, x); }
      r := None;
    }

    /** A new identity, fresh in address and port; fails exactly when one of the pools is full, and then leaves the
        address pool as it was. */
    method Allocate() returns (r: Option<Net>)
      requires Valid()
      modifies this
      ensures Valid()
      ensures r.None? <==> Full(ips, old(usedIPs)) || Full(ports, old(usedPorts))
      ensures r.None? ==> live == old(live) && usedIPs == old(usedIPs) && usedPorts == old(usedPorts)
      ensures r.Some? ==> r.value !in old(live) && live == old(live) + {r.value}
      ensures r.Some? ==>
              FirstFree(ips, old(usedIPs), old(nextIP), r.value.ip) &&
              FirstFree(ports, old(usedPorts), old(nextPort), r.value.port)
    {
      hide FirstFree, Full, Scan;
      ghost var used := usedIPs;
      ScanIsSound(ips, usedIPs, nextIP);
      var ip := TakeIP();
      if ip.None? {
        return None;
      }
      FreeNotUsed(ips, used, old(nextIP), ip.value);
      ghost var usedP := usedPorts;
      var port := TakePort();
      if port.None? {
        usedIPs := usedIPs - {ip.value};
        assert usedIPs == used;
        return None;
      }
      FreeNotUsed(ports, usedP, old(nextPort), port.value);
      var n := Net(ip.value, port.value);
      assert n !in live;
      live := live + {n};
      r := Some(n);
    }

    /** Gives a live identity back; a VM that never got one has nothing to give. */
    method Release(n: Option<Net>)
      requires Valid() && (n.Some? ==> n.value in live)
      modifies this
      ensures Valid() && nextIP == old(nextIP) && nextPort == old(nextPort)
      ensures n.None? ==> live == old(live) && usedIPs == old(usedIPs) && usedPorts == old(usedPorts)
      ensures n.Some? ==> live == old(live) - {n.value}
      ensures n.Some? ==> usedIPs == old(usedIPs) - {n.value.ip} && usedPorts == old(usedPorts) - {n.value.port}
    {
      if n.None? {
        return;
      }
      usedIPs := usedIPs - {n.value.ip};
      usedPorts := usedPorts - {n.value.port};
      live := live - {n.value};
    }

    /** Live identities never share an address, a port or a MAC, and never take the gateway's address. */
    lemma AllDistinct(m: Net, n: Net)
      requires Valid() && m in live && n in live && m != n
      ensures m.ip != n.ip && m.port != n.port && Mac(m.ip) != Mac(n.ip) && m.ip != gateway
    {
      if Mac(m.ip) == Mac(n.ip) { MacInjective(m.ip, n.ip); }
    }
  }

  /** Builds an allocator over the subnet of `addr` with a mask of `ones` bits. */
  method NewIPAM(addr: nat, ones: nat, gateway: nat, macLen: nat, portMin: nat, portMax: nat)
    returns (a: Allocator?, f: Option<Failure>)
    requires addr < WRAP32 && ones <= 32 && gateway < WRAP32 && portMin < 0x1_0000 && portMax < 0x1_0000
    ensures a == null <==> f.Some?
    ensures f == Some(BadGateway) <==> !SameSubnet(addr, gateway, ones)
    ensures f == Some(BadMac) <==> SameSubnet(addr, gateway, ones) && macLen != 6
    ensures f == Some(BadPorts) <==>
            SameSubnet(addr, gateway, ones) && macLen == 6 && (portMin == 0 || portMax < portMin)
    ensures f == None <==> SameSubnet(addr, gateway, ones) && macLen == 6 && 0 < portMin <= portMax
    ensures a != null ==> fresh(a) && a.usedIPs == {gateway as int} && a.nextIP == a.ips.lo && a.live == {}
    ensures a != null ==> a.ports == Range(portMin, portMax) && a.gateway == gateway
    ensures a != null ==>
              forall x :: a.ips.Has(x) <==>
                0 <= x && SameSubnet(addr, x, ones) && (ones < 31 ==> !LowestOf(x, ones) && !HighestOf(x, ones))
    ensures a != null ==>
              (a.ips.hi < WRAP32 - 1 <==> !(ones >= 31 && addr / Pow2(32 - ones) == WRAP32 / Pow2(32 - ones) - 1))
    ensures a != null && a.ips.hi < WRAP32 - 1 ==> a.Valid()
  {
    hide Pow2, Allocator.Valid;
    SubnetFits(addr, ones);
    AssignableIs(addr, ones, gateway);
    EndsLast(addr, ones);
    var (range, net, bcast) := Assignable(addr, ones);
    forall x | 0 <= x
      ensures range.Has(x) <==> SameSubnet(addr, x, ones) && (ones < 31 ==> !LowestOf(x, ones) && !HighestOf(x, ones))
    {
      AssignableIs(addr, ones, x);
    }
    if !(net <= gateway <= bcast) {
      return null, Some(BadGateway);
    }
    if macLen != 6 {
      return null, Some(BadMac);
    }
    if portMin == 0 || portMax < portMin {
      return null, Some(BadPorts);
    }
    if range.hi < range.lo {
      return null, Some(NoAddresses);
    }
    a := new Allocator(range, Range(portMin, portMax), gateway);
    f := None;
  }

  /** 255.255.255.254/31 with the gateway at its first address: the first guest gets 255.255.255.255, the second
      one 0.0.0.0. */
  method LastSubnet() returns (first: Option<int>, second: Option<int>)
    ensures first == Some(0xFFFF_FFFF) && second == Some(0)
  {
    hide Scan, Pow2, Allocator.Valid, SameSubnet;
    LastRange(0xFFFF_FFFE);
    var a, _ := NewIPAM(0xFFFF_FFFE, 31, 0xFFFF_FFFE, 6, 1, 1);
    forall x ensures a.ips.Has(x) <==> 0xFFFF_FFFE <= x <= 0xFFFF_FFFF {
      if x >= 0 { LastRange(x); }
    }
    RangeIs(a.ips, 0xFFFF_FFFE, 0xFFFF_FFFF);
    first := a.TakeIP();
    assert a.usedIPs == {0xFFFF_FFFE, 0xFFFF_FFFF};
    second := a.TakeIP();
  }

  lemma RangeIs(r: Range, lo: int, hi: int)
    requires lo <= hi && forall x :: r.Has(x) <==> lo <= x <= hi
    ensures r == Range(lo, hi)
  {
    assert r.Has(lo) && r.Has(hi) && !r.Has(lo - 1) && !r.Has(hi + 1);
  }

  lemma LastRange(x: nat)
    ensures SameSubnet(0xFFFF_FFFE, x, 31) <==> 0xFFFF_FFFE <= x <= 0xFFFF_FFFF
    ensures Scan(Range(0xFFFF_FFFE, 0xFFFF_FFFF), {0xFFFF_FFFE}, 0xFFFF_FFFE, 2) == (Some(0xFFFF_FFFF), 0)
    ensures Scan(Range(0xFFFF_FFFE, 0xFFFF_FFFF), {0xFFFF_FFFE, 0xFFFF_FFFF}, 0, 2) == (Some(0), 1)
  {
    assert Pow2(1) == 2;
  }

  lemma {:induction false} Pow2Mono(a: nat, b: nat)
    requires a <= b
    ensures Pow2(a) <= Pow2(b) && Pow2(b) % Pow2(a) == 0
    decreases b
  {
    if a < b {
      Pow2Mono(a, b - 1);
      var q := Pow2(b - 1) / Pow2(a);
      assert Pow2(b - 1) == q * Pow2(a);
      assert Pow2(b) == (2 * q) * Pow2(a);
      Multiple(2 * q, Pow2(a));
    }
  }

  lemma Multiple(q: nat, n: nat)
    requires n > 0
    ensures (q * n) % n == 0
  {
    FileData.DivUnique(q * n, n, q, 0);
  }

  lemma Pow2Of32()
    ensures Pow2(32) == WRAP32 && Pow2(2) == 4 && Pow2(1) == 2 && Pow2(0) == 1
  {
    assert Pow2(8) == 256;
    assert Pow2(16) == 65536;
    assert Pow2(24) == 0x100_0000;
  }

  /** The subnet lies within the 32-bit addresses and always leaves something to assign. */
  lemma SubnetFits(addr: nat, ones: nat)
    requires addr < WRAP32 && ones <= 32
    ensures var (range, net, bcast) := Assignable(addr, ones);
            0 <= net <= addr <= bcast < WRAP32 && range.lo <= range.hi <= bcast &&
                (ones < 31 ==> net < range.lo && range.hi < bcast)
  {
    hide Pow2;
    Pow2Of32();
    Pow2Mono(32 - ones, 32);
    if ones <= 30 { Pow2Mono(2, 32 - ones); }
    Aligned(addr, Pow2(32 - ones), WRAP32);
  }

  /** The block of `addr`, told by division. */
  lemma BlockIs(addr: nat, size: nat, x: nat)
    requires size > 0
    ensures var net := addr - addr % size;
            && (net <= x < net + size <==> x / size == addr / size)
            && (net <= x < net + size ==>
                (x == net <==> x % size == 0) && (x + 1 == net + size <==> (x + 1) % size == 0))
  {
    var q, net := addr / size, addr - addr % size;
    assert net == q * size;
    if net <= x < net + size {
      InBlock(x, size, q, x - net);
      if x + 1 == net + size {
        assert x + 1 == (q + 1) * size;
        InBlock(x + 1, size, q + 1, 0);
      } else {
        InBlock(x + 1, size, q, x + 1 - net);
      }
    }
    assert x == x / size * size + x % size;
  }

  lemma InBlock(x: nat, size: nat, q: nat, r: nat)
    requires size > 0 && x == q * size + r && r < size
    ensures x / size == q && x % size == r
  {
    FileData.DivUnique(x, size, q, r);
    assert x == x / size * size + x % size;
  }

  /** What can be assigned: the addresses of the subnet, without the lowest and the highest if there are more than
      two. */
  lemma AssignableIs(addr: nat, ones: nat, x: nat)
    requires addr < WRAP32 && ones <= 32
    ensures var (range, net, bcast) := Assignable(addr, ones);
            && (net <= x <= bcast <==> SameSubnet(addr, x, ones))
            && (range.Has(x) <==>
                  SameSubnet(addr, x, ones) && (ones < 31 ==> !LowestOf(x, ones) && !HighestOf(x, ones)))
  {
    hide Pow2;
    SubnetFits(addr, ones);
    BlockIs(addr, Pow2(32 - ones), x);
  }

  /** Only a subnet at the very end reaches the last address. */
  lemma EndsLast(addr: nat, ones: nat)
    requires addr < WRAP32 && ones <= 32
    ensures Assignable(addr, ones).2 == WRAP32 - 1 <==> addr / Pow2(32 - ones) == WRAP32 / Pow2(32 - ones) - 1
  {
    hide Pow2;
    var size := Pow2(32 - ones);
    SubnetFits(addr, ones);
    Pow2Of32();
    Pow2Mono(32 - ones, 32);
    var l := WRAP32 / size;
    assert WRAP32 == l * size;
    BlockIs(addr, size, WRAP32 - 1);
    assert WRAP32 - 1 == (l - 1) * size + (size - 1);
    FileData.DivUnique(WRAP32 - 1, size, l - 1, size - 1);
  }

  lemma TimesMono(a: int, b: int, n: int)
    requires a <= b && n >= 0
    ensures a * n <= b * n
  {
    assert (b - a) * n >= 0;
  }

  /** An aligned block that starts below a multiple of its size ends below it. */
  lemma Aligned(addr: nat, size: nat, limit: nat)
    requires size > 0 && limit % size == 0 && addr < limit
    ensures var net := addr - addr % size; 0 <= net <= addr < net + size <= limit
  {
    var q, l := addr / size, limit / size;
    assert addr == q * size + addr % size && limit == l * size;
    if q >= l { TimesMono(l, q, size); } else { TimesMono(q + 1, l, size); }
  }

  lemma FreeNotUsed(r: Range, used: set<int>, c: int, x: int)
    requires FirstFree(r, used, c, x)
    ensures x !in used
  {
  }
}
