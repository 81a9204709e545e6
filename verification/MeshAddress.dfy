/**
 The IPv6 addresses derived from MAC addresses, as in Appendix A of RFC 4291, and the prefixes a
 mesh node programs.
 */
module MeshAddress {
  import opened MeshTypes
  import opened NetlinkBytes
  import opened RouteCodec
  import opened RouteCache

  /** The six bytes of a MAC address, most significant first. */
  function MacBytes(m: Mac): (b: Bytes)
    requires m <= BROADCAST
    ensures |b| == 6
  {
    var m1 := m / 256;
    var m2 := m1 / 256;
    var m3 := m2 / 256;
    var m4 := m3 / 256;
    [m4 / 256, m4 % 256, m3 % 256, m2 % 256, m1 % 256, m % 256]
  }

  /** Exclusive or with 0x02: the universal/local bit is inverted. */
  function FlipLocal(b: Byte): (r: Byte)
    ensures r != b && r % 2 == b % 2 && r / 4 == b / 4
  {
    if b / 2 % 2 == 0 then b + 2 else b - 2
  }

  const TAYGA_PREFIX: Bytes := [0xfd, 0, 0, 0, 0, 0, 0, 0]
  const MESH_PREFIX: Bytes := [0xfc, 0, 0, 0, 0, 0, 0, 0]
  const LINK_LOCAL_PREFIX: Bytes := [0xfe, 0x80, 0, 0, 0, 0, 0, 0]

  function FromMac(prefix: Bytes, m: Mac): (ip: Ip)
    requires |prefix| == 8 && m <= BROADCAST
    ensures ip.Ok() && ip.v6
  {
    var b := MacBytes(m);
    Ip(true, prefix + [FlipLocal(b[0]), b[1], b[2], 0xff, 0xfe, b[3], b[4], b[5]])
  }

  lemma MacBytesInjective(m: Mac, n: Mac)
    requires m <= BROADCAST && n <= BROADCAST && MacBytes(m) == MacBytes(n)
    ensures m == n
  {
    var b, c := MacBytes(m), MacBytes(n);
    assert b[0] == c[0] && b[1] == c[1];
    assert b[2] == c[2] && b[3] == c[3];
    assert b[4] == c[4] && b[5] == c[5];
  }

  lemma FlipLocalInjective(b: Byte, c: Byte)
    requires FlipLocal(b) == FlipLocal(c)
    ensures b == c
  {
    assert b / 4 == c / 4 && b % 2 == c % 2;
  }

  /** Different prefixes or different MAC addresses give different IPv6 addresses. */
  lemma FromMacInjective(p: Bytes, m: Mac, q: Bytes, n: Mac)
    requires |p| == 8 && |q| == 8 && m <= BROADCAST && n <= BROADCAST
    ensures FromMac(p, m) == FromMac(q, n) <==> p == q && m == n
  {
    if FromMac(p, m) == FromMac(q, n) {
      var b, c, x, y := MacBytes(m), MacBytes(n), FromMac(p, m).bytes, FromMac(q, n).bytes;
      assert p == x[..8] && q == y[..8];
      assert x[8] == FlipLocal(b[0]) && y[8] == FlipLocal(c[0]);
      FlipLocalInjective(b[0], c[0]);
      assert x[9] == b[1] && x[10] == b[2] && x[13] == b[3] && x[14] == b[4] && x[15] == b[5];
      assert y[9] == c[1] && y[10] == c[2] && y[13] == c[3] && y[14] == c[4] && y[15] == c[5];
      MacBytesInjective(m, n);
    }
  }

  // ----- Octet by octet

  /** Octet `k` of a MAC address, the first being the most significant. */
  function Octet(m: Mac, k: nat): (b: Byte)
    requires k < 6
  {
    (match k
     case 0 => m / 256 / 256 / 256 / 256 / 256
     case 1 => m / 256 / 256 / 256 / 256
     case 2 => m / 256 / 256 / 256
     case 3 => m / 256 / 256
     case 4 => m / 256
     case _ => m) % 256
  }

  /** An IPv6 address: two octets, six zeros, and the interface identifier made from a MAC address, which has
      ff:fe in its middle and the second lowest bit of its first octet inverted. */
  predicate Eui64(ip: Ip, p0: Byte, p1: Byte, m: Mac) {
    var b, first: int := ip.bytes, Octet(m, 0);
    && ip.v6 && |b| == 16 && b[..8] == [p0, p1, 0, 0, 0, 0, 0, 0]
    && b[8] == (if first % 4 < 2 then first + 2 else first - 2)
    && b[9] == Octet(m, 1) && b[10] == Octet(m, 2) && b[11] == 0xff && b[12] == 0xfe
    && b[13] == Octet(m, 3) && b[14] == Octet(m, 4) && b[15] == Octet(m, 5)
  }

  lemma MacOctets(m: Mac)
    requires m <= BROADCAST
    ensures MacBytes(m) == [Octet(m, 0), Octet(m, 1), Octet(m, 2), Octet(m, 3), Octet(m, 4), Octet(m, 5)]
  {
  }

  lemma FlipIs(b: Byte)
    ensures FlipLocal(b) == if b % 4 < 2 then b + 2 else b - 2
  {
    var c: int := b;
    assert c == 4 * (c / 4) + c % 4;
    assert c / 2 == 2 * (c / 4) + c % 4 / 2;
  }

  lemma FromMacOctets(prefix: Bytes, m: Mac)
    requires |prefix| == 8 && prefix[2..] == [0, 0, 0, 0, 0, 0] && m <= BROADCAST
    ensures Eui64(FromMac(prefix, m), prefix[0], prefix[1], m)
  {
    MacOctets(m);
    FlipIs(MacBytes(m)[0]);
    assert prefix == [prefix[0], prefix[1]] + prefix[2..];
    assert FromMac(prefix, m).bytes[..8] == prefix;
  }

  // ----- Prefixes

  function TaygaNet(m: Mac): Prefix
    requires m <= BROADCAST
  {
    Prefix(FromMac(TAYGA_PREFIX, m), 128)
  }

  function MeshNet(m: Mac): Prefix
    requires m <= BROADCAST
  {
    Prefix(FromMac(MESH_PREFIX, m), 128)
  }

  const GATE_NET := Prefix(Ip(true, [0xfd, 0, 0xff, 0xff, 0, 0, 0, 0, 0, 0, 0, 0, 0, 0, 0, 0]), 96)
  const TAYGA_V4_NET := Prefix(Ip(false, [172, 16, 0, 0]), 16)
  const DEFAULT_V4_NET := Prefix(Ip(false, [0, 0, 0, 0]), 0)

  /** The prefixes of different nodes, and the two prefixes of one node, differ. */
  lemma NetsDiffer(m: Mac, n: Mac)
    requires m <= BROADCAST && n <= BROADCAST
    ensures TaygaNet(m) == TaygaNet(n) <==> m == n
    ensures MeshNet(m) == MeshNet(n) <==> m == n
    ensures TaygaNet(m) != MeshNet(n)
  {
    FromMacInjective(TAYGA_PREFIX, m, TAYGA_PREFIX, n);
    FromMacInjective(MESH_PREFIX, m, MESH_PREFIX, n);
    FromMacInjective(TAYGA_PREFIX, m, MESH_PREFIX, n);
    assert TAYGA_PREFIX[0] != MESH_PREFIX[0];
  }

  /** The two address families of a mesh: its own addresses and those of the NAT64 gateway, tayga. */
  datatype Family = Mesh | Tayga

  /** How the prefixes of a node and the gateway address of a neighbour follow from its MAC address. */
  datatype Addressing = Addressing(net: (Family, Mac) -> Prefix, gateway: Mac -> Ip)
  {
    /** No two nodes and families share a prefix. */
    ghost predicate Apart() {
      forall f, m: Mac, g, n: Mac | m <= BROADCAST && n <= BROADCAST && net(f, m) == net(g, n) :: f == g && m == n
    }

    /** Every prefix is a single IPv6 address. */
    ghost predicate Hosts() { forall f, m: Mac :: net(f, m).ip.v6 && net(f, m).len == 128 }
  }

  function Within48(m: Mac): (r: Mac) ensures r <= BROADCAST && (m <= BROADCAST ==> r == m) { m % 0x1_0000_0000_0000 }

  const ADDRESSING := Addressing(
    (f: Family, m: Mac) => if f == Mesh then MeshNet(Within48(m)) else TaygaNet(Within48(m)),
    (m: Mac) => FromMac(LINK_LOCAL_PREFIX, Within48(m)))

  lemma AddressingApart()
    ensures ADDRESSING.Apart() && ADDRESSING.Hosts()
  {
    forall f, m: Mac, g, n: Mac | m <= BROADCAST && n <= BROADCAST && ADDRESSING.net(f, m) == ADDRESSING.net(g, n)
      ensures f == g && m == n
    {
      NetsDiffer(m, n);
      NetsDiffer(n, m);
    }
    forall f, m: Mac ensures ADDRESSING.net(f, m).ip.v6 && ADDRESSING.net(f, m).len == 128 {
      assert ADDRESSING.net(f, m) == MeshNet(Within48(m)) || ADDRESSING.net(f, m) == TaygaNet(Within48(m));
    }
  }

  lemma DropByte(m: nat, a: nat, r: nat)
    requires m == 256 * a + r
    ensures m / 256 == a + r / 256 && m % 256 == r % 256
  {
  }

  /** Only the lower 48 bits count. */
  lemma OctetsWithin48(m: Mac, k: nat)
    requires k < 6
    ensures Octet(Within48(m), k) == Octet(m, k)
  {
    var q, r := m / 0x1_0000_0000_0000, Within48(m);
    DropByte(m, 0x100_0000_0000 * q, r);
    DropByte(m / 256, 0x1_0000_0000 * q, r / 256);
    DropByte(m / 256 / 256, 0x100_0000 * q, r / 256 / 256);
    DropByte(m / 256 / 256 / 256, 0x1_0000 * q, r / 256 / 256 / 256);
    DropByte(m / 256 / 256 / 256 / 256, 0x100 * q, r / 256 / 256 / 256 / 256);
    DropByte(m / 256 / 256 / 256 / 256 / 256, q, r / 256 / 256 / 256 / 256 / 256);
  }

  lemma SameIdentifier(ip: Ip, p0: Byte, p1: Byte, m: Mac)
    requires Eui64(ip, p0, p1, Within48(m))
    ensures Eui64(ip, p0, p1, m)
  {
    OctetsWithin48(m, 0);
    OctetsWithin48(m, 1);
    OctetsWithin48(m, 2);
    OctetsWithin48(m, 3);
    OctetsWithin48(m, 4);
    OctetsWithin48(m, 5);
  }

  /** The mesh prefix of a node is fc00:: followed by its identifier, */
  lemma MeshOctets(m: Mac)
    ensures Eui64(ADDRESSING.net(Mesh, m).ip, 0xfc, 0, m) && ADDRESSING.net(Mesh, m).len == 128
  {
    FromMacOctets(MESH_PREFIX, Within48(m));
    assert ADDRESSING.net(Mesh, m) == MeshNet(Within48(m));
    SameIdentifier(FromMac(MESH_PREFIX, Within48(m)), 0xfc, 0, m);
  }

  /** its tayga prefix is fd00:: followed by the same, */
  lemma TaygaOctets(m: Mac)
    ensures Eui64(ADDRESSING.net(Tayga, m).ip, 0xfd, 0, m) && ADDRESSING.net(Tayga, m).len == 128
  {
    FromMacOctets(TAYGA_PREFIX, Within48(m));
    assert ADDRESSING.net(Tayga, m) == TaygaNet(Within48(m));
    SameIdentifier(FromMac(TAYGA_PREFIX, Within48(m)), 0xfd, 0, m);
  }

  /** and the address it is reached at as a neighbour is fe80:: followed by it. */
  lemma GatewayOctets(m: Mac)
    ensures Eui64(ADDRESSING.gateway(m), 0xfe, 0x80, m)
  {
    FromMacOctets(LINK_LOCAL_PREFIX, Within48(m));
    assert ADDRESSING.gateway(m) == FromMac(LINK_LOCAL_PREFIX, Within48(m));
    SameIdentifier(FromMac(LINK_LOCAL_PREFIX, Within48(m)), 0xfe, 0x80, m);
  }
}
