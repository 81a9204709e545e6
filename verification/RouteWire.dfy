/**
 The bytes a new-route request puts on the wire, octet by octet as rtnetlink lays them out, with the
 type numbers of the Linux headers.
 */
module RouteWire {
  import opened MeshTypes
  import opened NetlinkBytes
  import opened RouteCodec
  import opened RouteRoundTrip

  function Four(x: nat): (b: Bytes)
    requires x < 0x1_0000_0000
    ensures |b| == 4
  {
    [x % 256, x / 256 % 256, x / 65536 % 256, x / 16777216]
  }

  lemma FourIsLe32(x: nat)
    requires x < 0x1_0000_0000
    ensures Le32(x) == Four(x)
  {
    var lo, hi := x % 0x1_0000, x / 0x1_0000;
    assert x == 0x1_0000 * hi + lo;
    assert lo % 256 == x % 256 && lo / 256 == x / 256 % 256;
    assert hi / 256 == x / 16777216;
  }

  /** The netlink header, then the route message header: create or, unless it is multicast, replace. */
  lemma HeaderWire(r: Route, len: nat)
    requires RouteOk(r) && len < 0x1_0000_0000
    ensures Headers(r, len) ==
            Four(len) + [24, 0, 5, if r.kind == 5 then 4 else 5, 0, 0, 0, 0, 0, 0, 0, 0]
            + [if r.dst.v6 then 10 else 2, r.prefixLen, 0, 0, 254, r.protocol, 0, r.kind]
            + Four(if r.flags.Some? then r.flags.value else 0)
  {
    FourIsLe32(len);
    FourIsLe32(RouteFlags(r));
    assert Le16(24) == [24, 0] && Le16(0x505) == [5, 5] && Le16(0x405) == [5, 4];
    assert Zeros(8) == [0, 0, 0, 0, 0, 0, 0, 0];
  }

  /** An attribute whose payload is a multiple of four bytes, and short. */
  lemma AttrWire(kind: nat, payload: Bytes)
    requires kind < 256 && |payload| % 4 == 0 && |payload| < 252
    ensures Attr(kind, payload) == [4 + |payload|, 0, kind, 0] + payload
  {
    AlignAligned(4 + |payload|);
    assert Zeros(0) == [];
    assert Le16(4 + |payload|) == [4 + |payload|, 0] && Le16(kind) == [kind, 0];
  }

  lemma GatewayWire(nh: NextHop)
    requires HopOk(nh) && nh.gateway.Some?
    ensures GatewayOf(nh) == [if nh.gateway.value.v6 then 20 else 8, 0, 5, 0] + nh.gateway.value.bytes
  {
    AttrWire(5, nh.gateway.value.bytes);
  }

  /** The encapsulation of a label push: the stack inside two attributes, then the kind of tunnel. */
  lemma EncapWire(labels: seq<nat>)
    requires |labels| <= 16
    ensures EncapAttrs(labels) ==
            [8 + 4 * |labels|, 0, 22, 0] + ([4 + 4 * |labels|, 0, 1, 0] + LabelStack(labels))
            + [6, 0, 21, 0, 1, 0, 0, 0]
  {
    var stack, tunnel := EncapParts(labels);
  }

  lemma EncapParts(labels: seq<nat>) returns (stack: Bytes, tunnel: Bytes)
    requires |labels| <= 16
    ensures EncapAttrs(labels) == stack + tunnel && tunnel == [6, 0, 21, 0, 1, 0, 0, 0]
    ensures stack == [8 + 4 * |labels|, 0, 22, 0] + ([4 + 4 * |labels|, 0, 1, 0] + LabelStack(labels))
  {
    NestedWire(LabelStack(labels), |labels|);
    TunnelWire();
    stack, tunnel := Attr(22, Attr(1, LabelStack(labels))), Attr(21, Le16(1));
  }

  lemma NestedWire(stack: Bytes, n: nat)
    requires |stack| == 4 * n && n <= 16
    ensures Attr(22, Attr(1, stack)) == [8 + 4 * n, 0, 22, 0] + ([4 + 4 * n, 0, 1, 0] + stack)
  {
    assert |stack| % 4 == 0;
    AttrWire(1, stack);
    Mod4(4, |stack|);
    AttrWire(22, Attr(1, stack));
  }

  lemma TunnelWire()
    ensures Attr(21, Le16(1)) == [6, 0, 21, 0, 1, 0, 0, 0]
  {
    assert Le16(6) == [6, 0] && Le16(21) == [21, 0] && Le16(1) == [1, 0];
    assert Align(6) == 8 && Zeros(2) == [0, 0];
  }

  /** A next hop: its length, no flags, no weight, its interface; then the label stack if it pushes one, with
      exactly the last entry marked as the bottom; then its gateway, if any. */
  lemma HopWire(nh: NextHop)
    requires HopOk(nh)
    ensures var encap := if nh.action == Some(PUSH) && nh.pushLabels.Some? then EncapAttrs(nh.pushLabels.value) else [];
            var via := if nh.gateway.None? then []
                       else [if nh.gateway.value.v6 then 20 else 8, 0, 5, 0] + nh.gateway.value.bytes;
            HopBytes(nh) == [8 + |encap| + |via|, 0, 0, 0] + Four(if nh.ifIndex.Some? then nh.ifIndex.value else 0)
                            + encap + via
  {
    if nh.gateway.Some? { GatewayWire(nh); }
    FourIsLe32(IfIndex(nh));
    var len := HOP_HEADER + |EncapOf(nh)| + |GatewayOf(nh)|;
    assert Le16(len) == [len, 0];
    assert [len, 0] + [0, 0] == [len, 0, 0, 0];
  }

  lemma PlainHopWire(nh: NextHop)
    requires HopOk(nh) && nh.ifIndex.Some? && nh.action.None? && nh.gateway.Some? && nh.gateway.value.v6
    ensures |HopBytes(nh)| == 28
    ensures HopBytes(nh) == [28, 0, 0, 0] + Four(nh.ifIndex.value) + ([20, 0, 5, 0] + nh.gateway.value.bytes)
  {
    HopWire(nh);
    var head := [28, 0, 0, 0] + Four(nh.ifIndex.value);
    assert head + [] == head;
  }

  lemma OneHop(nh: NextHop)
    requires HopOk(nh)
    ensures HopsOk([nh]) && HopsBytes([nh]) == HopBytes(nh)
  {
    var order := [nh];
    assert order[1..] == [];
    assert HopBytes(nh) + [] == HopBytes(nh);
  }

  lemma DstWire(r: Route)
    requires RouteOk(r) && r.dst.v6
    ensures Attr(1, r.dst.bytes) == [20, 0, 1, 0] + r.dst.bytes
  {
    AttrWire(1, r.dst.bytes);
  }

  lemma PlainPathWire(nh: NextHop)
    requires HopOk(nh) && nh.ifIndex.Some? && nh.action.None? && nh.gateway.Some? && nh.gateway.value.v6
    ensures HopsOk([nh]) && |HopsBytes([nh])| == 28
    ensures Attr(9, HopsBytes([nh])) ==
            [32, 0, 9, 0] + ([28, 0, 0, 0] + Four(nh.ifIndex.value) + ([20, 0, 5, 0] + nh.gateway.value.bytes))
  {
    OneHop(nh);
    PlainHopWire(nh);
    AttrWire(9, HopBytes(nh));
  }

  lemma NothingBefore(b: Bytes)
    ensures [] + b == b
  {
  }

  /** The whole request for an IPv6 route with one plain next hop and no priority: 80 bytes. */
  lemma PlainWire(r: Route, nh: NextHop)
    requires RouteOk(r) && r.dst.v6 && r.priority.None? && nh in r.nextHops && HopOk(nh)
    requires nh.ifIndex.Some? && nh.action.None? && nh.gateway.Some? && nh.gateway.value.v6
    requires Encode(r, [nh]).code == SUCCESS
    ensures Encode(r, [nh]).bytes ==
            Headers(r, 80)
            + (([20, 0, 1, 0] + r.dst.bytes)
               + ([32, 0, 9, 0] + ([28, 0, 0, 0] + Four(nh.ifIndex.value) + ([20, 0, 5, 0] + nh.gateway.value.bytes))))
  {
    PlainPathWire(nh);
    EncodedBytes(r, [nh]);
    DstWire(r);
    NothingBefore(Attr(9, HopsBytes([nh])));
  }
}
