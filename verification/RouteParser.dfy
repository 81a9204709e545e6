/**
 The parser as the program runs it: loops that step through the attributes of a message and
 update builders. Each is proved to compute the function of `RouteCodec`.
 */
module RouteParser {
  import opened MeshTypes
  import opened NetlinkBytes
  import opened RouteCodec

  /** The label stack of an encapsulation attribute. */
  method DecodeLabelLoop(b: Bytes) returns (labels: seq<nat>)
    requires |b| % 4 == 0
    ensures labels == DecodeLabels(b)
  {
    labels := [];
    var n := |b| / 4;
    var i := 0;
    while i < n
      invariant i <= n && labels + DecodeLabels(b[4 * i..]) == DecodeLabels(b)
    {
      var rest := b[4 * i..];
      assert rest[4..] == b[4 * (i + 1)..];
      assert rest[..4] == b[4 * i..4 * i + 4];
      var value := DecodeLabel(b[4 * i..4 * i + 4]);
      assert labels + ([value] + DecodeLabels(rest[4..])) == (labels + [value]) + DecodeLabels(rest[4..]);
      labels := labels + [value];
      i := i + 1;
    }
    assert b[4 * i..] == [];
  }

  method ReadStackLoop(b: Bytes) returns (res: Option<seq<nat>>)
    requires |b| >= ATTR_HEADER
    ensures res == ReadStack(b)
  {
    if !AttrOk(b) { return None; }
    var n := (AttrLen(b) - ATTR_HEADER) / 4;
    if n > MAX_LABELS { return None; }
    var labels := DecodeLabelLoop(b[ATTR_HEADER..ATTR_HEADER + 4 * n]);
    res := Some(labels);
  }

  method ParseMplsLabelsLoop(payload: Bytes) returns (res: Option<Option<seq<nat>>>)
    ensures res == ParseMplsLabels(payload)
  {
    var b := payload;
    while true
      invariant ParseMplsLabels(b) == ParseMplsLabels(payload)
      decreases |b|
    {
      if |b| < ATTR_HEADER { return None; }
      if AttrKind(b) == MPLS_IPTUNNEL_DST {
        var labels := ReadStackLoop(b);
        if labels.None? { return None; }
        return Some(labels);
      }
      if AttrLen(b) == 0 { return Some(None); }
      var next := if Align(AttrLen(b)) <= |b| then b[Align(AttrLen(b))..] else [];
      if !AttrOk(next) { return Some(None); }
      b := next;
    }
  }

  // ----- The attributes of a next hop

  method ParseNextHopAttribute(t: Tlv, family: nat, nh: NextHop) returns (res: Option<NextHop>)
    ensures res == ParseHopAttr(t, family, nh)
  {
    var size := |t.payload|;
    if t.kind == RTA_GATEWAY {
      var ip := ParseIp(t.payload, family);
      if ip.None? { return None; }
      return Some(if ip.value.Some? then nh.(gateway := ip.value) else nh);
    } else if t.kind == RTA_VIA {
      var v6 := size + ATTR_HEADER > 16;
      if size < (if v6 then 18 else 6) { return None; }
      return Some(nh.(gateway := Some(Ip(v6, if v6 then t.payload[2..18] else t.payload[2..6]))));
    } else if t.kind == RTA_OIF {
      if size < 4 { return None; }
      return Some(nh.(ifIndex := Some(FromLe32(t.payload[..4]))));
    } else if t.kind == RTA_ENCAP {
      var labels := ParseMplsLabelsLoop(t.payload);
      if labels.None? { return None; }
      return Some(if labels.value.Some? then nh.(pushLabels := labels.value) else nh);
    } else if t.kind == RTA_NEWDST {
      if size < 4 { return None; }
      return Some(nh.(swapLabel := Some(DecodeLabel(t.payload[..4]))));
    }
    return Some(nh);
  }

  /** The builder after walking a region, if the walk and every attribute have a result. */
  function HopRegion(b: Bytes, family: nat, nh: NextHop): Option<NextHop> {
    var ts := Walk(b);
    if ts.None? then None else ParseHopAttrs(ts.value, family, nh)
  }

  lemma HopRegionStep(b: Bytes, family: nat, nh: NextHop)
    requires AttrOk(b) && Align(AttrLen(b)) <= |b|
    ensures var first := ParseHopAttr(Tlv(AttrKind(b), Payload(b)), family, nh);
            HopRegion(b, family, nh) ==
            if first.None? then None else HopRegion(b[Align(AttrLen(b))..], family, first.value)
  {
    var rest := Walk(b[Align(AttrLen(b))..]);
    if rest.Some? {
      var t := Tlv(AttrKind(b), Payload(b));
      assert ([t] + rest.value)[1..] == rest.value;
    }
  }

  method ParseHopRegion(region: Bytes, family: nat, start: NextHop) returns (res: Option<NextHop>)
    ensures res == HopRegion(region, family, start)
  {
    var b, nh := region, start;
    while AttrOk(b)
      invariant HopRegion(b, family, nh) == HopRegion(region, family, start)
      decreases |b|
    {
      if Align(AttrLen(b)) > |b| { return None; }
      HopRegionStep(b, family, nh);
      var first := ParseNextHopAttribute(Tlv(AttrKind(b), Payload(b)), family, nh);
      if first.None? { return None; }
      nh := first.value;
      b := b[Align(AttrLen(b))..];
    }
    res := Some(nh);
  }

  method ParseHopsLoop(payload: Bytes, family: nat) returns (res: Option<seq<NextHop>>)
    ensures res == ParseHops(payload, family)
  {
    if !HopFits(payload) { return None; }
    var b := payload;
    var hops := [];
    ghost var whole := ParseHops(payload, family);
    assert whole.Some? ==> [] + whole.value == whole.value;
    while true
      invariant HopFits(b)
      invariant ParseHops(payload, family) ==
                var more := ParseHops(b, family);
                if more.None? then None else Some(hops + more.value)
      decreases |b|
    {
      var built := ParseHopRegion(b[HOP_HEADER..HopLen(b)], family, NO_HOP.(ifIndex := Some(FromLe32(b[4..8]))));
      if built.None? { return None; }
      var nh := SetMplsAction(built.value, family);
      assert ParseHop(b, family) == Some(nh);
      var rest := if Align(HopLen(b)) <= |b| then b[Align(HopLen(b))..] else [];
      if !HopFits(rest) { return Some(hops + [nh]); }
      ghost var more := ParseHops(rest, family);
      assert more.Some? ==> hops + ([nh] + more.value) == (hops + [nh]) + more.value;
      hops := hops + [nh];
      b := rest;
    }
  }

  // ----- The message

  function Region(b: Bytes, family: nat, prefixLen: nat, s: Builder): Option<Builder> {
    var ts := Walk(b);
    if ts.None? then None else ParseAttrs(ts.value, family, prefixLen, s)
  }

  lemma RegionStep(b: Bytes, family: nat, prefixLen: nat, s: Builder)
    requires AttrOk(b) && Align(AttrLen(b)) <= |b|
    ensures var first := ParseAttr(Tlv(AttrKind(b), Payload(b)), family, prefixLen, s);
            Region(b, family, prefixLen, s) ==
            if first.None? then None else Region(b[Align(AttrLen(b))..], family, prefixLen, first.value)
  {
    var rest := Walk(b[Align(AttrLen(b))..]);
    if rest.Some? {
      var t := Tlv(AttrKind(b), Payload(b));
      assert ([t] + rest.value)[1..] == rest.value;
    }
  }

  method ParseRouteAttribute(t: Tlv, family: nat, prefixLen: nat, s: Builder) returns (res: Option<Builder>)
    ensures res == ParseAttr(t, family, prefixLen, s)
  {
    var route := s.route;
    if t.kind == RTA_DST {
      if family == AF_MPLS {
        if |t.payload| < 4 { return None; }
        return Some(s.(route := route.(mplsLabel := Some(DecodeLabel(t.payload[..4])))));
      }
      var ip := ParseIp(t.payload, family);
      if ip.None? { return None; }
      return Some(if ip.value.Some? then s.(route := route.(dst := Some((ip.value.value, prefixLen)))) else s);
    }
    if t.kind == RTA_PRIORITY {
      if |t.payload| < 4 { return None; }
      return Some(s.(route := route.(priority := Some(FromLe32(t.payload[..4])))));
    }
    if HopKind(t.kind) {
      var hop := ParseNextHopAttribute(t, family, s.hop);
      if hop.None? { return None; }
      return Some(s.(hop := hop.value));
    }
    if t.kind == RTA_MULTIPATH {
      var hops := ParseHopsLoop(t.payload, family);
      if hops.None? { return None; }
      return Some(s.(single := false, route := route.(nextHops := route.nextHops + set h | h in hops.value)));
    }
    return Some(s);
  }

  method ParseMessage(m: Bytes) returns (res: Option<Parsed>)
    ensures res == Parse(m)
  {
    if |m| < HEADERS || FromLe32(m[..4]) != |m| { return None; }
    var family, prefixLen := m[16] as nat, m[17] as nat;
    var b, s := m[HEADERS..], Start(m);
    while AttrOk(b)
      invariant Region(b, family, prefixLen, s) == Region(m[HEADERS..], family, prefixLen, Start(m))
      decreases |b|
    {
      if Align(AttrLen(b)) > |b| { return None; }
      RegionStep(b, family, prefixLen, s);
      var first := ParseRouteAttribute(Tlv(AttrKind(b), Payload(b)), family, prefixLen, s);
      if first.None? { return None; }
      s := first.value;
      b := b[Align(AttrLen(b))..];
    }
    res := Some(Finish(s, family));
  }
}
