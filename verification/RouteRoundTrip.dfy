/** Parsing undoes encoding, for every IP route the encoder accepts. */
module RouteRoundTrip {
  import opened MeshTypes
  import opened NetlinkBytes
  import opened RouteCodec

  /** A next hop the message format can carry: everything but what the encoder does not write. */
  predicate Faithful(nh: NextHop, family: nat) {
    && HopOk(nh)
    && nh.ifIndex.Some? && nh.weight == 0 && nh.swapLabel.None?
    && (nh.gateway.Some? ==> nh.gateway.value.Family() == family)
    && (nh.action == Some(PUSH) <==> nh.pushLabels.Some?)
    && (nh.pushLabels.Some? ==> forall i | 0 <= i < |nh.pushLabels.value| :: nh.pushLabels.value[i] <= 0xFFFFF)
  }

  // ----- Labels

  lemma LabelRoundTrip(value: nat, bos: bool)
    requires value <= 0xFFFFF
    ensures DecodeLabel(EncodeLabel(value, bos)) == value
  {
    Be32RoundTrip(value * 0x1000 + if bos then 0x100 else 0);
  }

  lemma {:induction false} LabelsRoundTrip(labels: seq<nat>)
    requires forall i | 0 <= i < |labels| :: labels[i] <= 0xFFFFF
    ensures DecodeLabels(LabelStack(labels)) == labels
  {
    if labels != [] {
      var b := LabelStack(labels);
      LabelRoundTrip(labels[0], |labels| == 1);
      LabelsRoundTrip(labels[1..]);
      assert b[..4] == EncodeLabel(labels[0], |labels| == 1);
      assert b[4..] == LabelStack(labels[1..]);
      assert labels == [labels[0]] + labels[1..];
    }
  }

  lemma ParseLabelsAt(b: Bytes, stack: Bytes, n: nat)
    requires IsTlv(b, Tlv(MPLS_IPTUNNEL_DST, stack)) && |stack| == 4 * n && n <= MAX_LABELS
    ensures ParseMplsLabels(b) == Some(Some(DecodeLabels(stack)))
  {
    assert AttrLen(b) == ATTR_HEADER + 4 * n;
    assert (AttrLen(b) - ATTR_HEADER) / 4 == n;
    assert b[ATTR_HEADER..ATTR_HEADER + 4 * n] == stack;
  }

  lemma EncapRoundTrip(labels: seq<nat>)
    requires |labels| <= MAX_LABELS && forall i | 0 <= i < |labels| :: labels[i] <= 0xFFFFF
    ensures ParseMplsLabels(Attr(MPLS_IPTUNNEL_DST, LabelStack(labels))) == Some(Some(labels))
  {
    AttrIsTlv(MPLS_IPTUNNEL_DST, LabelStack(labels));
    ParseLabelsAt(Attr(MPLS_IPTUNNEL_DST, LabelStack(labels)), LabelStack(labels), |labels|);
    LabelsRoundTrip(labels);
  }

  // ----- A next hop

  /** The attributes of a next hop as the walk finds them. */
  function HopTlvs(nh: NextHop): seq<Tlv>
    requires HopOk(nh)
  {
    (if Pushed(nh).Some?
     then [Tlv(RTA_ENCAP, Attr(MPLS_IPTUNNEL_DST, LabelStack(Pushed(nh).value))),
           Tlv(RTA_ENCAP_TYPE, Le16(LWTUNNEL_ENCAP_MPLS))]
     else [])
    + (if nh.gateway.Some? then [Tlv(RTA_GATEWAY, nh.gateway.value.bytes)] else [])
  }

  lemma WalkGateway(nh: NextHop)
    requires HopOk(nh)
    ensures Walk(GatewayOf(nh)) == Some(if nh.gateway.Some? then [Tlv(RTA_GATEWAY, nh.gateway.value.bytes)] else [])
  {
    if nh.gateway.Some? {
      AttrIsTlv(RTA_GATEWAY, nh.gateway.value.bytes);
      WalkOne(GatewayOf(nh), Tlv(RTA_GATEWAY, nh.gateway.value.bytes));
    }
  }

  lemma WalkTwo(a: Bytes, t: Tlv, b: Bytes, u: Tlv, rest: Bytes, ts: seq<Tlv>)
    requires IsTlv(a, t) && IsTlv(b, u) && Walk(rest) == Some(ts)
    ensures Walk((a + b) + rest) == Some([t, u] + ts)
  {
    WalkCons(b, u, rest, ts);
    WalkCons(a, t, b + rest, [u] + ts);
    Reassociate(a, b, rest);
    Reassociate([t], [u], ts);
    assert [t] + [u] == [t, u];
  }

  lemma WalkHop(nh: NextHop)
    requires HopOk(nh)
    ensures Walk(EncapOf(nh) + GatewayOf(nh)) == Some(HopTlvs(nh))
  {
    WalkGateway(nh);
    var g := if nh.gateway.Some? then [Tlv(RTA_GATEWAY, nh.gateway.value.bytes)] else [];
    if Pushed(nh).Some? {
      WalkEncap(Pushed(nh).value, GatewayOf(nh), g);
    } else {
      assert EncapOf(nh) + GatewayOf(nh) == GatewayOf(nh);
      assert HopTlvs(nh) == g;
    }
  }

  lemma WalkEncap(labels: seq<nat>, rest: Bytes, ts: seq<Tlv>)
    requires |labels| <= MAX_LABELS && Walk(rest) == Some(ts)
    ensures Walk(EncapAttrs(labels) + rest)
            == Some([Tlv(RTA_ENCAP, Attr(MPLS_IPTUNNEL_DST, LabelStack(labels))),
                     Tlv(RTA_ENCAP_TYPE, Le16(LWTUNNEL_ENCAP_MPLS))] + ts)
  {
    var inner, kind := Attr(MPLS_IPTUNNEL_DST, LabelStack(labels)), Le16(LWTUNNEL_ENCAP_MPLS);
    AttrIsTlv(RTA_ENCAP, inner);
    AttrIsTlv(RTA_ENCAP_TYPE, kind);
    WalkTwo(Attr(RTA_ENCAP, inner), Tlv(RTA_ENCAP, inner), Attr(RTA_ENCAP_TYPE, kind), Tlv(RTA_ENCAP_TYPE, kind),
            rest, ts);
  }

  lemma ParseGateway(nh: NextHop, family: nat, built: NextHop)
    requires Faithful(nh, family)
    ensures var ts := if nh.gateway.Some? then [Tlv(RTA_GATEWAY, nh.gateway.value.bytes)] else [];
            ParseHopAttrs(ts, family, built) == Some(if nh.gateway.Some? then built.(gateway := nh.gateway) else built)
  {
    if nh.gateway.Some? {
      var ip := nh.gateway.value;
      assert ip.bytes[..|ip.bytes|] == ip.bytes;
      assert ParseIp(ip.bytes, family) == Some(Some(ip));
    }
  }

  lemma ParseTlvs(nh: NextHop, family: nat)
    requires Faithful(nh, family) && family != AF_MPLS
    ensures var built := ParseHopAttrs(HopTlvs(nh), family, NO_HOP.(ifIndex := nh.ifIndex));
            built.Some? && SetMplsAction(built.value, family) == nh
  {
    var start := NO_HOP.(ifIndex := nh.ifIndex);
    var ts := HopTlvs(nh);
    if Pushed(nh).Some? {
      var labels := Pushed(nh).value;
      EncapRoundTrip(labels);
      var pushed := start.(pushLabels := Some(labels));
      assert ParseHopAttr(ts[0], family, start) == Some(pushed);
      assert ParseHopAttr(ts[1], family, pushed) == Some(pushed);
      assert ts[1..][1..] == if nh.gateway.Some? then [Tlv(RTA_GATEWAY, nh.gateway.value.bytes)] else [];
      ParseGateway(nh, family, pushed);
    } else {
      ParseGateway(nh, family, start);
    }
  }

  lemma HeaderSplits(len: nat, ifIndex: nat, tail: Bytes)
    requires len <= U16_MAX && ifIndex < 0x1_0000_0000
    ensures var b := HopHeader(len, ifIndex) + tail;
            b[..2] == Le16(len) && b[4..8] == Le32(ifIndex) && b[HOP_HEADER..] == tail
  {
  }

  lemma HeaderNumbers(len: nat, ifIndex: nat, tail: Bytes)
    requires len <= U16_MAX && ifIndex < 0x1_0000_0000
    ensures var b := HopHeader(len, ifIndex) + tail; FromLe16(b[..2]) == len && FromLe32(b[4..8]) == ifIndex
  {
    HeaderSplits(len, ifIndex, tail);
    Le16RoundTrip(len);
    Le32RoundTrip(ifIndex);
  }

  lemma Sections(h: Bytes, body: Bytes, rest: Bytes)
    ensures var b := h + (body + rest); b[|h|..|h| + |body|] == body && b[|h| + |body|..] == rest
  {
  }

  lemma HopAndRest(nh: NextHop, rest: Bytes)
    requires HopOk(nh)
    ensures |HopBytes(nh)| <= U16_MAX
    ensures HopBytes(nh) + rest == HopHeader(|HopBytes(nh)|, IfIndex(nh)) + ((EncapOf(nh) + GatewayOf(nh)) + rest)
  {
    var h := HopHeader(|HopBytes(nh)|, IfIndex(nh));
    Reassociate(h, EncapOf(nh), GatewayOf(nh));
    Reassociate(h, EncapOf(nh) + GatewayOf(nh), rest);
  }

  lemma HeadAndRest(len: nat, ifIndex: nat, body: Bytes, rest: Bytes)
    requires len == HOP_HEADER + |body| <= U16_MAX && ifIndex < 0x1_0000_0000
    ensures var b := HopHeader(len, ifIndex) + (body + rest);
            && HopFits(b) && HopLen(b) == len && FromLe32(b[4..8]) == ifIndex
            && b[HOP_HEADER..len] == body && b[len..] == rest
  {
    HeaderNumbers(len, ifIndex, body + rest);
    Sections(HopHeader(len, ifIndex), body, rest);
  }

  lemma HopHead(nh: NextHop, rest: Bytes)
    requires HopOk(nh)
    ensures var b := HopBytes(nh) + rest;
            && HopFits(b) && HopLen(b) == |HopBytes(nh)| && FromLe32(b[4..8]) == IfIndex(nh)
            && b[HOP_HEADER..HopLen(b)] == EncapOf(nh) + GatewayOf(nh)
            && b[|HopBytes(nh)|..] == rest
  {
    HopAndRest(nh, rest);
    HeadAndRest(|HopBytes(nh)|, IfIndex(nh), EncapOf(nh) + GatewayOf(nh), rest);
  }

  lemma HopRoundTrip(nh: NextHop, family: nat, rest: Bytes)
    requires Faithful(nh, family) && family != AF_MPLS
    ensures HopFits(HopBytes(nh) + rest) && ParseHop(HopBytes(nh) + rest, family) == Some(nh)
  {
    HopHead(nh, rest);
    WalkHop(nh);
    ParseTlvs(nh, family);
  }

  // ----- The multipath attribute

  predicate HopsOk(order: seq<NextHop>) { forall i | 0 <= i < |order| :: HopOk(order[i]) }

  predicate AllFaithful(order: seq<NextHop>, family: nat) {
    forall i | 0 <= i < |order| :: Faithful(order[i], family)
  }

  function HopsBytes(order: seq<NextHop>): (b: Bytes)
    requires HopsOk(order)
    ensures |b| % 4 == 0
  {
    if order == [] then []
    else
      Mod4(|HopBytes(order[0])|, |HopsBytes(order[1..])|);
      HopBytes(order[0]) + HopsBytes(order[1..])
  }

  /** Parsing one next hop and what follows it. */
  lemma ParseHopsCons(a: Bytes, nh: NextHop, rest: Bytes, family: nat)
    requires |a| % 4 == 0 && HopFits(a + rest) && HopLen(a + rest) == |a|
    requires ParseHop(a + rest, family) == Some(nh)
    ensures rest == [] ==> ParseHops(a + rest, family) == Some([nh])
    ensures HopFits(rest) && ParseHops(rest, family).Some? ==>
              ParseHops(a + rest, family) == Some([nh] + ParseHops(rest, family).value)
  {
    AlignAligned(|a|);
    assert (a + rest)[|a|..] == rest;
  }

  lemma HopsBytesCons(order: seq<NextHop>)
    requires order != [] && HopsOk(order)
    ensures HopsBytes(order) == HopBytes(order[0]) + HopsBytes(order[1..])
    ensures order == [order[0]] + order[1..]
  {
  }

  lemma ConsRoundTrip(nh: NextHop, rest: Bytes, family: nat)
    requires Faithful(nh, family) && family != AF_MPLS
    ensures HopFits(HopBytes(nh) + rest)
    ensures rest == [] ==> ParseHops(HopBytes(nh) + rest, family) == Some([nh])
    ensures HopFits(rest) && ParseHops(rest, family).Some? ==>
              ParseHops(HopBytes(nh) + rest, family) == Some([nh] + ParseHops(rest, family).value)
  {
    HopHead(nh, rest);
    HopRoundTrip(nh, family, rest);
    ParseHopsCons(HopBytes(nh), nh, rest, family);
  }

  lemma {:induction false} HopsRoundTrip(order: seq<NextHop>, family: nat)
    requires order != [] && family != AF_MPLS && AllFaithful(order, family) && HopsOk(order)
    ensures HopFits(HopsBytes(order)) && ParseHops(HopsBytes(order), family) == Some(order)
    decreases |order|
  {
    HopsBytesCons(order);
    ConsRoundTrip(order[0], HopsBytes(order[1..]), family);
    if order[1..] != [] {
      HopsRoundTrip(order[1..], family);
    } else {
      assert order == [order[0]];
    }
  }

  lemma AppendHopBytes(r: Route, buf: Bytes, nh: NextHop)
    requires HopOk(nh) && |buf| % 4 == 0 && AppendHop(r, buf, nh).code == SUCCESS
    ensures AppendHop(r, buf, nh).bytes == buf + HopBytes(nh) && |buf + HopBytes(nh)| <= MAX_PAYLOAD
  {
  }

  lemma AppendHopsStep(r: Route, buf: Bytes, order: seq<NextHop>)
    requires order != [] && HopsOk(order) && |buf| % 4 == 0 && AppendHops(r, buf, order).code == SUCCESS
    ensures var buf' := buf + HopBytes(order[0]);
            |buf'| <= MAX_PAYLOAD && |buf'| % 4 == 0 && AppendHops(r, buf, order) == AppendHops(r, buf', order[1..])
  {
    AppendHopBytes(r, buf, order[0]);
    Mod4(|buf|, |HopBytes(order[0])|);
  }

  lemma HopsBytesSplit(buf: Bytes, order: seq<NextHop>)
    requires order != [] && HopsOk(order)
    ensures (buf + HopBytes(order[0])) + HopsBytes(order[1..]) == buf + HopsBytes(order)
    ensures |order| == 1 ==> HopsBytes(order) == HopBytes(order[0])
  {
    var a, b := HopBytes(order[0]), HopsBytes(order[1..]);
    Reassociate(buf, a, b);
    assert |order| == 1 ==> b == [] && a + b == a;
  }

  lemma {:induction false} AppendHopsBytes(r: Route, buf: Bytes, order: seq<NextHop>)
    requires HopsOk(order) && |buf| % 4 == 0
    requires AppendHops(r, buf, order).code == SUCCESS
    ensures AppendHops(r, buf, order).bytes == buf + HopsBytes(order)
    ensures order != [] ==> |buf + HopsBytes(order)| <= MAX_PAYLOAD
    decreases |order|
  {
    if order != [] {
      AppendHopsStep(r, buf, order);
      HopsBytesSplit(buf, order);
      AppendHopsBytes(r, buf + HopBytes(order[0]), order[1..]);
    } else {
      assert buf + [] == buf;
    }
  }

  // ----- The whole message

  function PriorityAttr(r: Route): (b: Bytes)
    requires RouteOk(r)
  {
    if r.priority.Some? then Attr(RTA_PRIORITY, Le32(r.priority.value)) else []
  }

  /** What comes before the next hops, with zeros in the place of the headers. */
  function Front(r: Route): (b: Bytes)
    requires RouteOk(r)
    ensures HEADERS <= |b| <= HEADERS + 28 && |b| % 4 == 0
  {
    Mod4(HEADERS, |Attr(RTA_DST, r.dst.bytes)|);
    Mod4(HEADERS + |Attr(RTA_DST, r.dst.bytes)|, |PriorityAttr(r)|);
    (Zeros(HEADERS) + Attr(RTA_DST, r.dst.bytes)) + PriorityAttr(r)
  }

  lemma BodyIsFront(r: Route, order: seq<NextHop>)
    requires RouteOk(r) && forall i | 0 <= i < |order| :: order[i] in r.nextHops
    ensures Body(r, order) == AppendMultipath(r, Front(r), order)
  {
    var d := Zeros(HEADERS) + Attr(RTA_DST, r.dst.bytes);
    assert r.priority.None? ==> d + [] == d;
  }

  lemma AppendFits(buf: Bytes, kind: nat, payload: Bytes)
    requires kind <= U16_MAX && |buf| % 4 == 0 && |payload| % 4 == 0
    ensures Append(buf, kind, payload).code == SUCCESS <==> |buf| + ATTR_HEADER + |payload| <= MAX_PAYLOAD
    ensures Append(buf, kind, payload).code == SUCCESS ==>
              |buf + Attr(kind, payload)| == |buf| + ATTR_HEADER + |payload|
  {
    Mod4(ATTR_HEADER, |payload|);
    AlignAligned(ATTR_HEADER + |payload|);
  }

  /** What appending the next hops gives. */
  lemma MultipathBytes(r: Route, buf: Bytes, order: seq<NextHop>)
    requires order != [] && HopsOk(order) && |buf| % 4 == 0 && AppendMultipath(r, buf, order).code == SUCCESS
    ensures |HopsBytes(order)| < MAX_PAYLOAD
    ensures AppendMultipath(r, buf, order).bytes == buf + Attr(RTA_MULTIPATH, HopsBytes(order))
    ensures |buf + Attr(RTA_MULTIPATH, HopsBytes(order))| <= MAX_PAYLOAD
  {
    AppendHopsBytes(r, Zeros(ATTR_HEADER), order);
    MultipathIsAppend(r, buf, order);
    assert (Zeros(ATTR_HEADER) + HopsBytes(order))[ATTR_HEADER..] == HopsBytes(order);
    AppendFits(buf, RTA_MULTIPATH, HopsBytes(order));
  }

  lemma PastFront(z: Bytes, a: Bytes, b: Bytes, c: Bytes)
    ensures (((z + a) + b) + c)[|z|..] == a + (b + c)
  {
  }

  lemma EncodeIs(r: Route, order: seq<NextHop>)
    requires RouteOk(r) && forall i | 0 <= i < |order| :: order[i] in r.nextHops
    ensures var b := Body(r, order);
            && (Encode(r, order).code == SUCCESS <==> b.code == SUCCESS)
            && (b.code == SUCCESS ==>
                  && HEADERS <= |b.bytes| <= MAX_PAYLOAD
                  && Encode(r, order).bytes == Headers(r, |b.bytes|) + b.bytes[HEADERS..]
                  && |Encode(r, order).bytes| == |b.bytes|)
  {
    BodyFits(r, order);
  }

  /** What a successful encoding consists of. */
  lemma EncodedBytes(r: Route, order: seq<NextHop>)
    requires RouteOk(r) && order != [] && (forall i | 0 <= i < |order| :: order[i] in r.nextHops) && HopsOk(order)
    requires Encode(r, order).code == SUCCESS
    ensures var m := Encode(r, order).bytes;
            && |HopsBytes(order)| < MAX_PAYLOAD
            && |m| <= MAX_PAYLOAD
            && m == Headers(r, |m|)
                    + (Attr(RTA_DST, r.dst.bytes) + (PriorityAttr(r) + Attr(RTA_MULTIPATH, HopsBytes(order))))
  {
    EncodeIs(r, order);
    BodyIsFront(r, order);
    MultipathBytes(r, Front(r), order);
    PastFront(Zeros(HEADERS), Attr(RTA_DST, r.dst.bytes), PriorityAttr(r), Attr(RTA_MULTIPATH, HopsBytes(order)));
  }

  // ----- When encoding succeeds

  /** The next hop carries what the encoder insists on. */
  predicate Complete(r: Route, nh: NextHop) {
    if nh.action == Some(PUSH) then nh.pushLabels.Some? && nh.gateway.Some?
    else nh.gateway.Some? || MayLackGateway(r)
  }

  predicate AllComplete(r: Route, order: seq<NextHop>) { forall i | 0 <= i < |order| :: Complete(r, order[i]) }

  lemma AppendHopIff(r: Route, buf: Bytes, nh: NextHop)
    requires HopOk(nh) && |buf| % 4 == 0
    ensures AppendHop(r, buf, nh).code == SUCCESS <==> Complete(r, nh) && |buf| + |HopBytes(nh)| <= MAX_PAYLOAD
    ensures AppendHop(r, buf, nh).code == SUCCESS ==> AppendHop(r, buf, nh).bytes == buf + HopBytes(nh)
  {
  }

  /** Which error a next hop meets: a push is asked for its labels, then for its gateway, and any other next hop for
      its gateway where one is needed, each as soon as what comes before has found room. */
  lemma HopErrors(r: Route, buf: Bytes, nh: NextHop)
    requires HopOk(nh) && |buf| % 4 == 0
    ensures var code, size := AppendHop(r, buf, nh).code, |buf|;
            && (code == NO_LABEL <==> nh.action == Some(PUSH) && nh.pushLabels.None? && size + 12 <= MAX_PAYLOAD)
            && (code == NO_NEXTHOP_IP <==>
                  && nh.gateway.None?
                  && if nh.action == Some(PUSH) then nh.pushLabels.Some? && size + |HopBytes(nh)| <= MAX_PAYLOAD
                     else r.kind != 5 && r.scope != 253 && size + 8 <= MAX_PAYLOAD)
            && (code != SUCCESS ==> AppendHop(r, buf, nh).bytes == buf)
  {
  }

  /** Next hops are written one after the other, and the first error ends it. */
  lemma {:induction false} FirstError(r: Route, buf: Bytes, a: seq<NextHop>, b: seq<NextHop>)
    requires HopsOk(a) && HopsOk(b) && |buf| % 4 == 0
    ensures HopsOk(a + b)
    ensures var first := AppendHops(r, buf, a);
            AppendHops(r, buf, a + b) == if first.code != SUCCESS then first else AppendHops(r, first.bytes, b)
    decreases |a|
  {
    if a == [] {
      assert a + b == b;
    } else {
      assert (a + b)[1..] == a[1..] + b;
      var first := AppendHop(r, buf, a[0]);
      if first.code == SUCCESS { FirstError(r, first.bytes, a[1..], b); }
    }
  }

  /** Subattributes of an encapsulation that are not a label stack are skipped. */
  lemma SkipsOthers(kind: nat, payload: Bytes, rest: Bytes)
    requires kind <= U16_MAX && kind != 1 && ATTR_HEADER + |payload| <= U16_MAX && AttrOk(rest)
    ensures ParseMplsLabels(Attr(kind, payload) + rest) == ParseMplsLabels(rest)
  {
    var a := Attr(kind, payload);
    AttrIsTlv(kind, payload);
    assert (a + rest)[..2] == a[..2] && (a + rest)[2..4] == a[2..4] && (a + rest)[|a|..] == rest;
  }

  lemma {:induction false} AppendHopsIff(r: Route, buf: Bytes, order: seq<NextHop>)
    requires HopsOk(order) && |buf| % 4 == 0 && |buf| <= MAX_PAYLOAD
    ensures AppendHops(r, buf, order).code == SUCCESS <==>
            AllComplete(r, order) && |buf| + |HopsBytes(order)| <= MAX_PAYLOAD
    decreases |order|
  {
    if order != [] {
      var nh, tail := order[0], order[1..];
      AppendHopIff(r, buf, nh);
      Mod4(|buf|, |HopBytes(nh)|);
      assert |HopsBytes(order)| == |HopBytes(nh)| + |HopsBytes(tail)|;
      assert AllComplete(r, order) <==> Complete(r, nh) && AllComplete(r, tail) by { CompleteSplit(r, order); }
      if Complete(r, nh) && |buf| + |HopBytes(nh)| <= MAX_PAYLOAD { AppendHopsIff(r, buf + HopBytes(nh), tail); }
    }
  }

  lemma CompleteSplit(r: Route, order: seq<NextHop>)
    requires order != []
    ensures AllComplete(r, order) <==> Complete(r, order[0]) && AllComplete(r, order[1..])
  {
    if Complete(r, order[0]) && AllComplete(r, order[1..]) {
      forall i | 0 <= i < |order| ensures Complete(r, order[i]) {
        if i > 0 { assert order[i] == order[1..][i - 1]; }
      }
    }
  }

  /** The bytes the next hops need behind what comes before them. */
  function MultipathSize(order: seq<NextHop>): nat
    requires HopsOk(order)
  {
    if order == [] then 0 else ATTR_HEADER + |HopsBytes(order)|
  }

  lemma NestedFits(r: Route, buf: Bytes, order: seq<NextHop>)
    requires order != [] && HopsOk(order) && |buf| % 4 == 0 && AppendHops(r, Zeros(ATTR_HEADER), order).code == SUCCESS
    ensures AppendMultipath(r, buf, order).code == SUCCESS <==> |buf| + ATTR_HEADER + |HopsBytes(order)| <= MAX_PAYLOAD
  {
    AppendHopsBytes(r, Zeros(ATTR_HEADER), order);
    MultipathIsAppend(r, buf, order);
    assert (Zeros(ATTR_HEADER) + HopsBytes(order))[ATTR_HEADER..] == HopsBytes(order);
    AppendFits(buf, RTA_MULTIPATH, HopsBytes(order));
  }

  lemma MultipathIff(r: Route, buf: Bytes, order: seq<NextHop>)
    requires HopsOk(order) && |buf| % 4 == 0 && |buf| <= MAX_PAYLOAD
    ensures AppendMultipath(r, buf, order).code == SUCCESS <==>
            AllComplete(r, order) && |buf| + MultipathSize(order) <= MAX_PAYLOAD
  {
    if order != [] {
      AppendHopsIff(r, Zeros(ATTR_HEADER), order);
      if AppendHops(r, Zeros(ATTR_HEADER), order).code == SUCCESS { NestedFits(r, buf, order); }
    }
  }

  function EncodedSize(r: Route, order: seq<NextHop>): nat
    requires RouteOk(r) && HopsOk(order)
  {
    HEADERS + |Attr(RTA_DST, r.dst.bytes)| + |PriorityAttr(r)| + MultipathSize(order)
  }

  /** Encoding succeeds exactly when every next hop is complete and the message fits the buffer. */
  lemma EncodeSucceedsIff(r: Route, order: seq<NextHop>)
    requires RouteOk(r) && (forall i | 0 <= i < |order| :: order[i] in r.nextHops) && HopsOk(order)
    ensures Encode(r, order).code == SUCCESS <==> AllComplete(r, order) && EncodedSize(r, order) <= MAX_PAYLOAD
  {
    BodyIsFront(r, order);
    MultipathIff(r, Front(r), order);
  }

  // ----- The header that is written without a check

  /** Whether the program's writes stay in its buffer. Everything behind a next hop's header is written
      after a check for room; the header itself is not. */
  predicate WritesInside(r: Route, buf: Bytes, order: seq<NextHop>)
    requires HopsOk(order) && |buf| % 4 == 0
    decreases |order|
  {
    order == [] ||
    (|buf| + HOP_HEADER <= MAX_PAYLOAD &&
     (AppendHop(r, buf, order[0]).code == SUCCESS ==> WritesInside(r, AppendHop(r, buf, order[0]).bytes, order[1..])))
  }

  /** The first `k` next hops are written without an error. */
  predicate Written(r: Route, size: nat, order: seq<NextHop>, k: nat)
    requires HopsOk(order) && k <= |order|
  {
    AllComplete(r, order[..k]) && size + |HopsBytes(order[..k])| <= MAX_PAYLOAD
  }

  predicate RoomAt(r: Route, size: nat, order: seq<NextHop>, k: nat)
    requires HopsOk(order) && k <= |order|
  {
    Written(r, size, order, k) ==> size + |HopsBytes(order[..k])| + HOP_HEADER <= MAX_PAYLOAD
  }

  /** Whenever some next hops have been written and another one follows, 8 bytes are left. */
  predicate RoomLeft(r: Route, size: nat, order: seq<NextHop>)
    requires HopsOk(order)
  {
    forall k {:trigger RoomAt(r, size, order, k)} | 0 <= k < |order| :: RoomAt(r, size, order, k)
  }

  lemma RoomFirst(r: Route, size: nat, order: seq<NextHop>)
    requires order != [] && HopsOk(order) && size <= MAX_PAYLOAD
    ensures RoomAt(r, size, order, 0) <==> size + HOP_HEADER <= MAX_PAYLOAD
  {
    assert order[..0] == [];
  }

  lemma RoomStep(r: Route, size: nat, order: seq<NextHop>)
    requires order != [] && HopsOk(order) && size <= MAX_PAYLOAD
    requires Complete(r, order[0]) && size + |HopBytes(order[0])| <= MAX_PAYLOAD
    ensures RoomLeft(r, size, order) <==>
            size + HOP_HEADER <= MAX_PAYLOAD && RoomLeft(r, size + |HopBytes(order[0])|, order[1..])
  {
    var tail, size' := order[1..], size + |HopBytes(order[0])|;
    RoomFirst(r, size, order);
    forall k | 0 <= k < |tail| ensures RoomAt(r, size, order, k + 1) <==> RoomAt(r, size', tail, k) {
      WrittenStep(r, size, order, k);
    }
    if size + HOP_HEADER <= MAX_PAYLOAD && RoomLeft(r, size', tail) {
      forall k | 0 <= k < |order| ensures RoomAt(r, size, order, k) {
        if k > 0 { assert RoomAt(r, size', tail, k - 1); }
      }
    }
    if RoomLeft(r, size, order) {
      assert RoomAt(r, size, order, 0);
      forall k | 0 <= k < |tail| ensures RoomAt(r, size', tail, k) { assert RoomAt(r, size, order, k + 1); }
    }
  }

  lemma RoomStop(r: Route, size: nat, order: seq<NextHop>)
    requires order != [] && HopsOk(order) && size <= MAX_PAYLOAD
    requires !(Complete(r, order[0]) && size + |HopBytes(order[0])| <= MAX_PAYLOAD)
    ensures RoomLeft(r, size, order) <==> size + HOP_HEADER <= MAX_PAYLOAD
  {
    RoomFirst(r, size, order);
    forall k | 0 < k < |order| ensures RoomAt(r, size, order, k) { NotWritten(r, size, order, k); }
    if RoomLeft(r, size, order) { assert RoomAt(r, size, order, 0); }
  }

  /** The writes stay inside if and only if 8 bytes are left before each next hop. */
  lemma {:induction false} WritesInsideIff(r: Route, buf: Bytes, order: seq<NextHop>)
    requires HopsOk(order) && |buf| % 4 == 0 && |buf| <= MAX_PAYLOAD
    ensures WritesInside(r, buf, order) <==> RoomLeft(r, |buf|, order)
    decreases |order|
  {
    if order != [] {
      AppendHopIff(r, buf, order[0]);
      if AppendHop(r, buf, order[0]).code == SUCCESS {
        RoomStep(r, |buf|, order);
        WritesInsideIff(r, buf + HopBytes(order[0]), order[1..]);
      } else {
        RoomStop(r, |buf|, order);
      }
    }
  }

  lemma WrittenStep(r: Route, size: nat, order: seq<NextHop>, k: nat)
    requires order != [] && HopsOk(order) && k < |order| && Complete(r, order[0])
    ensures |HopsBytes(order[..k + 1])| == |HopBytes(order[0])| + |HopsBytes(order[1..][..k])|
    ensures Written(r, size, order, k + 1) <==> Written(r, size + |HopBytes(order[0])|, order[1..], k)
  {
    var some := order[..k + 1];
    assert some[1..] == order[1..][..k] && some[0] == order[0];
    CompleteSplit(r, some);
  }

  lemma NotWritten(r: Route, size: nat, order: seq<NextHop>, k: nat)
    requires HopsOk(order) && 0 < k <= |order|
    requires !(Complete(r, order[0]) && size + |HopBytes(order[0])| <= MAX_PAYLOAD)
    ensures !Written(r, size, order, k)
  {
    var some := order[..k];
    assert some[0] == order[0];
    CompleteSplit(r, some);
  }

  /** `n` different link-scope next hops without a gateway. */
  function LinkHops(n: nat): (order: seq<NextHop>)
    requires n <= 1000
    ensures |order| == n && HopsOk(order)
  {
    if n == 0 then [] else [NextHop(Some(n), None, 0, None, None, None)] + LinkHops(n - 1)
  }

  lemma LinkHopsCons(n: nat, k: nat)
    requires 0 < k <= n <= 1000
    ensures LinkHops(n)[..k][0] == LinkHops(n)[0] && LinkHops(n)[..k][1..] == LinkHops(n - 1)[..k - 1]
    ensures |HopBytes(LinkHops(n)[0])| == 8 && LinkHops(n)[0].action == None
  {
  }

  lemma {:induction false} LinkHopsPrefix(n: nat, k: nat)
    requires k <= n <= 1000
    ensures |HopsBytes(LinkHops(n)[..k])| == 8 * k
  {
    if k > 0 {
      LinkHopsPrefix(n - 1, k - 1);
      LinkHopsCons(n, k);
      HopsBytesCons(LinkHops(n)[..k]);
    }
  }

  lemma {:induction false} LinkHopsPlain(n: nat, i: nat)
    requires i < n <= 1000
    ensures LinkHops(n)[i].action == None
  {
    if i > 0 {
      LinkHopsPlain(n - 1, i - 1);
      assert LinkHops(n)[i] == LinkHops(n - 1)[i - 1];
    }
  }

  /** 512 of them overrun the buffer: the header of the last is written behind its end. */
  lemma HeaderOverrun(r: Route)
    requires r.scope == RT_SCOPE_LINK
    ensures !WritesInside(r, Zeros(ATTR_HEADER), LinkHops(512))
  {
    var order := LinkHops(512);
    LinkHopsPrefix(512, 511);
    forall i | 0 <= i < 511 ensures Complete(r, order[..511][i]) { LinkHopsPlain(512, i); }
    assert !RoomAt(r, |Zeros(ATTR_HEADER)|, order, 511);
    WritesInsideIff(r, Zeros(ATTR_HEADER), order);
  }

  lemma HeaderFields(r: Route, len: nat, rest: Bytes)
    requires RouteOk(r) && len < 0x1_0000_0000
    ensures var m := Headers(r, len) + rest;
            && FromLe32(m[..4]) == len
            && m[16] == r.dst.Family() && m[17] == r.prefixLen
            && m[HEADERS..] == rest
            && Start(m) == Builder(Parsed(true, RT_TABLE_MAIN, RouteFlags(r), r.protocol, r.kind, RT_SCOPE_UNIVERSE,
                                          None, None, None, {}), NO_HOP, true)
  {
    var m := Headers(r, len) + rest;
    Le32RoundTrip(len);
    Le16RoundTrip(RTM_NEWROUTE);
    Le32RoundTrip(RouteFlags(r));
    assert m[..4] == Le32(len);
    assert m[4..6] == Le16(RTM_NEWROUTE);
    assert m[24..28] == Le32(RouteFlags(r));
  }

  function PriorityTlvs(r: Route): seq<Tlv>
    requires RouteOk(r)
  {
    if r.priority.Some? then [Tlv(RTA_PRIORITY, Le32(r.priority.value))] else []
  }

  function RouteTlvs(r: Route, order: seq<NextHop>): seq<Tlv>
    requires RouteOk(r) && HopsOk(order)
  {
    [Tlv(RTA_DST, r.dst.bytes)] + (PriorityTlvs(r) + [Tlv(RTA_MULTIPATH, HopsBytes(order))])
  }

  lemma WalkRoute(r: Route, order: seq<NextHop>)
    requires RouteOk(r) && HopsOk(order) && |HopsBytes(order)| < MAX_PAYLOAD
    ensures Walk(Attr(RTA_DST, r.dst.bytes) + (PriorityAttr(r) + Attr(RTA_MULTIPATH, HopsBytes(order))))
            == Some(RouteTlvs(r, order))
  {
    var t := Tlv(RTA_MULTIPATH, HopsBytes(order));
    AttrIsTlv(RTA_MULTIPATH, t.payload);
    AttrIsTlv(RTA_DST, r.dst.bytes);
    WalkParts(r, Attr(RTA_DST, r.dst.bytes), Tlv(RTA_DST, r.dst.bytes), Attr(RTA_MULTIPATH, t.payload), t);
  }

  lemma WalkParts(r: Route, d: Bytes, u: Tlv, mp: Bytes, t: Tlv)
    requires RouteOk(r) && IsTlv(d, u) && IsTlv(mp, t)
    ensures Walk(d + (PriorityAttr(r) + mp)) == Some([u] + (PriorityTlvs(r) + [t]))
  {
    WalkOne(mp, t);
    WalkPriority(r, mp, t);
    WalkCons(d, u, PriorityAttr(r) + mp, PriorityTlvs(r) + [t]);
  }

  lemma WalkPriority(r: Route, mp: Bytes, t: Tlv)
    requires RouteOk(r) && Walk(mp) == Some([t])
    ensures Walk(PriorityAttr(r) + mp) == Some(PriorityTlvs(r) + [t])
  {
    if r.priority.Some? {
      var p := Le32(r.priority.value);
      AttrIsTlv(RTA_PRIORITY, p);
      WalkCons(Attr(RTA_PRIORITY, p), Tlv(RTA_PRIORITY, p), mp, [t]);
    } else {
      assert PriorityAttr(r) + mp == mp;
      assert PriorityTlvs(r) + [t] == [t];
    }
  }

  lemma ParseRouteTlvs(r: Route, order: seq<NextHop>, b: Builder)
    requires RouteOk(r) && order != [] && HopsOk(order) && AllFaithful(order, r.dst.Family())
    requires b.route.nextHops == {}
    ensures ParseAttrs(RouteTlvs(r, order), r.dst.Family(), r.prefixLen, b)
            == Some(b.(single := false,
                       route := b.route.(dst := Some((r.dst, r.prefixLen)),
                                         priority := if r.priority.Some? then r.priority else b.route.priority,
                                         nextHops := set h | h in order)))
  {
    var family, ts := r.dst.Family(), RouteTlvs(r, order);
    assert r.dst.bytes[..|r.dst.bytes|] == r.dst.bytes;
    var b1 := b.(route := b.route.(dst := Some((r.dst, r.prefixLen))));
    assert ParseAttr(ts[0], family, r.prefixLen, b) == Some(b1);
    HopsRoundTrip(order, family);
    var last := [Tlv(RTA_MULTIPATH, HopsBytes(order))];
    if r.priority.Some? {
      Le32RoundTrip(r.priority.value);
      assert Le32(r.priority.value)[..4] == Le32(r.priority.value);
      var b2 := b1.(route := b1.route.(priority := r.priority));
      assert ParseAttr(ts[1], family, r.prefixLen, b1) == Some(b2);
      assert ts[1..][1..] == last;
      ParseMultipath(order, family, r.prefixLen, b2);
    } else {
      assert ts[1..] == last;
      ParseMultipath(order, family, r.prefixLen, b1);
    }
  }

  lemma ParseMultipath(order: seq<NextHop>, family: nat, prefixLen: nat, b: Builder)
    requires order != [] && family != AF_MPLS && HopsOk(order) && AllFaithful(order, family) && b.route.nextHops == {}
    ensures ParseAttrs([Tlv(RTA_MULTIPATH, HopsBytes(order))], family, prefixLen, b)
            == Some(b.(single := false, route := b.route.(nextHops := set h | h in order)))
  {
    HopsRoundTrip(order, family);
    var t := Tlv(RTA_MULTIPATH, HopsBytes(order));
    assert [t][1..] == [];
    assert {} + (set h | h in order) == set h | h in order;
  }

  lemma ParseFrom(m: Bytes, family: nat, prefixLen: nat, ts: seq<Tlv>, b: Builder)
    requires |m| >= HEADERS && FromLe32(m[..4]) == |m| && m[16] == family && m[17] == prefixLen
    requires Walk(m[HEADERS..]) == Some(ts) && ParseAttrs(ts, family, prefixLen, Start(m)) == Some(b)
    ensures Parse(m) == Some(Finish(b, family))
  {
  }

  /** Encode then parse is the identity on destination, prefix length, priority, protocol, type and next
      hops, in whatever order the set of next hops was written. */
  lemma RoundTrip(r: Route, order: seq<NextHop>)
    requires RouteOk(r) && r.nextHops != {} && r.nextHops == set h | h in order
    requires forall nh <- r.nextHops :: Faithful(nh, r.dst.Family())
    requires Encode(r, order).code == SUCCESS
    ensures Parse(Encode(r, order).bytes)
            == Some(Parsed(true, RT_TABLE_MAIN, RouteFlags(r), r.protocol, r.kind, RT_SCOPE_UNIVERSE,
                           Some((r.dst, r.prefixLen)), None, r.priority, r.nextHops))
  {
    assert HopsOk(order) && AllFaithful(order, r.dst.Family());
    EncodedRoundTrip(r, order, Encode(r, order).bytes);
  }

  lemma EncodedRoundTrip(r: Route, order: seq<NextHop>, m: Bytes)
    requires RouteOk(r) && order != [] && r.nextHops == (set h | h in order)
    requires HopsOk(order) && AllFaithful(order, r.dst.Family())
    requires Encode(r, order) == Result(SUCCESS, m)
    ensures Parse(m)
            == Some(Parsed(true, RT_TABLE_MAIN, RouteFlags(r), r.protocol, r.kind, RT_SCOPE_UNIVERSE,
                           Some((r.dst, r.prefixLen)), None, r.priority, r.nextHops))
  {
    EncodedBytes(r, order);
    var attrs := Attr(RTA_DST, r.dst.bytes) + (PriorityAttr(r) + Attr(RTA_MULTIPATH, HopsBytes(order)));
    HeaderFields(r, |m|, attrs);
    WalkRoute(r, order);
    var start := Start(m);
    ParseRouteTlvs(r, order, start);
    var b := start.(single := false,
                    route := start.route.(dst := Some((r.dst, r.prefixLen)), priority := r.priority,
                          nextHops := r.nextHops));
    ParseFrom(m, r.dst.Family(), r.prefixLen, RouteTlvs(r, order), b);
  }
}
