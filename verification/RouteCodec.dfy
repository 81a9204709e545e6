/**
 The rtnetlink route message: what the encoder puts into its 4096-byte buffer and what the
 parser makes of a message, as functions on bytes.

 Host byte order is little-endian. MPLS label entries are in network order, the label in the
 top 20 bits and the bottom-of-stack flag in bit 8 (section 2.1 of RFC 3032).
 */
module RouteCodec {
  import opened MeshTypes
  import opened NetlinkBytes

  const MAX_PAYLOAD := 4096
  const MAX_LABELS := 16

  const AF_INET := 2
  const AF_INET6 := 10
  const AF_MPLS := 28
  const RTM_NEWROUTE := 24
  const RTA_DST := 1
  const RTA_OIF := 4
  const RTA_GATEWAY := 5
  const RTA_PRIORITY := 6
  const RTA_MULTIPATH := 9
  const RTA_VIA := 18
  const RTA_NEWDST := 19
  const RTA_ENCAP_TYPE := 21
  const RTA_ENCAP := 22
  const MPLS_IPTUNNEL_DST := 1
  const LWTUNNEL_ENCAP_MPLS := 1
  const RT_TABLE_MAIN := 254
  const RT_SCOPE_UNIVERSE := 0
  const RT_SCOPE_LINK := 253
  const RTN_MULTICAST := 5
  const NLM_F_REQUEST_ACK := 0x5
  const NLM_F_REPLACE := 0x100
  const NLM_F_CREATE := 0x400

  // ----- Routes

  datatype Ip = Ip(v6: bool, bytes: Bytes)
  {
    predicate Ok() { |bytes| == if v6 then 16 else 4 }
    function Family(): nat { if v6 then AF_INET6 else AF_INET }
  }

  datatype Action = PUSH | SWAP | PHP | POP_AND_LOOKUP

  datatype NextHop = NextHop(
    ifIndex: Option<nat>, gateway: Option<Ip>, weight: nat, action: Option<Action>,
    swapLabel: Option<nat>, pushLabels: Option<seq<nat>>)

  /** What `addRoute` reads of a route. */
  datatype Route = Route(
    dst: Ip, prefixLen: nat, kind: nat, protocol: nat, scope: nat, flags: Option<nat>, priority: Option<nat>,
    nextHops: set<NextHop>)

  datatype Code = SUCCESS | NO_MESSAGE_BUFFER | NO_LABEL | NO_NEXTHOP_IP

  datatype Result = Result(code: Code, bytes: Bytes)

  // ----- Encoding

  /** A label stack entry; a label over 20 bits is replaced by 0. */
  function EncodeLabel(value: nat, bos: bool): (b: Bytes)
    ensures |b| == 4
  {
    var l := if value > 0xFFFFF then 0 else value;
    Be32(l * 0x1000 + if bos then 0x100 else 0)
  }

  function LabelStack(labels: seq<nat>): (b: Bytes)
    ensures |b| == 4 * |labels|
  {
    if labels == [] then [] else EncodeLabel(labels[0], |labels| == 1) + LabelStack(labels[1..])
  }

  /** The four bytes at `4 * i`: the 20 bits of the label, or of 0 if it has more, a traffic class of 0, the
      bottom-of-stack bit and a time to live of 0. */
  predicate EntryAt(stack: Bytes, i: nat, value: nat, bottom: bool)
    requires 4 * i + 3 < |stack|
  {
    var l := if value <= 0xFFFFF then value else 0;
    && stack[4 * i] == l / 4096 && stack[4 * i + 1] == l / 16 % 256
    && stack[4 * i + 2] == l % 16 * 16 + (if bottom then 1 else 0) && stack[4 * i + 3] == 0
  }

  /** The entry as a number: 16 bits `h` and four bits `l` of the label, then the flag. */
  lemma EntryParts(x: nat, h: nat, l: nat, b: nat)
    requires x == 0x1_0000 * h + (0x1000 * l + 0x100 * b) && h < 0x1_0000 && l < 16 && b < 2
    ensures Be32(x) == [h / 256, h % 256, 16 * l + b, 0]
  {
    var y := 256 * h + (16 * l + b);
    assert x == 256 * y;
    assert x / 0x100 == y && y / 256 == h && y % 256 == 16 * l + b;
    assert x / 0x1_0000 == h && x / 0x100_0000 == h / 256;
  }

  lemma LabelParts(v: nat)
    requires v <= 0xFFFFF
    ensures v / 16 < 0x1_0000 && v / 16 / 256 == v / 4096 && v == 16 * (v / 16) + v % 16
  {
  }

  lemma LabelBytes(value: nat, bos: bool)
    ensures EntryAt(EncodeLabel(value, bos), 0, value, bos)
  {
    var v, b := if value > 0xFFFFF then 0 else value, if bos then 1 else 0;
    LabelParts(v);
    EntryParts(v * 0x1000 + if bos then 0x100 else 0, v / 16, v % 16, b);
  }

  lemma EntryBehind(first: Bytes, rest: Bytes, i: nat, value: nat, bottom: bool)
    requires |first| == 4 && 4 * i + 3 < |rest| && EntryAt(rest, i, value, bottom)
    ensures EntryAt(first + rest, i + 1, value, bottom)
  {
  }

  lemma EntryFirst(first: Bytes, rest: Bytes, value: nat, bottom: bool)
    requires |first| == 4 && EntryAt(first, 0, value, bottom)
    ensures EntryAt(first + rest, 0, value, bottom)
  {
  }

  /** Every label of a stack is its own entry, and exactly the last is marked as the bottom. */
  lemma {:induction false} StackBytes(labels: seq<nat>, i: nat)
    requires i < |labels|
    ensures EntryAt(LabelStack(labels), i, labels[i], i == |labels| - 1)
    decreases |labels|
  {
    var first, rest := EncodeLabel(labels[0], |labels| == 1), LabelStack(labels[1..]);
    if i == 0 {
      LabelBytes(labels[0], |labels| == 1);
      EntryFirst(first, rest, labels[0], |labels| == 1);
    } else {
      StackBytes(labels[1..], i - 1);
      EntryBehind(first, rest, i - 1, labels[i], i == |labels| - 1);
    }
  }

  /** Append a (sub)attribute if the aligned result fits the buffer. */
  function Append(buf: Bytes, kind: nat, payload: Bytes): Result
    requires kind <= U16_MAX && |buf| % 4 == 0
  {
    if |buf| + Align(ATTR_HEADER + |payload|) > MAX_PAYLOAD then Result(NO_MESSAGE_BUFFER, buf)
    else Result(SUCCESS, buf + Attr(kind, payload))
  }

  const HOP_HEADER := 8

  function HopHeader(len: nat, ifIndex: nat): (b: Bytes)
    requires len <= U16_MAX && ifIndex < 0x1_0000_0000
    ensures |b| == HOP_HEADER
  {
    Le16(len) + [0, 0] + Le32(ifIndex)
  }

  /** A next hop the encoder takes: plain or pushing labels. A label push must name its interface and
      have at most 16 labels; the program aborts otherwise. */
  predicate HopOk(nh: NextHop) {
    && (nh.ifIndex.Some? ==> nh.ifIndex.value < 0x8000_0000)
    && (nh.gateway.Some? ==> nh.gateway.value.Ok())
    && (nh.action == None || nh.action == Some(PUSH))
    && (nh.action == Some(PUSH) ==>
          nh.ifIndex.Some? && (nh.pushLabels.Some? ==> |nh.pushLabels.value| <= MAX_LABELS))
  }

  function IfIndex(nh: NextHop): nat { if nh.ifIndex.Some? then nh.ifIndex.value else 0 }

  /** The labels that are encoded. */
  function Pushed(nh: NextHop): Option<seq<nat>> { if nh.action == Some(PUSH) then nh.pushLabels else None }

  function EncapAttrs(labels: seq<nat>): (b: Bytes)
    requires |labels| <= MAX_LABELS
    ensures |b| == 16 + 4 * |labels|
  {
    Attr(RTA_ENCAP, Attr(MPLS_IPTUNNEL_DST, LabelStack(labels))) + Attr(RTA_ENCAP_TYPE, Le16(LWTUNNEL_ENCAP_MPLS))
  }

  function EncapOf(nh: NextHop): (b: Bytes)
    requires HopOk(nh)
    ensures |b| % 4 == 0 && |b| <= 16 + 4 * MAX_LABELS
  {
    if Pushed(nh).Some? then EncapAttrs(Pushed(nh).value) else []
  }

  function GatewayOf(nh: NextHop): (b: Bytes)
    requires HopOk(nh)
    ensures |b| % 4 == 0 && |b| <= 20
  {
    if nh.gateway.None? then [] else Attr(RTA_GATEWAY, nh.gateway.value.bytes)
  }

  /** A next hop: its header with the length filled in, then its attributes. */
  function HopBytes(nh: NextHop): (b: Bytes)
    requires HopOk(nh)
    ensures |b| == HOP_HEADER + |EncapOf(nh)| + |GatewayOf(nh)| && |b| % 4 == 0
  {
    Mod4(HOP_HEADER, |EncapOf(nh)|);
    Mod4(HOP_HEADER + |EncapOf(nh)|, |GatewayOf(nh)|);
    HopHeader(HOP_HEADER + |EncapOf(nh)| + |GatewayOf(nh)|, IfIndex(nh)) + EncapOf(nh) + GatewayOf(nh)
  }

  predicate MayLackGateway(r: Route) { r.kind == RTN_MULTICAST || r.scope == RT_SCOPE_LINK }

  /** Append one next hop, with the source's order of checks. */
  function AppendHop(r: Route, buf: Bytes, nh: NextHop): (res: Result)
    requires HopOk(nh) && |buf| % 4 == 0
    ensures |buf| <= |res.bytes| && |res.bytes| % 4 == 0
  {
    Mod4(|buf|, |HopBytes(nh)|);
    var start := |buf| + HOP_HEADER;
    if start > MAX_PAYLOAD then Result(NO_MESSAGE_BUFFER, buf)
    else if nh.action == Some(PUSH) then
      if start + ATTR_HEADER > MAX_PAYLOAD then Result(NO_MESSAGE_BUFFER, buf)
      else if nh.pushLabels.None? then Result(NO_LABEL, buf)
      else if start + |EncapOf(nh)| > MAX_PAYLOAD then Result(NO_MESSAGE_BUFFER, buf)
      else if nh.gateway.None? then Result(NO_NEXTHOP_IP, buf)
      else if |buf| + |HopBytes(nh)| > MAX_PAYLOAD then Result(NO_MESSAGE_BUFFER, buf)
      else Result(SUCCESS, buf + HopBytes(nh))
    else if nh.gateway.None? && !MayLackGateway(r) then Result(NO_NEXTHOP_IP, buf)
    else if |buf| + |HopBytes(nh)| > MAX_PAYLOAD then Result(NO_MESSAGE_BUFFER, buf)
    else Result(SUCCESS, buf + HopBytes(nh))
  }

  /** Append next hops in the given order; the first failure ends it. */
  function AppendHops(r: Route, buf: Bytes, order: seq<NextHop>): (res: Result)
    requires (forall i | 0 <= i < |order| :: HopOk(order[i])) && |buf| % 4 == 0
    ensures |buf| <= |res.bytes| && |res.bytes| % 4 == 0
    decreases |order|
  {
    if order == [] then Result(SUCCESS, buf)
    else
      var res := AppendHop(r, buf, order[0]);
      if res.code != SUCCESS then res else AppendHops(r, res.bytes, order[1..])
  }

  function RouteFlags(r: Route): nat { if r.flags.Some? then r.flags.value else 0 }

  predicate RouteOk(r: Route) {
    && r.dst.Ok()
    && r.prefixLen < 256 && r.kind < 256 && r.protocol < 256
    && RouteFlags(r) < 0x1_0000_0000
    && (r.priority.Some? ==> r.priority.value < 0x1_0000_0000)
    && forall nh <- r.nextHops :: HopOk(nh)
  }

  const HEADERS := 28

  /** The netlink header (sequence number and process id are filled in when sending) and the route
      message header of a new-route request. */
  function Headers(r: Route, len: nat): (b: Bytes)
    requires RouteOk(r) && len < 0x1_0000_0000
    ensures |b| == HEADERS
  {
    NlHeader(len, RTM_NEWROUTE, NLM_F_REQUEST_ACK + NLM_F_CREATE + if r.kind == RTN_MULTICAST then 0 else NLM_F_REPLACE)
    + RtHeader(r)
  }

  function NlHeader(len: nat, kind: nat, flags: nat): (b: Bytes)
    requires len < 0x1_0000_0000 && kind <= U16_MAX && flags <= U16_MAX
    ensures |b| == 16
  {
    Le32(len) + Le16(kind) + Le16(flags) + Zeros(8)
  }

  function RtHeader(r: Route): (b: Bytes)
    requires RouteOk(r)
    ensures |b| == 12
  {
    [r.dst.Family(), r.prefixLen, 0, 0, RT_TABLE_MAIN, r.protocol, RT_SCOPE_UNIVERSE, r.kind] + Le32(RouteFlags(r))
  }

  /** The next hops, built apart and appended as one multipath attribute. */
  function AppendMultipath(r: Route, buf: Bytes, order: seq<NextHop>): (res: Result)
    requires (forall i | 0 <= i < |order| :: HopOk(order[i])) && |buf| % 4 == 0
    ensures |buf| <= |res.bytes| || res.code != SUCCESS
  {
    if order == [] then Result(SUCCESS, buf)
    else
      var hops := AppendHops(r, Zeros(ATTR_HEADER), order);
      if hops.code != SUCCESS then hops else Append(buf, RTA_MULTIPATH, hops.bytes[ATTR_HEADER..])
  }

  lemma MultipathIsAppend(r: Route, buf: Bytes, order: seq<NextHop>)
    requires order != [] && (forall i | 0 <= i < |order| :: HopOk(order[i])) && |buf| % 4 == 0
    requires AppendHops(r, Zeros(ATTR_HEADER), order).code == SUCCESS
    ensures AppendMultipath(r, buf, order)
            == Append(buf, RTA_MULTIPATH, AppendHops(r, Zeros(ATTR_HEADER), order).bytes[ATTR_HEADER..])
  {
  }

  /** The buffer with its attributes; the headers' place is held by zeros. */
  function Body(r: Route, order: seq<NextHop>): Result
    requires RouteOk(r) && forall i | 0 <= i < |order| :: order[i] in r.nextHops
  {
    var d := Append(Zeros(HEADERS), RTA_DST, r.dst.bytes);
    if d.code != SUCCESS then d
    else
      var p := if r.priority.Some? then Append(d.bytes, RTA_PRIORITY, Le32(r.priority.value)) else d;
      if p.code != SUCCESS then p else AppendMultipath(r, p.bytes, order)
  }

  /** The encoder: the whole message, or the code of the first failure. */
  function Encode(r: Route, order: seq<NextHop>): Result
    requires RouteOk(r) && forall i | 0 <= i < |order| :: order[i] in r.nextHops
  {
    var b := Body(r, order);
    if b.code != SUCCESS then Result(b.code, [])
    else
      BodyFits(r, order);
      Result(SUCCESS, Headers(r, |b.bytes|) + b.bytes[HEADERS..])
  }

  lemma BodyFits(r: Route, order: seq<NextHop>)
    requires RouteOk(r) && forall i | 0 <= i < |order| :: order[i] in r.nextHops
    ensures Body(r, order).code == SUCCESS ==> HEADERS <= |Body(r, order).bytes| <= MAX_PAYLOAD
  {
  }

  // ----- Parsing

  /** What the parser's builders hold. */
  datatype Parsed = Parsed(
    valid: bool, table: nat, flags: nat, protocol: nat, kind: nat, scope: nat,
    dst: Option<(Ip, nat)>, mplsLabel: Option<nat>, priority: Option<nat>, nextHops: set<NextHop>)

  const NO_HOP := NextHop(None, None, 0, None, None, None)

  /** Reading past the end of the message has no result. */
  function ParseIp(payload: Bytes, family: nat): Option<Option<Ip>> {
    if family == AF_INET then if |payload| < 4 then None else Some(Some(Ip(false, payload[..4])))
    else if family == AF_INET6 then if |payload| < 16 then None else Some(Some(Ip(true, payload[..16])))
    else Some(None)
  }

  function DecodeLabel(b: Bytes): nat
    requires |b| == 4
  {
    FromBe32(b) / 0x1000
  }

  function DecodeLabels(b: Bytes): seq<nat>
    requires |b| % 4 == 0
  {
    if b == [] then [] else [DecodeLabel(b[..4])] + DecodeLabels(b[4..])
  }

  /** The labels of a tunnel destination attribute; more than 16 abort the program. */
  function ReadStack(b: Bytes): Option<seq<nat>>
    requires |b| >= ATTR_HEADER
  {
    if !AttrOk(b) then None
    else
      var n := (AttrLen(b) - ATTR_HEADER) / 4;
      if n > MAX_LABELS then None else Some(DecodeLabels(b[ATTR_HEADER..ATTR_HEADER + 4 * n]))
  }

  /** The label stack inside an encapsulation attribute: the first subattribute is looked at unchecked. */
  function ParseMplsLabels(b: Bytes): Option<Option<seq<nat>>>
    decreases |b|
  {
    if |b| < ATTR_HEADER then None
    else if AttrKind(b) == MPLS_IPTUNNEL_DST then
      var labels := ReadStack(b);
      if labels.None? then None else Some(labels)
    else if AttrLen(b) == 0 then Some(None)
    else
      var next := if Align(AttrLen(b)) <= |b| then b[Align(AttrLen(b))..] else [];
      if AttrOk(next) then ParseMplsLabels(next) else Some(None)
  }

  /** One next-hop attribute applied to the builder. */
  function ParseHopAttr(t: Tlv, family: nat, nh: NextHop): Option<NextHop> {
    if t.kind == RTA_GATEWAY then
      match ParseIp(t.payload, family)
      case None => None
      case Some(ip) => if ip.Some? then Some(nh.(gateway := ip)) else Some(nh)
    else if t.kind == RTA_VIA then
      if |t.payload| + ATTR_HEADER > 16 then
        if |t.payload| < 18 then None else Some(nh.(gateway := Some(Ip(true, t.payload[2..18]))))
      else if |t.payload| < 6 then None else Some(nh.(gateway := Some(Ip(false, t.payload[2..6]))))
    else if t.kind == RTA_OIF then
      if |t.payload| < 4 then None else Some(nh.(ifIndex := Some(FromLe32(t.payload[..4]))))
    else if t.kind == RTA_ENCAP then
      match ParseMplsLabels(t.payload)
      case None => None
      case Some(labels) => if labels.Some? then Some(nh.(pushLabels := labels)) else Some(nh)
    else if t.kind == RTA_NEWDST then
      if |t.payload| < 4 then None else Some(nh.(swapLabel := Some(DecodeLabel(t.payload[..4]))))
    else Some(nh)
  }

  function ParseHopAttrs(ts: seq<Tlv>, family: nat, nh: NextHop): Option<NextHop>
    decreases |ts|
  {
    if ts == [] then Some(nh)
    else
      var first := ParseHopAttr(ts[0], family, nh);
      if first.None? then None else ParseHopAttrs(ts[1..], family, first.value)
  }

  /** The label action is inferred from the fields found. */
  function SetMplsAction(nh: NextHop, family: nat): NextHop {
    if nh.pushLabels.Some? then nh.(action := Some(PUSH))
    else if family == AF_MPLS then
      nh.(action := Some(if nh.gateway.None? then POP_AND_LOOKUP else if nh.swapLabel.Some? then SWAP else PHP))
    else nh
  }

  function HopLen(b: Bytes): nat
    requires |b| >= HOP_HEADER
  {
    FromLe16(b[..2])
  }

  predicate HopFits(b: Bytes) { |b| >= HOP_HEADER && HOP_HEADER <= HopLen(b) <= |b| }

  function ParseHop(b: Bytes, family: nat): Option<NextHop>
    requires HopFits(b)
  {
    var ts := Walk(b[HOP_HEADER..HopLen(b)]);
    if ts.None? then None
    else
      var nh := ParseHopAttrs(ts.value, family, NO_HOP.(ifIndex := Some(FromLe32(b[4..8]))));
      if nh.None? then None else Some(SetMplsAction(nh.value, family))
  }

  /** The next hops of a multipath attribute. The first is parsed without a length check. */
  function ParseHops(b: Bytes, family: nat): Option<seq<NextHop>>
    decreases |b|
  {
    if !HopFits(b) then None
    else
      var nh := ParseHop(b, family);
      if nh.None? then None
      else
        var rest := if Align(HopLen(b)) <= |b| then b[Align(HopLen(b))..] else [];
        if !HopFits(rest) then Some([nh.value])
        else
          var more := ParseHops(rest, family);
          if more.None? then None else Some([nh.value] + more.value)
  }

  predicate HopKind(kind: nat) { kind in {RTA_GATEWAY, RTA_OIF, RTA_VIA, RTA_ENCAP, RTA_NEWDST} }

  /** The route and the single next hop under construction, and whether a multipath attribute was seen. */
  datatype Builder = Builder(route: Parsed, hop: NextHop, single: bool)

  function ParseAttr(t: Tlv, family: nat, prefixLen: nat, b: Builder): Option<Builder> {
    if t.kind == RTA_DST then
      if family == AF_MPLS then
        if |t.payload| < 4 then None
        else Some(b.(route := b.route.(mplsLabel := Some(DecodeLabel(t.payload[..4])))))
      else
        match ParseIp(t.payload, family)
        case None => None
        case Some(ip) => if ip.Some? then Some(b.(route := b.route.(dst := Some((ip.value, prefixLen))))) else Some(b)
    else if t.kind == RTA_PRIORITY then
      if |t.payload| < 4 then None else Some(b.(route := b.route.(priority := Some(FromLe32(t.payload[..4])))))
    else if HopKind(t.kind) then
      var hop := ParseHopAttr(t, family, b.hop);
      if hop.None? then None else Some(b.(hop := hop.value))
    else if t.kind == RTA_MULTIPATH then
      var hops := ParseHops(t.payload, family);
      if hops.None? then None
      else Some(b.(single := false, route := b.route.(nextHops := b.route.nextHops + set h | h in hops.value)))
    else Some(b)
  }

  function ParseAttrs(ts: seq<Tlv>, family: nat, prefixLen: nat, b: Builder): Option<Builder>
    decreases |ts|
  {
    if ts == [] then Some(b)
    else
      var first := ParseAttr(ts[0], family, prefixLen, b);
      if first.None? then None else ParseAttrs(ts[1..], family, prefixLen, first.value)
  }

  function Start(m: Bytes): Builder
    requires |m| >= HEADERS
  {
    Builder(Parsed(FromLe16(m[4..6]) == RTM_NEWROUTE, m[20], FromLe32(m[24..28]), m[21], m[23], m[22],
                   None, None, None, {}), NO_HOP, true)
  }

  function Finish(b: Builder, family: nat): Parsed {
    if b.single then b.route.(nextHops := b.route.nextHops + {SetMplsAction(b.hop, family)}) else b.route
  }

  /** The parser, on the bytes of one message as its header counts them. */
  function Parse(m: Bytes): Option<Parsed> {
    if |m| < HEADERS || FromLe32(m[..4]) != |m| then None
    else
      var ts := Walk(m[HEADERS..]);
      if ts.None? then None
      else
        var b := ParseAttrs(ts.value, m[16], m[17], Start(m));
        if b.None? then None else Some(Finish(b.value, m[16]))
  }
}
