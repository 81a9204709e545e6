/**
 The encoder as the program runs it: a zeroed fixed-size buffer into which headers and
 attributes are written in place, lengths patched afterwards. Each method is proved to leave in
 the buffer what `RouteCodec` says.
 */
module RouteMessage {
  import opened MeshTypes
  import opened NetlinkBytes
  import opened RouteCodec

  // ----- Writing into a buffer

  /** The buffer starts with `c` and is zero after it. */
  ghost predicate Holds(a: array<Byte>, c: Bytes)
    reads a
  {
    |c| <= a.Length && a[..|c|] == c && forall i | |c| <= i < a.Length :: a[i] == 0
  }

  function Overwrite(c: Bytes, off: nat, data: Bytes): Bytes
    requires off + |data| <= |c|
  {
    c[..off] + data + c[off + |data|..]
  }

  /** Copy `data` into the buffer right after its contents. */
  method Push(a: array<Byte>, data: Bytes, ghost c: Bytes, off: nat)
    requires Holds(a, c) && off == |c| && off + |data| <= a.Length
    modifies a
    ensures Holds(a, c + data)
  {
    forall i | 0 <= i < |data| { a[off + i] := data[i]; }
    assert a[..off] == c;
    assert a[off..off + |data|] == data;
    assert a[..|c + data|] == a[..off] + a[off..off + |data|];
  }

  /** Copy `data` over part of the contents. */
  method Patch(a: array<Byte>, data: Bytes, ghost c: Bytes, off: nat)
    requires Holds(a, c) && off + |data| <= |c|
    modifies a
    ensures Holds(a, Overwrite(c, off, data))
  {
    forall i | 0 <= i < |data| { a[off + i] := data[i]; }
    assert a[..|c|] == Overwrite(c, off, data);
  }

  /** The zeros after the contents serve as padding. */
  lemma Padded(a: array<Byte>, c: Bytes, n: nat)
    requires Holds(a, c) && |c| + n <= a.Length
    ensures Holds(a, c + Zeros(n))
  {
    assert a[..|c| + n] == c + Zeros(n);
  }

  lemma AttrParts(kind: nat, data: Bytes)
    requires kind <= U16_MAX && ATTR_HEADER + |data| <= U16_MAX
    ensures Attr(kind, data) == ((Le16(ATTR_HEADER + |data|) + Le16(kind)) + data)
                                + Zeros(Align(ATTR_HEADER + |data|) - (ATTR_HEADER + |data|))
  {
  }

  /** Write an attribute after the contents, which are `off` bytes and aligned. */
  method PushAttr(a: array<Byte>, kind: nat, data: Bytes, ghost c: Bytes, off: nat)
    requires Holds(a, c) && off == |c| && kind <= U16_MAX && ATTR_HEADER + |data| <= U16_MAX
    requires off + Align(ATTR_HEADER + |data|) <= a.Length
    modifies a
    ensures Holds(a, c + Attr(kind, data))
  {
    var image := (Le16(ATTR_HEADER + |data|) + Le16(kind)) + data;
    Push(a, image, c, off);
    ghost var pad := Align(ATTR_HEADER + |data|) - (ATTR_HEADER + |data|);
    Padded(a, c + image, pad);
    AttrParts(kind, data);
    assert (c + image) + Zeros(pad) == c + (image + Zeros(pad));
  }

  // ----- Next hops

  /** A subattribute inside the multipath attribute under construction, if there is room. */
  method AddSubAttributes(a: array<Byte>, kind: nat, data: Bytes, ghost c: Bytes, rtaLen: nat) returns (ok: bool)
    requires a.Length == MAX_PAYLOAD && Holds(a, c) && rtaLen == |c| && rtaLen % 4 == 0 && kind <= U16_MAX
    modifies a
    ensures ok <==> rtaLen + Align(ATTR_HEADER + |data|) <= MAX_PAYLOAD
    ensures ok ==> Holds(a, c + Attr(kind, data))
    ensures !ok ==> Holds(a, c)
  {
    if rtaLen + Align(ATTR_HEADER + |data|) > MAX_PAYLOAD { return false; }
    PushAttr(a, kind, data, c, rtaLen);
    return true;
  }

  method EncodeLabels(labels: seq<nat>) returns (stack: Bytes)
    ensures stack == LabelStack(labels)
    ensures |stack| == 4 * |labels| && forall i | 0 <= i < |labels| :: EntryAt(stack, i, labels[i], i == |labels| - 1)
  {
    stack := [];
    var i := 0;
    while i < |labels|
      invariant i <= |labels| && stack + LabelStack(labels[i..]) == LabelStack(labels)
    {
      var bos := i == |labels| - 1;
      var entry := EncodeLabel(labels[i], bos);
      assert labels[i..][1..] == labels[i + 1..];
      assert stack + (entry + LabelStack(labels[i + 1..])) == (stack + entry) + LabelStack(labels[i + 1..]);
      stack := stack + entry;
      i := i + 1;
    }
    assert labels[i..] == [];
    forall i | 0 <= i < |labels| ensures EntryAt(stack, i, labels[i], i == |labels| - 1) { StackBytes(labels, i); }
  }

  /** The label stack inside its encapsulation. The outer attribute is started empty, the stack is added
      behind it and the outer length patched to cover it. */
  method AddStack(a: array<Byte>, stack: Bytes, ghost c: Bytes, rtaLen: nat) returns (ok: bool)
    requires a.Length == MAX_PAYLOAD && Holds(a, c) && rtaLen == |c| && rtaLen % 4 == 0
    requires |stack| % 4 == 0 && |stack| <= 4 * MAX_LABELS && rtaLen + ATTR_HEADER <= MAX_PAYLOAD
    modifies a
    ensures ok <==> rtaLen + 8 + |stack| <= MAX_PAYLOAD
    ensures ok ==> Holds(a, c + Attr(RTA_ENCAP, Attr(MPLS_IPTUNNEL_DST, stack)))
  {
    ok := AddSubAttributes(a, RTA_ENCAP, [], c, rtaLen);
    ghost var c1 := c + Attr(RTA_ENCAP, []);
    ok := AddSubAttributes(a, MPLS_IPTUNNEL_DST, stack, c1, rtaLen + 4);
    if !ok { return; }
    Nested(c, stack);
    Patch(a, Le16(8 + |stack|), c1 + Attr(MPLS_IPTUNNEL_DST, stack), rtaLen);
  }

  /** The encapsulation attributes of a label push. */
  method AddEncap(a: array<Byte>, labels: seq<nat>, ghost c: Bytes, rtaLen: nat) returns (ok: bool)
    requires a.Length == MAX_PAYLOAD && Holds(a, c) && rtaLen == |c| && rtaLen % 4 == 0 && |labels| <= MAX_LABELS
    requires rtaLen + ATTR_HEADER <= MAX_PAYLOAD
    modifies a
    ensures ok <==> rtaLen + 16 + 4 * |labels| <= MAX_PAYLOAD
    ensures ok ==> Holds(a, c + EncapAttrs(labels))
  {
    var stack := EncodeLabels(labels);
    ok := AddStack(a, stack, c, rtaLen);
    if !ok { return; }
    ghost var c1 := c + Attr(RTA_ENCAP, Attr(MPLS_IPTUNNEL_DST, stack));
    ok := AddSubAttributes(a, RTA_ENCAP_TYPE, Le16(LWTUNNEL_ENCAP_MPLS), c1, rtaLen + 8 + |stack|);
    assert c1 + Attr(RTA_ENCAP_TYPE, Le16(LWTUNNEL_ENCAP_MPLS)) == c + EncapAttrs(labels);
  }

  /** Patching the length of an empty attribute makes what follows its payload. */
  lemma Nested(c: Bytes, stack: Bytes)
    requires |stack| % 4 == 0 && |stack| <= 4 * MAX_LABELS
    ensures var inner := Attr(MPLS_IPTUNNEL_DST, stack);
            |inner| == 4 + |stack| &&
            Overwrite((c + Attr(RTA_ENCAP, [])) + inner, |c|, Le16(8 + |stack|)) == c + Attr(RTA_ENCAP, inner)
  {
    var inner := Attr(MPLS_IPTUNNEL_DST, stack);
    assert Attr(RTA_ENCAP, []) == Le16(4) + Le16(RTA_ENCAP);
    assert Attr(RTA_ENCAP, inner) == Le16(8 + |stack|) + Le16(RTA_ENCAP) + inner;
    var whole := (c + Attr(RTA_ENCAP, [])) + inner;
    assert whole[..|c|] == c;
    assert whole[|c| + 2..] == Le16(RTA_ENCAP) + inner;
  }

  /** The header, with no length yet, and the encapsulation if labels are pushed. */
  method StartNexthop(a: array<Byte>, nh: NextHop, ghost c: Bytes, rtaLen: nat) returns (code: Code, newLen: nat)
    requires a.Length == MAX_PAYLOAD && Holds(a, c) && rtaLen == |c| && rtaLen % 4 == 0 && HopOk(nh)
    modifies a
    ensures code == if rtaLen + HOP_HEADER > MAX_PAYLOAD then NO_MESSAGE_BUFFER
                    else if nh.action != Some(PUSH) then SUCCESS
                    else if rtaLen + HOP_HEADER + ATTR_HEADER > MAX_PAYLOAD then NO_MESSAGE_BUFFER
                    else if nh.pushLabels.None? then NO_LABEL
                    else if rtaLen + HOP_HEADER + |EncapOf(nh)| > MAX_PAYLOAD then NO_MESSAGE_BUFFER else SUCCESS
    ensures code == SUCCESS ==>
              newLen == rtaLen + HOP_HEADER + |EncapOf(nh)| &&
              Holds(a, (c + HopHeader(HOP_HEADER, IfIndex(nh))) + EncapOf(nh))
  {
    newLen := rtaLen;
    if rtaLen + HOP_HEADER > MAX_PAYLOAD { return NO_MESSAGE_BUFFER, newLen; }
    var header := HopHeader(HOP_HEADER, IfIndex(nh));
    Push(a, header, c, rtaLen);
    ghost var c1 := c + header;
    newLen := rtaLen + HOP_HEADER;
    if nh.action == Some(PUSH) {
      if newLen + ATTR_HEADER > MAX_PAYLOAD { return NO_MESSAGE_BUFFER, newLen; }
      if nh.pushLabels.None? { return NO_LABEL, newLen; }
      var ok := AddEncap(a, nh.pushLabels.value, c1, newLen);
      if !ok { return NO_MESSAGE_BUFFER, newLen; }
      newLen := newLen + 16 + 4 * |nh.pushLabels.value|;
    } else {
      assert c1 + [] == c1;
    }
    code := SUCCESS;
  }

  /** One next hop: header, encapsulation if labels are pushed, gateway, then the header's length. */
  method AddNexthop(a: array<Byte>, r: Route, nh: NextHop, ghost c: Bytes, rtaLen: nat)
    returns (code: Code, newLen: nat)
    requires a.Length == MAX_PAYLOAD && Holds(a, c) && rtaLen == |c| && rtaLen % 4 == 0 && HopOk(nh)
    modifies a
    ensures code == AppendHop(r, c, nh).code
    ensures code == SUCCESS ==> Holds(a, AppendHop(r, c, nh).bytes) && newLen == |AppendHop(r, c, nh).bytes|
  {
    code, newLen := StartNexthop(a, nh, c, rtaLen);
    if code != SUCCESS { return; }
    ghost var c2 := (c + HopHeader(HOP_HEADER, IfIndex(nh))) + EncapOf(nh);
    code, newLen := AddGateway(a, r, nh, c2, newLen);
    if code != SUCCESS { return; }
    FinishNexthop(a, nh, c, rtaLen, newLen - rtaLen);
  }

  /** Fill in the length of the next hop just written after `c`. */
  method FinishNexthop(a: array<Byte>, nh: NextHop, ghost c: Bytes, rtaLen: nat, hopLen: nat)
    requires HopOk(nh) && rtaLen == |c| && hopLen == |HopBytes(nh)|
    requires Holds(a, ((c + HopHeader(HOP_HEADER, IfIndex(nh))) + EncapOf(nh)) + GatewayOf(nh))
    modifies a
    ensures Holds(a, c + HopBytes(nh))
  {
    HopPatched(c, nh);
    Patch(a, Le16(hopLen), ((c + HopHeader(HOP_HEADER, IfIndex(nh))) + EncapOf(nh)) + GatewayOf(nh), rtaLen);
  }

  method AddGateway(a: array<Byte>, r: Route, nh: NextHop, ghost c: Bytes, rtaLen: nat)
    returns (code: Code, newLen: nat)
    requires a.Length == MAX_PAYLOAD && Holds(a, c) && rtaLen == |c| && rtaLen % 4 == 0 && HopOk(nh)
    modifies a
    ensures code == if nh.gateway.None? && (nh.action == Some(PUSH) || !MayLackGateway(r)) then NO_NEXTHOP_IP
                    else if rtaLen + |GatewayOf(nh)| > MAX_PAYLOAD then NO_MESSAGE_BUFFER else SUCCESS
    ensures code == SUCCESS ==> Holds(a, c + GatewayOf(nh)) && newLen == rtaLen + |GatewayOf(nh)|
  {
    newLen := rtaLen;
    if nh.gateway.None? {
      assert c + [] == c;
      if nh.action == None && MayLackGateway(r) { return SUCCESS, newLen; }
      return NO_NEXTHOP_IP, newLen;
    }
    var ip := nh.gateway.value;
    var ok := AddSubAttributes(a, RTA_GATEWAY, ip.bytes, c, rtaLen);
    if !ok { return NO_MESSAGE_BUFFER, newLen; }
    return SUCCESS, rtaLen + |ip.bytes| + ATTR_HEADER;
  }

  /** Replacing the first bytes of a block that follows `c`. */
  lemma PatchHead(c: Bytes, was: Bytes, now: Bytes, tail: Bytes, e: Bytes, g: Bytes)
    requires |was| == |now|
    ensures Overwrite(((c + (was + tail)) + e) + g, |c|, now) == c + (((now + tail) + e) + g)
  {
  }

  /** Filling in the length of a next hop that follows `c`. */
  lemma LengthPatched(c: Bytes, len: nat, ifIndex: nat, e: Bytes, g: Bytes)
    requires len <= U16_MAX && ifIndex < 0x1_0000_0000
    ensures Overwrite(((c + HopHeader(HOP_HEADER, ifIndex)) + e) + g, |c|, Le16(len))
            == c + ((HopHeader(len, ifIndex) + e) + g)
  {
    PatchHead(c, Le16(HOP_HEADER), Le16(len), [0, 0] + Le32(ifIndex), e, g);
    HeaderSplit(HOP_HEADER, ifIndex);
    HeaderSplit(len, ifIndex);
  }

  lemma HopBytesAre(nh: NextHop)
    requires HopOk(nh)
    ensures |HopBytes(nh)| <= U16_MAX
    ensures HopBytes(nh) == (HopHeader(|HopBytes(nh)|, IfIndex(nh)) + EncapOf(nh)) + GatewayOf(nh)
  {
  }

  lemma HopPatched(c: Bytes, nh: NextHop)
    requires HopOk(nh)
    ensures Overwrite(((c + HopHeader(HOP_HEADER, IfIndex(nh))) + EncapOf(nh)) + GatewayOf(nh), |c|,
          Le16(|HopBytes(nh)|))
            == c + HopBytes(nh)
  {
    HopBytesAre(nh);
    LengthPatched(c, |HopBytes(nh)|, IfIndex(nh), EncapOf(nh), GatewayOf(nh));
  }

  lemma HeaderSplit(len: nat, ifIndex: nat)
    requires len <= U16_MAX && ifIndex < 0x1_0000_0000
    ensures HopHeader(len, ifIndex) == Le16(len) + ([0, 0] + Le32(ifIndex))
  {
  }

  /** All next hops, in the order the set is iterated. */
  method AddMultiPathNexthop(a: array<Byte>, r: Route, order: seq<NextHop>) returns (code: Code, rtaLen: nat)
    requires a.Length == MAX_PAYLOAD && Holds(a, Zeros(ATTR_HEADER)) && forall i | 0 <= i < |order| :: HopOk(order[i])
    modifies a
    ensures code == AppendHops(r, Zeros(ATTR_HEADER), order).code
    ensures code == SUCCESS ==> Holds(a, AppendHops(r, Zeros(ATTR_HEADER), order).bytes)
                                && rtaLen == |AppendHops(r, Zeros(ATTR_HEADER), order).bytes|
  {
    ghost var c := Zeros(ATTR_HEADER);
    rtaLen := ATTR_HEADER;
    code := SUCCESS;
    var i := 0;
    while i < |order|
      invariant i <= |order| && Holds(a, c) && rtaLen == |c| && rtaLen % 4 == 0 && code == SUCCESS
      invariant AppendHops(r, c, order[i..]) == AppendHops(r, Zeros(ATTR_HEADER), order)
    {
      assert order[i..][1..] == order[i + 1..];
      code, rtaLen := AddNexthop(a, r, order[i], c, rtaLen);
      if code != SUCCESS { return; }
      c := AppendHop(r, c, order[i]).bytes;
      i := i + 1;
    }
    assert order[i..] == [];
  }

  // ----- The message object

  /** The contents with the length field brought up to date. */
  function WithLen(c: Bytes): Bytes
    requires 4 <= |c| < 0x1_0000_0000
  {
    Le32(|c|) + c[4..]
  }

  lemma HeadersWithLen(r: Route, n: nat, rest: Bytes)
    requires RouteOk(r) && n < 0x1_0000_0000 && HEADERS + |rest| < 0x1_0000_0000
    ensures WithLen(Headers(r, n) + rest) == Headers(r, HEADERS + |rest|) + rest
  {
    var tail := Headers(r, n)[4..];
    assert Headers(r, HEADERS + |rest|)[4..] == tail;
    assert Headers(r, HEADERS + |rest|) == Le32(HEADERS + |rest|) + tail;
    assert (Headers(r, n) + rest)[4..] == tail + rest;
  }

  lemma Grown(r: Route, rest: Bytes, at: Bytes)
    requires RouteOk(r) && |rest| % 4 == 0 && |at| % 4 == 0 && HEADERS + |rest| + |at| < 0x1_0000_0000
    ensures WithLen((Headers(r, HEADERS + |rest|) + rest) + at) == Headers(r, HEADERS + |rest + at|) + (rest + at)
    ensures (Zeros(HEADERS) + rest) + at == Zeros(HEADERS) + (rest + at)
    ensures |rest + at| % 4 == 0
  {
    assert (Headers(r, HEADERS + |rest|) + rest) + at == Headers(r, HEADERS + |rest|) + (rest + at);
    HeadersWithLen(r, HEADERS + |rest|, rest + at);
    Mod4(|rest|, |at|);
  }

  /** The payload of the multipath attribute, built in a buffer of its own. */
  method NestHops(r: Route, order: seq<NextHop>) returns (code: Code, data: Bytes)
    requires forall i | 0 <= i < |order| :: HopOk(order[i])
    ensures code == AppendHops(r, Zeros(ATTR_HEADER), order).code
    ensures code == SUCCESS ==> data == AppendHops(r, Zeros(ATTR_HEADER), order).bytes[ATTR_HEADER..]
  {
    var nhop := new Byte[MAX_PAYLOAD](_ => 0);
    Padded(nhop, [], ATTR_HEADER);
    assert [] + Zeros(ATTR_HEADER) == Zeros(ATTR_HEADER);
    var rtaLen;
    code, rtaLen := AddMultiPathNexthop(nhop, r, order);
    if code != SUCCESS { return code, []; }
    data := nhop[ATTR_HEADER..rtaLen];
  }

  lemma PastHeaders(rest: Bytes)
    ensures (Zeros(HEADERS) + rest)[HEADERS..] == rest && |Zeros(HEADERS) + rest| == HEADERS + |rest|
    ensures |rest| % 4 == 0 ==> |Zeros(HEADERS) + rest| % 4 == 0
  {
  }

  class NetlinkRouteMessage {
    const msg: array<Byte>
    /** The meaningful part of the buffer. */
    ghost var contents: Bytes

    ghost predicate Valid()
      reads this, msg
    {
      && msg.Length == MAX_PAYLOAD && Holds(msg, contents)
      && HEADERS <= |contents| && |contents| % 4 == 0 && contents[..4] == Le32(|contents|)
    }

    /** A zeroed buffer, and the headers of a new-route request in it. */
    constructor (r: Route)
      requires RouteOk(r)
      ensures Valid() && fresh(msg) && contents == Headers(r, HEADERS)
    {
      msg := new Byte[MAX_PAYLOAD](_ => 0);
      contents := Headers(r, HEADERS);
      new;
      Push(msg, Headers(r, HEADERS), [], 0);
      assert [] + Headers(r, HEADERS) == Headers(r, HEADERS);
    }

    /** The length the header holds. */
    method Length() returns (len: nat)
      requires Valid()
      ensures len == |contents|
    {
      len := FromLe32(msg[..4]);
      assert msg[..4] == contents[..4];
      Le32RoundTrip(|contents|);
    }

    method AddAttributes(kind: nat, data: Bytes) returns (code: Code)
      requires Valid() && kind <= U16_MAX
      modifies msg, this
      ensures Valid()
      ensures code == Append(old(contents), kind, data).code
      ensures contents == if code == SUCCESS then WithLen(old(contents) + Attr(kind, data)) else old(contents)
    {
      var len := Length();
      if len + Align(ATTR_HEADER + |data|) > MAX_PAYLOAD { return NO_MESSAGE_BUFFER; }
      PushAttr(msg, kind, data, contents, len);
      ghost var c := contents + Attr(kind, data);
      var newLen := len + Align(ATTR_HEADER + |data|);
      Patch(msg, Le32(newLen), c, 0);
      contents := WithLen(c);
      assert Overwrite(c, 0, Le32(newLen)) == WithLen(c);
      Mod4(len, Align(ATTR_HEADER + |data|));
      return SUCCESS;
    }

    /** The message is the headers of `r` followed by the attributes `rest`. */
    ghost predicate Carries(r: Route, rest: Bytes)
      reads this, msg
    {
      && Valid() && RouteOk(r) && |rest| <= MAX_PAYLOAD && |rest| % 4 == 0
      && contents == Headers(r, HEADERS + |rest|) + rest
    }

    /** An attribute after the headers and the attributes `rest`. */
    method AddTo(r: Route, ghost rest: Bytes, kind: nat, data: Bytes) returns (code: Code)
      requires Carries(r, rest) && kind <= U16_MAX
      modifies msg, this
      ensures Valid()
      ensures code == Append(Zeros(HEADERS) + rest, kind, data).code
      ensures code == SUCCESS ==>
                Carries(r, rest + Attr(kind, data))
                && Append(Zeros(HEADERS) + rest, kind, data).bytes == Zeros(HEADERS) + (rest + Attr(kind, data))
    {
      code := AddAttributes(kind, data);
      if code == SUCCESS {
        Grown(r, rest, Attr(kind, data));
      }
    }

    /** The next hops are built in a buffer of their own and copied as one attribute. */
    method AddNextHops(r: Route, order: seq<NextHop>, ghost rest: Bytes) returns (code: Code)
      requires Carries(r, rest) && forall i | 0 <= i < |order| :: order[i] in r.nextHops
      modifies msg, this
      ensures Valid()
      ensures code == AppendMultipath(r, Zeros(HEADERS) + rest, order).code
      ensures code == SUCCESS ==>
                var b := AppendMultipath(r, Zeros(HEADERS) + rest, order).bytes;
                HEADERS <= |b| <= 2 * MAX_PAYLOAD && contents == Headers(r, |b|) + b[HEADERS..]
    {
      code := SUCCESS;
      PastHeaders(rest);
      if order != [] {
        var data;
        code, data := NestHops(r, order);
        if code != SUCCESS { return; }
        code := AddTo(r, rest, RTA_MULTIPATH, data);
        MultipathIsAppend(r, Zeros(HEADERS) + rest, order);
        if code == SUCCESS { PastHeaders(rest + Attr(RTA_MULTIPATH, data)); }
      }
    }

    /** The whole request, from the headers on. */
    method AddRoute(r: Route, order: seq<NextHop>) returns (code: Code)
      requires RouteOk(r) && Valid() && contents == Headers(r, HEADERS)
      requires forall i | 0 <= i < |order| :: order[i] in r.nextHops
      modifies msg, this
      ensures Valid()
      ensures code == Encode(r, order).code
      ensures code == SUCCESS ==> contents == Encode(r, order).bytes
    {
      ghost var rest: Bytes := [];
      assert Headers(r, HEADERS) == Headers(r, HEADERS + |rest|) + rest;
      assert Carries(r, rest);
      assert Zeros(HEADERS) + rest == Zeros(HEADERS);
      code := AddTo(r, rest, RTA_DST, r.dst.bytes);
      if code != SUCCESS { return; }
      rest := rest + Attr(RTA_DST, r.dst.bytes);
      if r.priority.Some? {
        code := AddTo(r, rest, RTA_PRIORITY, Le32(r.priority.value));
        if code != SUCCESS { return; }
        rest := rest + Attr(RTA_PRIORITY, Le32(r.priority.value));
      }
      code := AddNextHops(r, order, rest);
    }
  }
}
