/**
 The message of a route with one next hop, as the kernel reports it: the next hop's attributes stand
 beside those of the route, in any order, and there is no multipath attribute. What the parser
 makes of each attribute is said on the attributes of the message, the last of a kind counting.
 */
module SingleHop {
  import opened MeshTypes
  import opened NetlinkBytes
  import opened RouteCodec

  // ----- Attributes

  predicate Absent(ts: seq<Tlv>, kind: nat) { forall i | 0 <= i < |ts| :: ts[i].kind != kind }

  /** The last attribute of one of the kinds. */
  function LastIn(ts: seq<Tlv>, kinds: set<nat>): (at: Option<nat>)
    ensures at.Some? ==> at.value < |ts| && ts[at.value].kind in kinds
  {
    if ts == [] then None
    else
      var rest := LastIn(ts[1..], kinds);
      if rest.Some? then Some(rest.value + 1) else if ts[0].kind in kinds then Some(0) else None
  }

  lemma {:induction false} LastInIs(ts: seq<Tlv>, kinds: set<nat>, i: nat)
    requires i < |ts| && ts[i].kind in kinds
    ensures LastIn(ts, kinds).Some? && i <= LastIn(ts, kinds).value
    decreases |ts|
  {
    if i > 0 {
      assert ts[1..][i - 1] == ts[i];
      LastInIs(ts[1..], kinds, i - 1);
    }
  }

  /** The number in the first four bytes, the lowest first. */
  function Number(b: Bytes): nat
    requires |b| >= 4
  {
    b[0] as int + 256 * b[1] as int + 65536 * b[2] as int + 16777216 * b[3] as int
  }

  /** The label in the first 20 bits. */
  function TopLabel(b: Bytes): nat
    requires |b| >= 4
  {
    4096 * b[0] as int + 16 * b[1] as int + b[2] as int / 16
  }

  /** The attribute holds all that the parser reads of it. */
  predicate Complete(t: Tlv, family: nat) {
    && (t.kind in {1, 5} && family == 2 ==> |t.payload| >= 4)
    && (t.kind in {1, 5} && family == 10 ==> |t.payload| >= 16)
    && (t.kind == 1 && family == 28 ==> |t.payload| >= 4)
    && (t.kind in {4, 6, 19} ==> |t.payload| >= 4)
    && (t.kind == 18 ==> |t.payload| >= 18 || 6 <= |t.payload| <= 12)
    && (t.kind == 22 ==> ParseMplsLabels(t.payload).Some?)
  }

  lemma NumberIs(b: Bytes)
    requires |b| >= 4
    ensures FromLe32(b[..4]) == Number(b)
  {
    assert b[..4][..2] == b[..2] && b[..4][2..] == b[2..4];
  }

  lemma TopLabelIs(b: Bytes)
    requires |b| >= 4
    ensures DecodeLabel(b[..4]) == TopLabel(b)
  {
    var x := FromBe32(b[..4]);
    var c: int, rest: int := b[2], 256 * (b[2] as int % 16) + b[3] as int;
    assert c == 16 * (c / 16) + c % 16;
    assert x == 4096 * TopLabel(b) + rest && 0 <= rest < 4096;
  }

  // ----- One attribute

  /** What attribute `t` leaves of a builder, field by field. */
  lemma OneAttr(t: Tlv, family: nat, len: nat, b: Builder)
    requires t.kind != 9
    ensures ParseAttr(t, family, len, b).Some? <==> Complete(t, family)
    ensures Complete(t, family) ==>
              var r := ParseAttr(t, family, len, b).value;
              && r.single == b.single && r.hop.weight == b.hop.weight && r.hop.action == b.hop.action
              && r.route == b.route.(dst := r.route.dst, mplsLabel := r.route.mplsLabel, priority := r.route.priority)
              && r.hop.ifIndex == (if t.kind == 4 then Some(Number(t.payload)) else b.hop.ifIndex)
              && r.hop.swapLabel == (if t.kind == 19 then Some(TopLabel(t.payload)) else b.hop.swapLabel)
              && (t.kind != 22 ==> r.hop.pushLabels == b.hop.pushLabels)
              && r.route.priority == (if t.kind == 6 then Some(Number(t.payload)) else b.route.priority)
  {
    if |t.payload| >= 4 {
      NumberIs(t.payload);
      TopLabelIs(t.payload);
    }
  }

  /** The address in a gateway attribute, for the two IP families. */
  function Address(b: Bytes, family: nat): Ip
    requires (family == 2 && |b| >= 4) || (family == 10 && |b| >= 16)
  {
    if family == 2 then Ip(false, b[..4]) else Ip(true, b[..16])
  }

  /** The gateway and the destination, which depend on the family. */
  lemma OneAddress(t: Tlv, family: nat, len: nat, b: Builder)
    requires t.kind != 9 && Complete(t, family)
    ensures ParseAttr(t, family, len, b).Some?
    ensures var r := ParseAttr(t, family, len, b).value;
            && (t.kind !in {5, 18} ==> r.hop.gateway == b.hop.gateway)
            && (t.kind == 5 ==>
                  r.hop.gateway == if family in {2, 10} then Some(Address(t.payload, family)) else b.hop.gateway)
            && (t.kind == 18 ==>
                  r.hop.gateway
                  == Some(if |t.payload| >= 18 then Ip(true, t.payload[2..18]) else Ip(false, t.payload[2..6])))
            && r.route.dst
               == (if t.kind == 1 && family in {2, 10} then Some((Address(t.payload, family), len)) else b.route.dst)
            && r.route.mplsLabel
               == (if t.kind == 1 && family == 28 then Some(TopLabel(t.payload)) else b.route.mplsLabel)
  {
    if |t.payload| >= 4 { TopLabelIs(t.payload); }
  }

  // ----- All attributes

  /** What of a builder no attribute but a multipath one changes. */
  lemma {:induction false} Fixed(ts: seq<Tlv>, family: nat, len: nat, b: Builder)
    requires Absent(ts, 9)
    ensures ParseAttrs(ts, family, len, b).Some? <==> forall i | 0 <= i < |ts| :: Complete(ts[i], family)
    ensures ParseAttrs(ts, family, len, b).Some? ==>
              var r := ParseAttrs(ts, family, len, b).value;
              && r.single == b.single && r.hop.weight == b.hop.weight && r.hop.action == b.hop.action
              && r.route == b.route.(dst := r.route.dst, mplsLabel := r.route.mplsLabel, priority := r.route.priority)
    decreases |ts|
  {
    if ts != [] {
      OneAttr(ts[0], family, len, b);
      forall i | 0 <= i < |ts| ensures Complete(ts[i], family) <==> if i == 0 then Complete(ts[0], family)
                                                                  else Complete(ts[1..][i - 1], family) {}
      if Complete(ts[0], family) {
        Fixed(ts[1..], family, len, ParseAttr(ts[0], family, len, b).value);
      }
    }
  }

  predicate AllComplete(ts: seq<Tlv>, family: nat) { forall i | 0 <= i < |ts| :: Complete(ts[i], family) }

  lemma AllCompleteRest(ts: seq<Tlv>, family: nat)
    requires ts != []
    ensures AllComplete(ts, family) <==> Complete(ts[0], family) && AllComplete(ts[1..], family)
  {
    forall i | 1 <= i < |ts| ensures ts[i] == ts[1..][i - 1] {}
  }

  /** A number of the last attribute of a kind. */
  function NumberOf(ts: seq<Tlv>, kind: nat, family: nat): Option<nat>
    requires AllComplete(ts, family) && kind in {4, 6}
  {
    match LastIn(ts, {kind})
    case None => None
    case Some(i) => Some(Number(ts[i].payload))
  }

  function LabelOf(ts: seq<Tlv>, kind: nat, family: nat): Option<nat>
    requires AllComplete(ts, family) && (kind == 19 || (kind == 1 && family == 28))
  {
    match LastIn(ts, {kind})
    case None => None
    case Some(i) => Some(TopLabel(ts[i].payload))
  }

  function Or<T>(a: Option<T>, b: Option<T>): Option<T> { if a.Some? then a else b }

  /** The interface, the label to swap to and the priority come from the last attribute of their kind. */
  lemma {:induction false} Numbers(ts: seq<Tlv>, family: nat, len: nat, b: Builder)
    requires Absent(ts, 9) && AllComplete(ts, family)
    ensures ParseAttrs(ts, family, len, b).Some?
    ensures var r := ParseAttrs(ts, family, len, b).value;
            && r.hop.ifIndex == Or(NumberOf(ts, 4, family), b.hop.ifIndex)
            && r.hop.swapLabel == Or(LabelOf(ts, 19, family), b.hop.swapLabel)
            && r.route.priority == Or(NumberOf(ts, 6, family), b.route.priority)
    decreases |ts|
  {
    if ts != [] {
      AllCompleteRest(ts, family);
      OneAttr(ts[0], family, len, b);
      Numbers(ts[1..], family, len, ParseAttr(ts[0], family, len, b).value);
    }
  }

  /** The kinds of attribute that set a gateway: a plain one only for an IP family. */
  function GatewayKinds(family: nat): set<nat> { if family in {2, 10} then {5, 18} else {18} }

  /** The gateway of the last attribute that sets one; the `via` form carries its own family. */
  function GatewayIn(ts: seq<Tlv>, family: nat): Option<Ip>
    requires AllComplete(ts, family)
  {
    match LastIn(ts, GatewayKinds(family))
    case None => None
    case Some(i) =>
      var p := ts[i].payload;
      if ts[i].kind == 5 then Some(Address(p, family))
      else Some(if |p| >= 18 then Ip(true, p[2..18]) else Ip(false, p[2..6]))
  }

  function DstIn(ts: seq<Tlv>, family: nat, len: nat): Option<(Ip, nat)>
    requires AllComplete(ts, family)
  {
    if family !in {2, 10} || LastIn(ts, {1}).None? then None
    else Some((Address(ts[LastIn(ts, {1}).value].payload, family), len))
  }

  function MplsIn(ts: seq<Tlv>, family: nat): Option<nat>
    requires AllComplete(ts, family)
  {
    if family == 28 then LabelOf(ts, 1, family) else None
  }

  lemma {:induction false} Addresses(ts: seq<Tlv>, family: nat, len: nat, b: Builder)
    requires Absent(ts, 9) && AllComplete(ts, family)
    ensures ParseAttrs(ts, family, len, b).Some?
    ensures var r := ParseAttrs(ts, family, len, b).value;
            && r.hop.gateway == Or(GatewayIn(ts, family), b.hop.gateway)
            && r.route.dst == Or(DstIn(ts, family, len), b.route.dst)
            && r.route.mplsLabel == Or(MplsIn(ts, family), b.route.mplsLabel)
    decreases |ts|
  {
    if ts != [] {
      AllCompleteRest(ts, family);
      OneAddress(ts[0], family, len, b);
      Addresses(ts[1..], family, len, ParseAttr(ts[0], family, len, b).value);
    }
  }

  /** The labels of the last encapsulation that carries a label stack. */
  function LabelsIn(ts: seq<Tlv>, family: nat): Option<seq<nat>>
    requires AllComplete(ts, family)
  {
    if ts == [] then None
    else
      AllCompleteRest(ts, family);
      Or(LabelsIn(ts[1..], family), if ts[0].kind == 22 then ParseMplsLabels(ts[0].payload).value else None)
  }

  lemma {:induction false} Labels(ts: seq<Tlv>, family: nat, len: nat, b: Builder)
    requires Absent(ts, 9) && AllComplete(ts, family)
    ensures ParseAttrs(ts, family, len, b).Some?
    ensures ParseAttrs(ts, family, len, b).value.hop.pushLabels == Or(LabelsIn(ts, family), b.hop.pushLabels)
    decreases |ts|
  {
    if ts != [] {
      AllCompleteRest(ts, family);
      OneAttr(ts[0], family, len, b);
      Labels(ts[1..], family, len, ParseAttr(ts[0], family, len, b).value);
    }
  }

  lemma {:induction false} NoLabels(ts: seq<Tlv>, family: nat)
    requires AllComplete(ts, family) && Absent(ts, 22)
    ensures LabelsIn(ts, family) == None
  {
    if ts != [] {
      AllCompleteRest(ts, family);
      NoLabels(ts[1..], family);
    }
  }

  // ----- The message

  /** A message whose header counts its bytes, with the given attributes. */
  predicate Carries(m: Bytes, ts: seq<Tlv>) { |m| >= 28 && Number(m) == |m| && Walk(m[28..]) == Some(ts) }

  /** The action on labels, told from what the next hop has. */
  function ActionOf(family: nat, gateway: Option<Ip>, swap: Option<nat>, labels: Option<seq<nat>>): Option<Action> {
    if labels.Some? then Some(PUSH)
    else if family != 28 then None
    else if gateway.None? then Some(POP_AND_LOOKUP)
    else if swap.Some? then Some(SWAP) else Some(PHP)
  }

  function HopIn(ts: seq<Tlv>, family: nat): NextHop
    requires AllComplete(ts, family)
  {
    var gateway, swap, labels := GatewayIn(ts, family), LabelOf(ts, 19, family), LabelsIn(ts, family);
    NextHop(NumberOf(ts, 4, family), gateway, 0, ActionOf(family, gateway, swap, labels), swap, labels)
  }

  lemma BuiltHop(ts: seq<Tlv>, family: nat, len: nat, b: Builder)
    requires Absent(ts, 9) && AllComplete(ts, family) && b.hop == NextHop(None, None, 0, None, None, None)
    ensures ParseAttrs(ts, family, len, b).Some?
    ensures SetMplsAction(ParseAttrs(ts, family, len, b).value.hop, family) == HopIn(ts, family)
  {
    Fixed(ts, family, len, b);
    Numbers(ts, family, len, b);
    Addresses(ts, family, len, b);
    Labels(ts, family, len, b);
  }

  /** A message without a multipath attribute parses if and only if its attributes are whole. Then the route has
      exactly one next hop, and each field of it and of the route comes from the last attribute that sets
      it, or from the header. */
  lemma SingleHopMessage(m: Bytes, ts: seq<Tlv>)
    requires Carries(m, ts) && Absent(ts, 9)
    ensures Parse(m).Some? <==> AllComplete(ts, m[16])
    ensures AllComplete(ts, m[16]) ==>
              var r := Parse(m).value;
              && r.nextHops == {HopIn(ts, m[16])}
              && r.dst == DstIn(ts, m[16], m[17]) && r.mplsLabel == MplsIn(ts, m[16])
              && r.priority == NumberOf(ts, 6, m[16])
              && r.table == m[20] && r.protocol == m[21] && r.scope == m[22] && r.kind == m[23]
              && r.flags == Number(m[24..]) && (r.valid <==> m[4] == 24 && m[5] == 0)
  {
    var b := Start(m);
    NumberIs(m);
    NumberIs(m[24..]);
    assert m[24..][..4] == m[24..28] && m[4..6] == [m[4], m[5]];
    Fixed(ts, m[16], m[17], b);
    if AllComplete(ts, m[16]) {
      BuiltHop(ts, m[16], m[17], b);
      Numbers(ts, m[16], m[17], b);
      Addresses(ts, m[16], m[17], b);
    }
  }

  /** In particular: an IP route whose interface and gateway stand once each, at `i` and `j`, in whatever order
      and among whatever else, has exactly that next hop. */
  lemma PlainSingleHop(m: Bytes, ts: seq<Tlv>, i: nat, j: nat)
    requires Carries(m, ts) && Absent(ts, 9) && Absent(ts, 22) && Absent(ts, 18) && Absent(ts, 19)
    requires m[16] in {2, 10} && AllComplete(ts, m[16]) && i < |ts| && j < |ts|
    requires forall k | 0 <= k < |ts| :: (ts[k].kind == 4 <==> k == i) && (ts[k].kind == 5 <==> k == j)
    ensures Parse(m).Some?
    ensures Parse(m).value.nextHops ==
            {NextHop(Some(Number(ts[i].payload)), Some(Address(ts[j].payload, m[16])), 0, None, None, None)}
  {
    SingleHopMessage(m, ts);
    NoLabels(ts, m[16]);
    OnlyAt(ts, {4}, i);
    OnlyAt(ts, {5, 18}, j);
    assert LastIn(ts, {19}).None?;
  }

  lemma OnlyAt(ts: seq<Tlv>, kinds: set<nat>, i: nat)
    requires i < |ts| && forall k | 0 <= k < |ts| :: ts[k].kind in kinds <==> k == i
    ensures LastIn(ts, kinds) == Some(i)
  {
    LastInIs(ts, kinds, i);
  }
}
