/**
 Byte-level building blocks of netlink messages: host-order (little-endian) integers and
 4-byte aligned attributes (section 2.3.2 of RFC 3549), with the walk that takes them apart.
 */
module NetlinkBytes {
  import opened MeshTypes

  type Byte = b: int | 0 <= b < 256
  type Bytes = seq<Byte>

  const U16_MAX := 0xffff

  // ----- Integers

  function Le16(x: nat): (b: Bytes)
    requires x <= U16_MAX
    ensures |b| == 2
  {
    [x % 256, x / 256]
  }

  function FromLe16(b: Bytes): (x: nat)
    requires |b| == 2
    ensures x <= U16_MAX
  {
    b[0] as int + 256 * b[1] as int
  }

  function Le32(x: nat): (b: Bytes)
    requires x < 0x1_0000_0000
    ensures |b| == 4
  {
    Le16(x % 0x1_0000) + Le16(x / 0x1_0000)
  }

  function FromLe32(b: Bytes): (x: nat)
    requires |b| == 4
  {
    FromLe16(b[..2]) + 0x1_0000 * FromLe16(b[2..])
  }

  function Be32(x: nat): (b: Bytes)
    requires x < 0x1_0000_0000
    ensures |b| == 4
  {
    [x / 0x100_0000, x / 0x1_0000 % 256, x / 0x100 % 256, x % 256]
  }

  function FromBe32(b: Bytes): (x: nat)
    requires |b| == 4
  {
    0x100_0000 * b[0] as int + 0x1_0000 * b[1] as int + 0x100 * b[2] as int + b[3] as int
  }

  lemma Le16RoundTrip(x: nat)
    requires x <= U16_MAX
    ensures FromLe16(Le16(x)) == x
  {
  }

  lemma Le32RoundTrip(x: nat)
    requires x < 0x1_0000_0000
    ensures FromLe32(Le32(x)) == x
  {
    Le16RoundTrip(x % 0x1_0000);
    Le16RoundTrip(x / 0x1_0000);
    assert Le32(x)[..2] == Le16(x % 0x1_0000) && Le32(x)[2..] == Le16(x / 0x1_0000);
  }

  lemma Be32RoundTrip(x: nat)
    requires x < 0x1_0000_0000
    ensures FromBe32(Be32(x)) == x
  {
    var a := x / 256;
    var b := a / 256;
    assert x == 256 * a + x % 256 && a == 256 * b + a % 256 && b == 256 * (b / 256) + b % 256;
    assert x / 0x1_0000 == b && x / 0x100_0000 == b / 256;
  }

  // ----- Attributes

  function Align(n: nat): (r: nat)
    ensures n <= r < n + 4 && r % 4 == 0
  {
    (n + 3) / 4 * 4
  }

  function Zeros(n: nat): (b: Bytes)
    ensures |b| == n
  {
    seq(n, _ => 0)
  }

  const ATTR_HEADER := 4

  /** An attribute of the given type: length, type, payload, zeros up to the alignment. */
  function Attr(kind: nat, payload: Bytes): (b: Bytes)
    requires kind <= U16_MAX && ATTR_HEADER + |payload| <= U16_MAX
    ensures |b| == Align(ATTR_HEADER + |payload|)
  {
    Le16(ATTR_HEADER + |payload|) + Le16(kind) + payload
    + Zeros(Align(ATTR_HEADER + |payload|) - (ATTR_HEADER + |payload|))
  }

  function AttrLen(b: Bytes): nat
    requires |b| >= 4
  {
    FromLe16(b[..2])
  }

  function AttrKind(b: Bytes): nat
    requires |b| >= 4
  {
    FromLe16(b[2..4])
  }

  /** `b` starts with a whole attribute header whose length stays inside `b`. */
  predicate AttrOk(b: Bytes) {
    |b| >= ATTR_HEADER && ATTR_HEADER <= AttrLen(b) <= |b|
  }

  function Payload(b: Bytes): Bytes
    requires AttrOk(b)
  {
    b[ATTR_HEADER..AttrLen(b)]
  }

  datatype Tlv = Tlv(kind: nat, payload: Bytes)

  /** The attributes in a region of memory. There is no result when the last one is not padded to its
      alignment: the remaining length is unsigned, wraps, and the walk leaves the region. */
  function Walk(b: Bytes): Option<seq<Tlv>>
    decreases |b|
  {
    if !AttrOk(b) then Some([])
    else if Align(AttrLen(b)) > |b| then None
    else
      var rest := Walk(b[Align(AttrLen(b))..]);
      if rest.None? then None else Some([Tlv(AttrKind(b), Payload(b))] + rest.value)
  }

  /** `a` is the attribute `t`, whole and padded. */
  predicate IsTlv(a: Bytes, t: Tlv) {
    AttrOk(a) && AttrKind(a) == t.kind && Payload(a) == t.payload && |a| == Align(AttrLen(a))
  }

  lemma AttrIsTlv(kind: nat, payload: Bytes)
    requires kind <= U16_MAX && ATTR_HEADER + |payload| <= U16_MAX
    ensures IsTlv(Attr(kind, payload), Tlv(kind, payload))
  {
    var b := Attr(kind, payload);
    Le16RoundTrip(ATTR_HEADER + |payload|);
    Le16RoundTrip(kind);
    assert b[..2] == Le16(ATTR_HEADER + |payload|);
    assert b[2..4] == Le16(kind);
    assert b[4..4 + |payload|] == payload;
  }

  /** Walking an attribute and what follows it. */
  lemma WalkCons(a: Bytes, t: Tlv, rest: Bytes, ts: seq<Tlv>)
    requires IsTlv(a, t) && Walk(rest) == Some(ts)
    ensures Walk(a + rest) == Some([t] + ts)
  {
    var b := a + rest;
    assert b[..2] == a[..2] && b[2..4] == a[2..4];
    assert b[ATTR_HEADER..AttrLen(a)] == a[ATTR_HEADER..AttrLen(a)];
    assert b[|a|..] == rest;
  }

  lemma WalkOne(a: Bytes, t: Tlv)
    requires IsTlv(a, t)
    ensures Walk(a) == Some([t])
  {
    assert a + [] == a;
    WalkCons(a, t, [], []);
    assert [t] + [] == [t];
  }

  /** Fewer bytes than an attribute header end the walk. */
  lemma WalkStops(a: Bytes, t: Tlv, rest: Bytes)
    requires IsTlv(a, t) && |rest| < 4
    ensures Walk(a + rest) == Some([t])
  {
    WalkCons(a, t, rest, []);
    assert [t] + [] == [t];
  }

  lemma Mod4(a: nat, b: nat)
    requires a % 4 == 0 && b % 4 == 0
    ensures (a + b) % 4 == 0
  {
  }

  lemma AlignAligned(n: nat)
    requires n % 4 == 0
    ensures Align(n) == n
  {
  }
}
