/**
 One node of the routing protocol: its path table and what it does with an announcement
 (a PANN). These functions say what each operation of `RoutingDaemon` must compute.
 */
module MeshNode {
  import opened MeshTypes

  /** A path table entry. An entry is filled once an announcement has been stored in it; until
      then it is a placeholder whose next hop is the zero address. */
  datatype MeshPath = MeshPath(
    dst: Mac, nextHop: Mac, sn: nat, metric: nat, nextHopMetric: nat, hopCount: nat, expTime: int, isGate: bool)
  {
    predicate Expired(now: int) { now > expTime }
    predicate Filled() { nextHop != ZERO_MAC }
    predicate LiveGate(now: int) { !Expired(now) && isGate }
  }

  datatype Pann = Pann(
    orig: Mac, sn: nat, hopCount: nat, ttl: nat, target: Mac, metric: nat, isGate: bool, replyRequested: bool)

  /** A PANN handed to the transport for `da`. */
  datatype Frame = Frame(da: Mac, pann: Pann)

  type Paths = map<Mac, MeshPath>

  datatype Node = Node(
    addr: Mac, elementTtl: nat, activePathTimeout: nat, sn: nat, isRoot: bool, isGate: bool, paths: Paths)

  const MIN_GATEWAY_REDUNDANCY := 2

  /** How many gates a node keeps; a gate counts itself. */
  function GateLimit(isGate: bool): nat {
    if isGate then MIN_GATEWAY_REDUNDANCY - 1 else MIN_GATEWAY_REDUNDANCY
  }

  function Placeholder(dst: Mac, now: int): MeshPath {
    MeshPath(dst, ZERO_MAC, 0, 0, 0, 0, now, false)
  }

  /** The table after looking up `addr`, which creates a placeholder if there is no entry. */
  function Looked(paths: Paths, addr: Mac, now: int): Paths {
    if addr in paths then paths else paths[addr := Placeholder(addr, now)]
  }

  /** 32-bit addition that sticks at the maximum. */
  function AddMetric(metric: nat, link: nat): nat {
    var sum := U32(metric + link);
    if sum < metric then MAX_METRIC else sum
  }

  /** An announcement that must not overwrite the entry: the entry is live and either newer, or has
      another next hop and is at least as good. */
  predicate Stale(e: MeshPath, now: int, sa: Mac, sn: nat, metric: nat) {
    !e.Expired(now) && (e.sn > sn || (e.nextHop != sa && e.metric <= metric))
  }

  /** The other live gates at least as close as `metric`. */
  function Rivals(paths: Paths, now: int, orig: Mac, metric: nat): set<Mac> {
    set a | a in paths && paths[a].dst != orig && paths[a].LiveGate(now) && paths[a].metric <= metric
  }

  /** Whom to send a PANN for `target` to, if anyone: a unicast target that is not this node is
      reached through this node's own live path to it. */
  function Relay(n: Node, now: int, target: Mac): Option<Mac> {
    if !IsUnicast(target) || target == n.addr then Some(target)
    else if target !in n.paths || n.paths[target].Expired(now) then None
    else Some(n.paths[target].nextHop)
  }

  // ----- The top gates

  /** Gates are ranked by metric, ties by address. */
  predicate Closer(paths: Paths, a: Mac, b: Mac)
    requires a in paths && b in paths
  {
    paths[a].metric < paths[b].metric || (paths[a].metric == paths[b].metric && a < b)
  }

  function LiveGates(paths: Paths, now: int): set<Mac> {
    set a | a in paths && paths[a].LiveGate(now)
  }

  /** The live gates ranked before `g`. */
  function RankedBefore(paths: Paths, now: int, g: Mac): set<Mac>
    requires g in paths
  {
    set a | a in LiveGates(paths, now) && Closer(paths, a, g)
  }

  /** `g` is a live gate and fewer than `k` live gates rank before it. */
  predicate InTopGates(paths: Paths, now: int, k: nat, g: Mac) {
    g in LiveGates(paths, now) && |RankedBefore(paths, now, g)| < k
  }

  // ----- Transitions

  /** The root timer: announce this node to everyone and ask for replies. */
  function Announce(n: Node): (Node, seq<Frame>) {
    if n.isRoot then
      var n' := n.(sn := U64(n.sn + 1));
      (n', [Frame(BROADCAST, Pann(n.addr, n'.sn, 0, U8(n.elementTtl), BROADCAST, 0, n.isGate, true))])
    else
      (n, [])
  }

  function SetStatus(n: Node, gate: bool): (Node, seq<Frame>) {
    if n.isGate == gate then (n, [])
    else if gate && !n.isRoot then Announce(n.(isGate := true, isRoot := true))
    else (n.(isGate := gate), [])
  }

  const MESH_PATH_EXPIRE := 60_000

  /** The housekeeping timer: forget entries that expired more than a minute ago (milliseconds). */
  function Housekeep(paths: Paths, now: int): Paths {
    map a | a in paths && now <= paths[a].expTime + MESH_PATH_EXPIRE :: paths[a]
  }

  /** The entry an announcement from neighbour `sa` leads to. */
  function Learned(n: Node, p: Pann, sa: Mac, link: nat, now: int): MeshPath {
    MeshPath(p.orig, sa, p.sn, AddMetric(p.metric, link), link, U8(p.hopCount + 1), now + n.activePathTimeout, p.isGate)
  }

  function Reply(n: Node, p: Pann, sa: Mac): Frame {
    Frame(sa, Pann(n.addr, U64(n.sn + 1), 0, U8(n.elementTtl), p.orig, 0, n.isGate, false))
  }

  function Forward(p: Pann, da: Mac, e: MeshPath): Frame
    requires p.ttl >= 1
  {
    Frame(da, Pann(p.orig, p.sn, e.hopCount, p.ttl - 1, p.target, e.metric, p.isGate, p.replyRequested))
  }

  /** The decision to pass a stored announcement on; `before` and `after` are the table around the update. */
  predicate Forwards(n: Node, p: Pann, before: Paths, after: Paths, now: int) {
    && p.ttl > 1
    && p.target != n.addr
    && (!p.isGate
        || InTopGates(before, now, GateLimit(n.isGate), p.orig)
        || InTopGates(after, now, GateLimit(n.isGate), p.orig))
  }

  /** Reception of `p` from neighbour `sa`. `stas` are the current link metrics, `t0` is the clock
      when the table is consulted first and `t1` when the announcement is judged. */
  function Receive(n: Node, stas: map<Mac, nat>, t0: int, t1: int, sa: Mac, p: Pann): (Node, seq<Frame>) {
    if p.orig == n.addr || sa !in stas then (n, [])
    else
      var relay := Relay(n, t0, p.target);
      if relay.None? then (n, [])
      else
        var before := Looked(n.paths, p.orig, t0);
        var e := Learned(n, p, sa, stas[sa], t1);
        if Refused(n, before, p, e, t1) then (n.(paths := before), [])
        else Store(n, before, p, e, relay.value, t1)
  }

  /** The two ways an announcement is dropped after the lookup. */
  predicate Refused(n: Node, before: Paths, p: Pann, e: MeshPath, now: int)
    requires p.orig in before
  {
    || Stale(before[p.orig], now, e.nextHop, p.sn, e.metric)
    || (p.isGate && |Rivals(before, now, p.orig, e.metric)| >= GateLimit(n.isGate))
  }

  /** Storing entry `e`, then replying and forwarding as asked. */
  function Store(n: Node, before: Paths, p: Pann, e: MeshPath, da: Mac, now: int): (Node, seq<Frame>) {
    var after := before[p.orig := e];
    var reply := if p.replyRequested then [Reply(n, p, e.nextHop)] else [];
    var forward := if Forwards(n, p, before, after, now) then [Forward(p, da, e)] else [];
    (n.(paths := after, sn := if p.replyRequested then U64(n.sn + 1) else n.sn), reply + forward)
  }

  // ----- The clock and the first announcement

  /** A fresh placeholder accepts an announcement exactly when the clock has moved on since it was
      made: on a clock too coarse to tell, a node drops the first announcement of every origin. */
  lemma FirstAnnouncementNeedsTick(n: Node, p: Pann, sa: Mac, link: nat, t0: int, t1: int)
    requires p.orig !in n.paths && sa != ZERO_MAC && t0 <= t1
    ensures var before := Looked(n.paths, p.orig, t0);
            var e := Learned(n, p, sa, link, t1);
            Stale(before[p.orig], t1, sa, p.sn, e.metric) <==> t0 == t1
  {
    assert AddMetric(p.metric, link) >= 0;
  }
}
