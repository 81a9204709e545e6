/**
 Why a broadcast has to go through undisturbed. A reply goes one way only but carries a newer number;
 where it overtakes the broadcast before it, on a longer way, the broadcast is then taken for old.

 The mesh has gates A and B and a node M, and every link costs 1. B hears A directly and through M; A
 hears B through M only. Both announce themselves. A answers B through M before its own broadcast
 has reached B on the direct link, and B, one hop away, ends up with a path of two.
 */
module ReplyOvertakes {
  import opened MeshTypes
  import opened MeshNode
  import opened OriginProtocol
  import opened Convergence
  import opened NearConvergence
  import opened MeshNetwork
  import opened MeshRefinement
  import opened MeshTheorems
  import opened GateConvergence
  import TopGates

  const A: Mac := 2
  const B: Mac := 4
  const M: Mac := 6
  const AB := Link(A, B)
  const AM := Link(A, M)
  const MA := Link(M, A)
  const MB := Link(M, B)
  const BM := Link(B, M)
  const TTL := 30
  const TIMEOUT := 1000

  const TOPOLOGY := Topology({AB, AM, MA, MB, BM}, (o: Mac, sn: nat, l: Link) => 1, 1)
  const GATES := {A, B}

  // ----- Nodes and announcements

  /** A daemon that has just started. */
  function Daemon(addr: Mac): Node { Node(addr, TTL, TIMEOUT, 0, false, false, map[]) }

  /** A gate's first broadcast after `hops` hops. */
  function Wave(orig: Mac, hops: nat): Pann
    requires hops <= TTL
  {
    Pann(orig, 1, hops, TTL - hops, BROADCAST, hops, true, true)
  }

  /** A reply to `target` after `hops` hops. */
  function Answer(orig: Mac, sn: nat, hops: nat, target: Mac, gate: bool): Pann
    requires hops <= TTL
  {
    Pann(orig, sn, hops, TTL - hops, target, hops, gate, false)
  }

  function Via(dst: Mac, nextHop: Mac, sn: nat, hops: nat, now: int, gate: bool): MeshPath {
    MeshPath(dst, nextHop, sn, hops, 1, hops, now + TIMEOUT, gate)
  }

  /** Far from any expiry and any limit. */
  predicate Young(n: Node) {
    && n.elementTtl == TTL && n.activePathTimeout == TIMEOUT && n.sn < 100 && n.addr != BROADCAST
    && forall a <- n.paths :: n.paths[a].dst == a && n.paths[a].Filled() && n.paths[a].expTime >= TIMEOUT
  }

  // ----- Receptions

  /** What `n` hears for the first time, or again from the same neighbour and newer. */
  predicate News(n: Node, sa: Mac, p: Pann) {
    p.orig in n.paths ==> n.paths[p.orig].sn <= p.sn && n.paths[p.orig].nextHop == sa
  }

  /** The other gates `n` knows are among `others`, and that leaves room for one more. */
  predicate Room(n: Node, orig: Mac, others: set<Mac>) {
    |others| < GateLimit(n.isGate) && forall a | a in n.paths && a != orig && n.paths[a].isGate :: a in others
  }

  function Stored(n: Node, sa: Mac, c: int, p: Pann): Node {
    n.(paths := n.paths[p.orig := Learned(n, p, sa, 1, c + 1)], sn := if p.replyRequested then n.sn + 1 else n.sn)
  }

  function Sent(n: Node, sa: Mac, c: int, p: Pann, da: Mac): seq<Frame> {
    (if p.replyRequested then [Reply(n, p, sa)] else [])
    + if p.ttl > 1 && p.target != n.addr then [Forward(p, da, Learned(n, p, sa, 1, c + 1))] else []
  }

  lemma NotCrowded(n: Node, c: int, p: Pann, metric: nat, others: set<Mac>)
    requires Young(n) && Room(n, p.orig, others)
    ensures |Rivals(Looked(n.paths, p.orig, c), c + 1, p.orig, metric)| < GateLimit(n.isGate)
  {
    SubsetSize(Rivals(Looked(n.paths, p.orig, c), c + 1, p.orig, metric), others);
  }

  lemma Takes(n: Node, sa: Mac, c: int, p: Pann, da: Mac, others: set<Mac>)
    requires Young(n) && 0 <= c < 100 && p.orig != n.addr && sa != ZERO_MAC && Relay(n, c, p.target) == Some(da)
    requires News(n, sa, p) && (p.isGate ==> Room(n, p.orig, others)) && p.metric < 100 && p.hopCount < 100
    ensures Receive(n, map[sa := 1], c, c + 1, sa, p) == (Stored(n, sa, c, p), Sent(n, sa, c, p, da))
  {
    var before, e := Looked(n.paths, p.orig, c), Learned(n, p, sa, 1, c + 1);
    if p.isGate { NotCrowded(n, c, p, e.metric, others); }
    assert !Refused(n, before, p, e, c + 1);
    TopGates.ForwardingGuard(n, before, p, e, c + 1);
    assert before[p.orig := e] == n.paths[p.orig := e];
  }

  /** A broadcast is stored, answered and passed on. */
  lemma TakesWave(n: Node, sa: Mac, c: int, orig: Mac, hops: nat, others: set<Mac>)
    requires Young(n) && 0 <= c < 100 && orig != n.addr && sa != ZERO_MAC && hops < 20
    requires orig !in n.paths && Room(n, orig, others)
    ensures Receive(n, map[sa := 1], c, c + 1, sa, Wave(orig, hops)) ==
            (n.(paths := n.paths[orig := Via(orig, sa, 1, hops + 1, c + 1, true)], sn := n.sn + 1),
             [Frame(sa, Answer(n.addr, n.sn + 1, 0, orig, n.isGate)), Frame(BROADCAST, Wave(orig, hops + 1))])
  {
    var p := Wave(orig, hops);
    Takes(n, sa, c, p, BROADCAST, others);
    var e := Learned(n, p, sa, 1, c + 1);
    assert e == Via(orig, sa, 1, hops + 1, c + 1, true);
    var reply := Frame(sa, Answer(n.addr, n.sn + 1, 0, orig, n.isGate));
    var forward := Frame(BROADCAST, Wave(orig, hops + 1));
    assert Reply(n, p, sa) == reply && Forward(p, BROADCAST, e) == forward;
    assert [reply] + [forward] == [reply, forward];
  }

  /** A reply is stored and, by a node it is not meant for, passed on towards its target. */
  lemma TakesAnswer(n: Node, sa: Mac, c: int, orig: Mac, sn: nat, hops: nat, target: Mac, gate: bool, others: set<Mac>)
    requires Young(n) && 0 <= c < 100 && orig != n.addr && sa != ZERO_MAC && hops < 20 && IsUnicast(target)
    requires News(n, sa, Answer(orig, sn, hops, target, gate)) && (gate ==> Room(n, orig, others))
    requires target != n.addr ==> target in n.paths
    ensures Receive(n, map[sa := 1], c, c + 1, sa, Answer(orig, sn, hops, target, gate)) ==
            (n.(paths := n.paths[orig := Via(orig, sa, sn, hops + 1, c + 1, gate)]),
             if target == n.addr then []
             else [Frame(n.paths[target].nextHop, Answer(orig, sn, hops + 1, target, gate))])
  {
    var da := if target == n.addr then target else n.paths[target].nextHop;
    var p := Answer(orig, sn, hops, target, gate);
    Takes(n, sa, c, p, da, others);
    var e := Learned(n, p, sa, 1, c + 1);
    assert e == Via(orig, sa, sn, hops + 1, c + 1, gate);
    assert Stored(n, sa, c, p) == n.(paths := n.paths[orig := e]);
    if target == n.addr {
      assert Sent(n, sa, c, p, da) == [];
    } else {
      var forward := Frame(da, Answer(orig, sn, hops + 1, target, gate));
      assert Forward(p, da, e) == forward && [] + [forward] == [forward];
    }
  }

  /** A broadcast with an older number than what is stored. */
  lemma Refuses(n: Node, sa: Mac, c: int, orig: Mac, hops: nat)
    requires Young(n) && 0 <= c < 100 && orig in n.paths && n.paths[orig].sn > 1 && hops < 20
    ensures Receive(n, map[sa := 1], c, c + 1, sa, Wave(orig, hops)) == (n, [])
  {
  }

  lemma Ignores(n: Node, sa: Mac, c: int, hops: nat)
    requires hops < 20
    ensures Receive(n, map[sa := 1], c, c + 1, sa, Wave(n.addr, hops)) == (n, [])
  {
  }

  // ----- Events

  /** A benign event without loss leads from `net` to `net'`. */
  ghost predicate Leads(net: Net, ev: Event, net': Net) {
    MeshNetwork.Step(net, ev, net') && Benign(TOPOLOGY, net, ev) && GateCalm(GATES, ev)
  }

  /** The reception at clock `c` over link `l`. */
  function Hear(l: Link, c: int): Event { Deliver(l, map[l.src := 1], c, c + 1) }

  lemma Hears(net: Net, l: Link, c: int, p: Pann, rest: seq<Pann>, n: Node, frames: seq<Frame>)
    requires net.clock == c && 0 <= c < 100 && l in TOPOLOGY.links && l in net.chan && net.chan[l] == [p] + rest
    requires l.dst in net.nodes && Young(net.nodes[l.dst])
    requires Receive(net.nodes[l.dst], map[l.src := 1], c, c + 1, l.src, p) == (n, frames)
    ensures Leads(net, Hear(l, c), Net(net.nodes[l.dst := n], Send(net.chan[l := rest], l.dst, frames), c + 1))
  {
    assert net.chan[l][1..] == rest;
  }

  // ----- The three nodes

  /** What is in flight. */
  datatype Air = Air(ab: seq<Pann>, am: seq<Pann>, ma: seq<Pann>, mb: seq<Pann>, bm: seq<Pann>)

  datatype Trio = Trio(a: Node, b: Node, m: Node, air: Air, clock: int)

  function Chan(air: Air): map<Link, seq<Pann>> {
    map[AB := air.ab, AM := air.am, MA := air.ma, MB := air.mb, BM := air.bm]
  }

  function Whole(s: Trio): Net { Net(map[A := s.a, B := s.b, M := s.m], Chan(s.air), s.clock) }

  function FromA(air: Air, frames: seq<Frame>): Air {
    air.(ab := air.ab + MeshNetwork.Heard(frames, B), am := air.am + MeshNetwork.Heard(frames, M))
  }

  function FromB(air: Air, frames: seq<Frame>): Air { air.(bm := air.bm + MeshNetwork.Heard(frames, M)) }

  function FromM(air: Air, frames: seq<Frame>): Air {
    air.(ma := air.ma + MeshNetwork.Heard(frames, A), mb := air.mb + MeshNetwork.Heard(frames, B))
  }

  lemma SendA(air: Air, frames: seq<Frame>)
    ensures Send(Chan(air), A, frames) == Chan(FromA(air, frames))
  {
  }

  lemma SendB(air: Air, frames: seq<Frame>)
    ensures Send(Chan(air), B, frames) == Chan(FromB(air, frames))
  {
  }

  lemma SendM(air: Air, frames: seq<Frame>)
    ensures Send(Chan(air), M, frames) == Chan(FromM(air, frames))
  {
  }

  function AtA(s: Trio, air: Air, n: Node, fs: seq<Frame>): Trio { Trio(n, s.b, s.m, FromA(air, fs), s.clock + 1) }
  function AtB(s: Trio, air: Air, n: Node, fs: seq<Frame>): Trio { Trio(s.a, n, s.m, FromB(air, fs), s.clock + 1) }
  function AtM(s: Trio, air: Air, n: Node, fs: seq<Frame>): Trio { Trio(s.a, s.b, n, FromM(air, fs), s.clock + 1) }

  lemma ThenA(s: Trio, air: Air, n: Node, frames: seq<Frame>)
    ensures Net(Whole(s).nodes[A := n], Send(Chan(air), A, frames), s.clock + 1) == Whole(AtA(s, air, n, frames))
  {
    SendA(air, frames);
  }

  lemma ThenB(s: Trio, air: Air, n: Node, frames: seq<Frame>)
    ensures Net(Whole(s).nodes[B := n], Send(Chan(air), B, frames), s.clock + 1) == Whole(AtB(s, air, n, frames))
  {
    SendB(air, frames);
  }

  lemma ThenM(s: Trio, air: Air, n: Node, frames: seq<Frame>)
    ensures Net(Whole(s).nodes[M := n], Send(Chan(air), M, frames), s.clock + 1) == Whole(AtM(s, air, n, frames))
  {
    SendM(air, frames);
  }

  lemma Remaining(air: Air, q: seq<Pann>)
    ensures Chan(air)[AB := q] == Chan(air.(ab := q)) && Chan(air)[MB := q] == Chan(air.(mb := q))
    ensures Chan(air)[MA := q] == Chan(air.(ma := q)) && Chan(air)[AM := q] == Chan(air.(am := q))
    ensures Chan(air)[BM := q] == Chan(air.(bm := q))
  {
  }

  lemma HearAB(s: Trio, p: Pann, rest: seq<Pann>, n: Node, frames: seq<Frame>)
    requires s.air.ab == [p] + rest && 0 <= s.clock < 100 && Young(s.b)
    requires Receive(s.b, map[A := 1], s.clock, s.clock + 1, A, p) == (n, frames)
    ensures Leads(Whole(s), Hear(AB, s.clock), Whole(AtB(s, s.air.(ab := rest), n, frames)))
  {
    Hears(Whole(s), AB, s.clock, p, rest, n, frames);
    Remaining(s.air, rest);
    ThenB(s, s.air.(ab := rest), n, frames);
  }

  lemma HearMB(s: Trio, p: Pann, rest: seq<Pann>, n: Node, frames: seq<Frame>)
    requires s.air.mb == [p] + rest && 0 <= s.clock < 100 && Young(s.b)
    requires Receive(s.b, map[M := 1], s.clock, s.clock + 1, M, p) == (n, frames)
    ensures Leads(Whole(s), Hear(MB, s.clock), Whole(AtB(s, s.air.(mb := rest), n, frames)))
  {
    Hears(Whole(s), MB, s.clock, p, rest, n, frames);
    Remaining(s.air, rest);
    ThenB(s, s.air.(mb := rest), n, frames);
  }

  lemma HearMA(s: Trio, p: Pann, rest: seq<Pann>, n: Node, frames: seq<Frame>)
    requires s.air.ma == [p] + rest && 0 <= s.clock < 100 && Young(s.a)
    requires Receive(s.a, map[M := 1], s.clock, s.clock + 1, M, p) == (n, frames)
    ensures Leads(Whole(s), Hear(MA, s.clock), Whole(AtA(s, s.air.(ma := rest), n, frames)))
  {
    Hears(Whole(s), MA, s.clock, p, rest, n, frames);
    Remaining(s.air, rest);
    ThenA(s, s.air.(ma := rest), n, frames);
  }

  lemma HearAM(s: Trio, p: Pann, rest: seq<Pann>, n: Node, frames: seq<Frame>)
    requires s.air.am == [p] + rest && 0 <= s.clock < 100 && Young(s.m)
    requires Receive(s.m, map[A := 1], s.clock, s.clock + 1, A, p) == (n, frames)
    ensures Leads(Whole(s), Hear(AM, s.clock), Whole(AtM(s, s.air.(am := rest), n, frames)))
  {
    Hears(Whole(s), AM, s.clock, p, rest, n, frames);
    Remaining(s.air, rest);
    ThenM(s, s.air.(am := rest), n, frames);
  }

  lemma HearBM(s: Trio, p: Pann, rest: seq<Pann>, n: Node, frames: seq<Frame>)
    requires s.air.bm == [p] + rest && 0 <= s.clock < 100 && Young(s.m)
    requires Receive(s.m, map[B := 1], s.clock, s.clock + 1, B, p) == (n, frames)
    ensures Leads(Whole(s), Hear(BM, s.clock), Whole(AtM(s, s.air.(bm := rest), n, frames)))
  {
    Hears(Whole(s), BM, s.clock, p, rest, n, frames);
    Remaining(s.air, rest);
    ThenM(s, s.air.(bm := rest), n, frames);
  }

  // ----- What the neighbours hear

  /** Of a reply to `da` and a forward to everyone, a neighbour hears the forward, and the reply if it is `da`. */
  lemma HeardTwo(da: Mac, reply: Pann, forward: Pann, y: Mac)
    requires da != BROADCAST
    ensures MeshNetwork.Heard([Frame(da, reply), Frame(BROADCAST, forward)], y)
            == if da == y then [reply, forward] else [forward]
  {
    assert [Frame(da, reply), Frame(BROADCAST, forward)][1..] == [Frame(BROADCAST, forward)];
    HeardByAll(forward, y);
  }

  lemma HeardOne(da: Mac, p: Pann, y: Mac)
    requires da != BROADCAST
    ensures MeshNetwork.Heard([Frame(da, p)], y) == if da == y then [p] else []
  {
    assert [Frame(da, p)][1..] == [];
  }

  lemma HeardByAll(p: Pann, y: Mac)
    ensures MeshNetwork.Heard([Frame(BROADCAST, p)], y) == [p]
  {
    assert [Frame(BROADCAST, p)][1..] == [];
  }

  lemma NothingHeard(q: seq<Pann>)
    ensures q + [] == q
  {
  }

  // ----- The run

  function Gate(addr: Mac): Node { Daemon(addr).(sn := 1, isRoot := true, isGate := true) }

  function AToB(hops: nat): Pann requires hops <= TTL { Answer(A, 2, hops, B, true) }
  function BToA(hops: nat): Pann requires hops <= TTL { Answer(B, 2, hops, A, true) }
  function MToB(): Pann { Answer(M, 1, 0, B, false) }
  function MToA(): Pann { Answer(M, 2, 0, A, false) }

  function Adding(n: Node, path: MeshPath): Node { n.(paths := n.paths[path.dst := path]) }

  function Answering(n: Node, path: MeshPath): Node { n.(paths := n.paths[path.dst := path], sn := n.sn + 1) }

  function A2(): Node { Answering(Gate(A), Via(B, M, 1, 2, 2, true)) }
  function A3(): Node { Adding(A2(), Via(M, M, 2, 1, 10, false)) }
  function B2(): Node { Adding(Gate(B), Via(M, M, 1, 1, 5, false)) }
  function B3(): Node { Answering(B2(), Via(A, M, 1, 2, 7, true)) }
  function B4(): Node { Adding(B3(), Via(A, M, 2, 2, 8, true)) }
  function M1(): Node { Answering(Daemon(M), Via(B, B, 1, 1, 1, true)) }
  function M2(): Node { Answering(M1(), Via(A, A, 1, 1, 3, true)) }
  function M3(): Node { Adding(M2(), Via(A, A, 2, 1, 4, true)) }
  function M4(): Node { Adding(M3(), Via(B, B, 2, 1, 12, true)) }

  function S0(): Trio { Trio(Daemon(A), Daemon(B), Daemon(M), Air([], [], [], [], []), 0) }
  function S1(): Trio { Trio(Gate(A), Daemon(B), Daemon(M), Air([Wave(A, 0)], [Wave(A, 0)], [], [], []), 0) }
  function S2(): Trio { Trio(Gate(A), Gate(B), Daemon(M), Air([Wave(A, 0)], [Wave(A, 0)], [], [], [Wave(B, 0)]), 0) }
  function S3(): Trio {
    Trio(Gate(A), Gate(B), M1(),
      Air([Wave(A, 0)], [Wave(A, 0)], [Wave(B, 1)], [MToB(), Wave(B, 1)], []), 1)
  }

  function S4(): Trio {
    Trio(A2(), Gate(B), M1(),
      Air([Wave(A, 0), Wave(B, 2)], [Wave(A, 0), AToB(0), Wave(B, 2)], [], [MToB(), Wave(B, 1)], []), 2)
  }

  function S5(): Trio {
    Trio(A2(), Gate(B), M2(),
      Air([Wave(A, 0), Wave(B, 2)], [AToB(0), Wave(B, 2)], [MToA(), Wave(A, 1)],
          [MToB(), Wave(B, 1), Wave(A, 1)], []), 3)
  }

  function S6(): Trio {
    Trio(A2(), Gate(B), M3(),
      Air([Wave(A, 0), Wave(B, 2)], [Wave(B, 2)], [MToA(), Wave(A, 1)],
          [MToB(), Wave(B, 1), Wave(A, 1), AToB(1)], []), 4)
  }

  function S7(): Trio {
    Trio(A2(), B2(), M3(),
      Air([Wave(A, 0), Wave(B, 2)], [Wave(B, 2)], [MToA(), Wave(A, 1)], [Wave(B, 1), Wave(A, 1), AToB(1)], []), 5)
  }

  function S8(): Trio {
    Trio(A2(), B2(), M3(),
      Air([Wave(A, 0), Wave(B, 2)], [Wave(B, 2)], [MToA(), Wave(A, 1)], [Wave(A, 1), AToB(1)], []), 6)
  }

  function S9(): Trio {
    Trio(A2(), B3(), M3(),
      Air([Wave(A, 0), Wave(B, 2)], [Wave(B, 2)], [MToA(), Wave(A, 1)], [AToB(1)], [BToA(0), Wave(A, 2)]), 7)
  }

  function S10(): Trio {
    Trio(A2(), B4(), M3(),
      Air([Wave(A, 0), Wave(B, 2)], [Wave(B, 2)], [MToA(), Wave(A, 1)], [], [BToA(0), Wave(A, 2)]), 8)
  }

  function S11(): Trio {
    Trio(A2(), B4(), M3(),
      Air([Wave(B, 2)], [Wave(B, 2)], [MToA(), Wave(A, 1)], [], [BToA(0), Wave(A, 2)]), 9)
  }

  function S12(): Trio {
    Trio(A3(), B4(), M3(),
      Air([Wave(B, 2)], [Wave(B, 2)], [Wave(A, 1)], [], [BToA(0), Wave(A, 2)]), 10)
  }

  function S13(): Trio { Trio(A3(), B4(), M3(), Air([Wave(B, 2)], [Wave(B, 2)], [], [], [BToA(0), Wave(A, 2)]), 11) }
  function S14(): Trio { Trio(A3(), B4(), M4(), Air([Wave(B, 2)], [Wave(B, 2)], [BToA(1)], [], [Wave(A, 2)]), 12) }
  function S15(): Trio { Trio(A3(), B4(), M4(), Air([Wave(B, 2)], [Wave(B, 2)], [BToA(1)], [], []), 13) }

  lemma BecomesGate(addr: Mac)
    ensures SetStatus(Daemon(addr), true) == (Gate(addr), [Frame(BROADCAST, Wave(addr, 0))])
  {
  }

  lemma Event0()
    ensures Leads(Whole(S0()), Status(A, true), Whole(S1()))
  {
    BecomesGate(A);
    HeardByAll(Wave(A, 0), B);
    HeardByAll(Wave(A, 0), M);
    assert [] + [Wave(A, 0)] == [Wave(A, 0)];
    SendA(S0().air, [Frame(BROADCAST, Wave(A, 0))]);
    assert Whole(S0()).nodes[A := Gate(A)] == Whole(S1()).nodes;
  }

  lemma Event1()
    ensures Leads(Whole(S1()), Status(B, true), Whole(S2()))
  {
    BecomesGate(B);
    HeardByAll(Wave(B, 0), M);
    assert [] + [Wave(B, 0)] == [Wave(B, 0)];
    SendB(S1().air, [Frame(BROADCAST, Wave(B, 0))]);
    assert Whole(S1()).nodes[B := Gate(B)] == Whole(S2()).nodes;
  }

  lemma Event2()
    ensures Leads(Whole(S2()), Hear(BM, 0), Whole(S3()))
  {
    TakesWave(Daemon(M), B, 0, B, 0, {});
    HeardTwo(B, MToB(), Wave(B, 1), A);
    HeardTwo(B, MToB(), Wave(B, 1), B);
    assert [Wave(B, 0)] + [] == [Wave(B, 0)];
    assert [] + [Wave(B, 1)] == [Wave(B, 1)];
    assert [] + [MToB(), Wave(B, 1)] == [MToB(), Wave(B, 1)];
    HearBM(S2(), Wave(B, 0), [], M1(), [Frame(B, MToB()), Frame(BROADCAST, Wave(B, 1))]);
    assert AtM(S2(), S2().air.(bm := []), M1(), [Frame(B, MToB()), Frame(BROADCAST, Wave(B, 1))]) == S3();
  }

  lemma Event3()
    ensures Leads(Whole(S3()), Hear(MA, 1), Whole(S4()))
  {
    TakesWave(Gate(A), M, 1, B, 1, {});
    HeardTwo(M, AToB(0), Wave(B, 2), B);
    HeardTwo(M, AToB(0), Wave(B, 2), M);
    assert [Wave(B, 1)] + [] == [Wave(B, 1)];
    assert [Wave(A, 0)] + [Wave(B, 2)] == [Wave(A, 0), Wave(B, 2)];
    assert [Wave(A, 0)] + [AToB(0), Wave(B, 2)] == [Wave(A, 0), AToB(0), Wave(B, 2)];
    HearMA(S3(), Wave(B, 1), [], A2(), [Frame(M, AToB(0)), Frame(BROADCAST, Wave(B, 2))]);
    assert AtA(S3(), S3().air.(ma := []), A2(), [Frame(M, AToB(0)), Frame(BROADCAST, Wave(B, 2))]) == S4();
  }

  lemma Event4()
    ensures Leads(Whole(S4()), Hear(AM, 2), Whole(S5()))
  {
    TakesWave(M1(), A, 2, A, 0, {B});
    HeardTwo(A, MToA(), Wave(A, 1), A);
    HeardTwo(A, MToA(), Wave(A, 1), B);
    assert [Wave(A, 0)] + [AToB(0), Wave(B, 2)] == [Wave(A, 0), AToB(0), Wave(B, 2)];
    assert [] + [MToA(), Wave(A, 1)] == [MToA(), Wave(A, 1)];
    assert [MToB(), Wave(B, 1)] + [Wave(A, 1)] == [MToB(), Wave(B, 1), Wave(A, 1)];
    HearAM(S4(), Wave(A, 0), [AToB(0), Wave(B, 2)], M2(), [Frame(A, MToA()), Frame(BROADCAST, Wave(A, 1))]);
    assert AtM(S4(), S4().air.(am := [AToB(0), Wave(B, 2)]), M2(), [Frame(A, MToA()), Frame(BROADCAST, Wave(A, 1))])
           == S5();
  }

  lemma Event5()
    ensures Leads(Whole(S5()), Hear(AM, 3), Whole(S6()))
  {
    TakesAnswer(M2(), A, 3, A, 2, 0, B, true, {B});
    HeardOne(B, AToB(1), A);
    HeardOne(B, AToB(1), B);
    NothingHeard([MToA(), Wave(A, 1)]);
    assert [AToB(0)] + [Wave(B, 2)] == [AToB(0), Wave(B, 2)];
    assert [MToB(), Wave(B, 1), Wave(A, 1)] + [AToB(1)] == [MToB(), Wave(B, 1), Wave(A, 1), AToB(1)];
    HearAM(S5(), AToB(0), [Wave(B, 2)], M3(), [Frame(B, AToB(1))]);
    assert AtM(S5(), S5().air.(am := [Wave(B, 2)]), M3(), [Frame(B, AToB(1))]) == S6();
  }

  lemma Event6()
    ensures Leads(Whole(S6()), Hear(MB, 4), Whole(S7()))
  {
    TakesAnswer(Gate(B), M, 4, M, 1, 0, B, false, {});
    NothingHeard([]);
    assert [MToB()] + [Wave(B, 1), Wave(A, 1), AToB(1)] == [MToB(), Wave(B, 1), Wave(A, 1), AToB(1)];
    HearMB(S6(), MToB(), [Wave(B, 1), Wave(A, 1), AToB(1)], B2(), []);
    assert AtB(S6(), S6().air.(mb := [Wave(B, 1), Wave(A, 1), AToB(1)]), B2(), []) == S7();
  }

  lemma Event7()
    ensures Leads(Whole(S7()), Hear(MB, 5), Whole(S8()))
  {
    Ignores(B2(), M, 5, 1);
    NothingHeard([]);
    assert [Wave(B, 1)] + [Wave(A, 1), AToB(1)] == [Wave(B, 1), Wave(A, 1), AToB(1)];
    HearMB(S7(), Wave(B, 1), [Wave(A, 1), AToB(1)], B2(), []);
    assert AtB(S7(), S7().air.(mb := [Wave(A, 1), AToB(1)]), B2(), []) == S8();
  }

  lemma Event8()
    ensures Leads(Whole(S8()), Hear(MB, 6), Whole(S9()))
  {
    TakesWave(B2(), M, 6, A, 1, {});
    HeardTwo(M, BToA(0), Wave(A, 2), M);
    assert [Wave(A, 1)] + [AToB(1)] == [Wave(A, 1), AToB(1)];
    assert [] + [BToA(0), Wave(A, 2)] == [BToA(0), Wave(A, 2)];
    HearMB(S8(), Wave(A, 1), [AToB(1)], B3(), [Frame(M, BToA(0)), Frame(BROADCAST, Wave(A, 2))]);
    assert AtB(S8(), S8().air.(mb := [AToB(1)]), B3(), [Frame(M, BToA(0)), Frame(BROADCAST, Wave(A, 2))]) == S9();
  }

  lemma Event9()
    ensures Leads(Whole(S9()), Hear(MB, 7), Whole(S10()))
  {
    TakesAnswer(B3(), M, 7, A, 2, 1, B, true, {});
    NothingHeard([BToA(0), Wave(A, 2)]);
    assert [AToB(1)] + [] == [AToB(1)];
    HearMB(S9(), AToB(1), [], B4(), []);
    assert AtB(S9(), S9().air.(mb := []), B4(), []) == S10();
  }

  lemma Event10()
    ensures Leads(Whole(S10()), Hear(AB, 8), Whole(S11()))
  {
    Refuses(B4(), A, 8, A, 0);
    NothingHeard([BToA(0), Wave(A, 2)]);
    assert [Wave(A, 0)] + [Wave(B, 2)] == [Wave(A, 0), Wave(B, 2)];
    HearAB(S10(), Wave(A, 0), [Wave(B, 2)], B4(), []);
    assert AtB(S10(), S10().air.(ab := [Wave(B, 2)]), B4(), []) == S11();
  }

  lemma Event11()
    ensures Leads(Whole(S11()), Hear(MA, 9), Whole(S12()))
  {
    TakesAnswer(A2(), M, 9, M, 2, 0, A, false, {});
    NothingHeard([Wave(B, 2)]);
    NothingHeard([Wave(B, 2)]);
    assert [MToA()] + [Wave(A, 1)] == [MToA(), Wave(A, 1)];
    HearMA(S11(), MToA(), [Wave(A, 1)], A3(), []);
    assert AtA(S11(), S11().air.(ma := [Wave(A, 1)]), A3(), []) == S12();
  }

  lemma Event12()
    ensures Leads(Whole(S12()), Hear(MA, 10), Whole(S13()))
  {
    Ignores(A3(), M, 10, 1);
    NothingHeard([Wave(B, 2)]);
    NothingHeard([Wave(B, 2)]);
    assert [Wave(A, 1)] + [] == [Wave(A, 1)];
    HearMA(S12(), Wave(A, 1), [], A3(), []);
    assert AtA(S12(), S12().air.(ma := []), A3(), []) == S13();
  }

  lemma Event13()
    ensures Leads(Whole(S13()), Hear(BM, 11), Whole(S14()))
  {
    TakesAnswer(M3(), B, 11, B, 2, 0, A, true, {A});
    HeardOne(A, BToA(1), A);
    HeardOne(A, BToA(1), B);
    NothingHeard([]);
    assert [BToA(0)] + [Wave(A, 2)] == [BToA(0), Wave(A, 2)];
    assert [] + [BToA(1)] == [BToA(1)];
    HearBM(S13(), BToA(0), [Wave(A, 2)], M4(), [Frame(A, BToA(1))]);
    assert AtM(S13(), S13().air.(bm := [Wave(A, 2)]), M4(), [Frame(A, BToA(1))]) == S14();
  }

  lemma Event14()
    ensures Leads(Whole(S14()), Hear(BM, 12), Whole(S15()))
  {
    Refuses(M4(), B, 12, A, 2);
    NothingHeard([BToA(1)]);
    NothingHeard([]);
    assert [Wave(A, 2)] + [] == [Wave(A, 2)];
    HearBM(S14(), Wave(A, 2), [], M4(), []);
    assert AtM(S14(), S14().air.(bm := []), M4(), []) == S15();
  }

  // ----- All of it

  /** A calm run from new daemons that ends in `net`, A having broadcast once. */
  ghost predicate Reaches(nets: seq<Net>, evs: seq<Event>, net: Net) {
    GateRun(TOPOLOGY, GATES, A, nets, evs) && nets[|evs|] == net && LastBroadcast(nets, evs, A, |evs|) == 1
  }

  lemma {:induction false} LastPrefix(nets: seq<Net>, evs: seq<Event>, net: Net, ev: Event, i: nat)
    requires |nets| == |evs| + 1 && i <= |evs|
    ensures LastBroadcast(nets + [net], evs + [ev], A, i) == LastBroadcast(nets, evs, A, i)
  {
    if i > 0 { LastPrefix(nets, evs, net, ev, i - 1); }
  }

  lemma StillCalm(nets: seq<Net>, evs: seq<Event>, ev: Event, net': Net)
    requires GateRun(TOPOLOGY, GATES, A, nets, evs) && Leads(nets[|evs|], ev, net')
    ensures GateRun(TOPOLOGY, GATES, A, nets + [net'], evs + [ev])
  {
    var ns, es := nets + [net'], evs + [ev];
    forall i | 0 <= i < |es| ensures Follows(ns, es, i) && BenignAt(TOPOLOGY, ns, es, i) && CalmEventAt(GATES, es, i) {
      if i < |evs| { assert Follows(nets, evs, i) && BenignAt(TOPOLOGY, nets, evs, i) && CalmEventAt(GATES, evs, i); }
    }
  }

  lemma Longer(nets: seq<Net>, evs: seq<Event>, net: Net, ev: Event, net': Net) returns (ns: seq<Net>, es: seq<Event>)
    requires Reaches(nets, evs, net) && Leads(net, ev, net') && (ev.Deliver? || (ev.Status? && ev.x != A))
    ensures Reaches(ns, es, net')
  {
    ns, es := nets + [net'], evs + [ev];
    StillCalm(nets, evs, ev, net');
    LastPrefix(nets, evs, net', ev, |evs|);
    assert ns[|es|] == net' && ns[|es| - 1] == net && es[|es| - 1] == ev;
  }

  lemma StartsEmpty()
    ensures NetInit(TOPOLOGY, Whole(S0()))
  {
  }

  lemma EqualCosts()
    ensures Uniform(TOPOLOGY)
  {
  }

  lemma ThreeNodes(a: Node, b: Node, m: Node)
    ensures |map[A := a, B := b, M := m]| == 3
  {
    var n := map[A := a, B := b, M := m];
    assert n.Keys == {A, B, M} && |n| == |n.Keys|;
  }

  lemma StartsBenign()
    ensures BenignRun(TOPOLOGY, [Whole(S0())], [])
  {
    StartsEmpty();
  }

  lemma Starts()
    ensures GateRun(TOPOLOGY, GATES, A, [Whole(S0())], [])
  {
    StartsBenign();
    EqualCosts();
    ThreeNodes(Daemon(A), Daemon(B), Daemon(M));
  }

  lemma RunTo1() returns (nets: seq<Net>, evs: seq<Event>)
    ensures Reaches(nets, evs, Whole(S1()))
  {
    Starts();
    Event0();
    nets, evs := [Whole(S0())] + [Whole(S1())], [] + [Status(A, true)];
    StillCalm([Whole(S0())], [], Status(A, true), Whole(S1()));
    assert nets[0] == Whole(S0()) && nets[1] == Whole(S1()) && evs[0] == Status(A, true) && |evs| == 1;
  }

  lemma RunTo5() returns (nets: seq<Net>, evs: seq<Event>)
    ensures Reaches(nets, evs, Whole(S5()))
  {
    nets, evs := RunTo1();
    Event1();
    nets, evs := Longer(nets, evs, Whole(S1()), Status(B, true), Whole(S2()));
    Event2();
    nets, evs := Longer(nets, evs, Whole(S2()), Hear(BM, 0), Whole(S3()));
    Event3();
    nets, evs := Longer(nets, evs, Whole(S3()), Hear(MA, 1), Whole(S4()));
    Event4();
    nets, evs := Longer(nets, evs, Whole(S4()), Hear(AM, 2), Whole(S5()));
  }

  lemma RunTo10() returns (nets: seq<Net>, evs: seq<Event>)
    ensures Reaches(nets, evs, Whole(S10()))
  {
    nets, evs := RunTo5();
    Event5();
    nets, evs := Longer(nets, evs, Whole(S5()), Hear(AM, 3), Whole(S6()));
    Event6();
    nets, evs := Longer(nets, evs, Whole(S6()), Hear(MB, 4), Whole(S7()));
    Event7();
    nets, evs := Longer(nets, evs, Whole(S7()), Hear(MB, 5), Whole(S8()));
    Event8();
    nets, evs := Longer(nets, evs, Whole(S8()), Hear(MB, 6), Whole(S9()));
    Event9();
    nets, evs := Longer(nets, evs, Whole(S9()), Hear(MB, 7), Whole(S10()));
  }

  lemma RunTo15() returns (nets: seq<Net>, evs: seq<Event>)
    ensures Reaches(nets, evs, Whole(S15()))
  {
    nets, evs := RunTo10();
    Event10();
    nets, evs := Longer(nets, evs, Whole(S10()), Hear(AB, 8), Whole(S11()));
    Event11();
    nets, evs := Longer(nets, evs, Whole(S11()), Hear(MA, 9), Whole(S12()));
    Event12();
    nets, evs := Longer(nets, evs, Whole(S12()), Hear(MA, 10), Whole(S13()));
    Event13();
    nets, evs := Longer(nets, evs, Whole(S13()), Hear(BM, 11), Whole(S14()));
    Event14();
    nets, evs := Longer(nets, evs, Whole(S14()), Hear(BM, 12), Whole(S15()));
  }

  lemma OneHop(net: Net)
    requires A in net.nodes
    ensures Distance(MeshFor(TOPOLOGY, net, A), B, 1)
  {
    var m, p := MeshFor(TOPOLOGY, net, A), [A, B];
    assert p[..1] == [A] && Link(p[0], p[1]) == AB;
    assert Walk(m, p) && p[|p| - 1] == B && Cost(m, p) == 1;
    forall q | Walk(m, q) && q[|q| - 1] == B ensures 1 <= Cost(m, q) {
      assert |q| >= 2;
    }
  }

  lemma IsNear(net: Net)
    requires GATES <= net.nodes.Keys
    ensures Nearest(TOPOLOGY, net, GATES, A, B)
  {
    forall d: nat ensures |AsClose(TOPOLOGY, net, GATES, A, B, d)| < MIN_GATEWAY_REDUNDANCY {
      SubsetSize(AsClose(TOPOLOGY, net, GATES, A, B, d), {B});
    }
  }

  lemma Ends()
    ensures Silent(Whole(S15()), A) && Whole(S15()).nodes[A].sn == 2
    ensures HasEntry(Whole(S15()).nodes, B, A) && Whole(S15()).nodes[B].paths[A].metric == 2
    ensures GATES <= Whole(S15()).nodes.Keys
  {
  }

  /** A run from new daemons with all that `NearestGatesConverge` asks for, except that A's latest announcement
      is a reply: nothing of A is in flight, B has A among its nearest gates, at distance 1, and stores 2. */
  lemma BroadcastOvertaken() returns (nets: seq<Net>, evs: seq<Event>)
    ensures GateRun(TOPOLOGY, GATES, A, nets, evs)
    ensures var last := nets[|evs|];
            && A in last.nodes && B in last.nodes && GATES <= last.nodes.Keys && Silent(last, A)
            && last.nodes[A].sn == 2 && LastBroadcast(nets, evs, A, |evs|) == 1
            && Nearest(TOPOLOGY, last, GATES, A, B) && Distance(MeshFor(TOPOLOGY, last, A), B, 1)
            && HasEntry(last.nodes, B, A) && last.nodes[B].paths[A].metric == 2
  {
    nets, evs := RunTo15();
    Ends();
    OneHop(Whole(S15()));
    IsNear(Whole(S15()));
  }
}
