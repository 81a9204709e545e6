/**
 Loop freedom needs the assumption that nothing gets in by expiry alone. Here is a run of five
 events, from new daemons on, that breaks it only in the last one: a node whose entry has expired
 takes back what it told its neighbour, and the two then point at each other.
 */
module ExpiryLoop {
  import opened MeshTypes
  import opened MeshNode
  import opened OriginProtocol
  import opened MeshNetwork
  import opened MeshRefinement
  import opened MeshTheorems
  import LoopCondition
  import TopGates

  const O: Mac := 2
  const X: Mac := 4
  const Y: Mac := 6
  const OX := Link(O, X)
  const XY := Link(X, Y)
  const YX := Link(Y, X)
  const TIMEOUT := 10

  const TOPOLOGY := Topology({OX, XY, YX}, (o: Mac, sn: nat, l: Link) => 1, 1)

  /** A daemon that has just started. */
  function Fresh(addr: Mac): Node { Node(addr, 30, TIMEOUT, 0, false, false, map[]) }

  /** The origin's announcement after `hops` hops. */
  function Told(hops: nat): Pann
    requires hops <= 30
  {
    Pann(O, 1, hops, 30 - hops, BROADCAST, hops, true, true)
  }

  function ReplyOf(addr: Mac, sn: nat): Pann { Pann(addr, sn, 0, 30, O, 0, false, false) }

  function PathVia(nextHop: Mac, hops: nat, now: int): MeshPath {
    MeshPath(O, nextHop, 1, hops, 1, hops, now + TIMEOUT, true)
  }

  /** A node that does not know the origin, or no longer does, stores what it hears of it, replies and
      passes it on. */
  lemma Taken(n: Node, sa: Mac, t0: int, t1: int, hops: nat)
    requires n.addr != O && n.addr != BROADCAST && sa != ZERO_MAC && !n.isGate && n.elementTtl == 30
    requires n.activePathTimeout == TIMEOUT && n.sn < 10
    requires hops < 20 && t0 < t1 && n.paths.Keys <= {O}
    requires (O in n.paths ==> n.paths[O].Expired(t1) && n.paths[O].dst == O)
    ensures Receive(n, map[sa := 1], t0, t1, sa, Told(hops)) ==
            (n.(paths := n.paths[O := PathVia(sa, hops + 1, t1)], sn := n.sn + 1),
             [Frame(sa, ReplyOf(n.addr, n.sn + 1)), Frame(BROADCAST, Told(hops + 1))])
    ensures Stores(n, map[sa := 1], t0, t1, sa, Told(hops))
  {
    var p := Told(hops);
    assert Relay(n, t0, BROADCAST) == Some(BROADCAST);
    var before := Looked(n.paths, O, t0);
    assert before[O].Expired(t1);
    var e := PathVia(sa, hops + 1, t1);
    assert Rivals(before, t1, O, e.metric) == {};
    assert Learned(n, p, sa, 1, t1) == e && !Refused(n, before, p, e, t1);
    assert before[O := e] == n.paths[O := e];
    assert Reply(n, p, sa) == Frame(sa, ReplyOf(n.addr, n.sn + 1));
    assert Forward(p, BROADCAST, e) == Frame(BROADCAST, Told(hops + 1));
    TopGates.ForwardingGuard(n, before, p, e, t1);
    var frames := [Frame(sa, ReplyOf(n.addr, n.sn + 1)), Frame(BROADCAST, Told(hops + 1))];
    assert [Reply(n, p, sa)] + [Forward(p, BROADCAST, e)] == frames;
    assert Store(n, before, p, e, BROADCAST, t1) == (n.(paths := n.paths[O := e], sn := n.sn + 1), frames);
  }

  function Nodes(o: Node, x: Node, y: Node): map<Mac, Node> { map[O := o, X := x, Y := y] }
  function Chan(ox: seq<Pann>, xy: seq<Pann>, yx: seq<Pann>): map<Link, seq<Pann>> { map[OX := ox, XY := xy, YX := yx] }

  function Mesh3(o: Node, x: Node, y: Node, ox: seq<Pann>, xy: seq<Pann>, yx: seq<Pann>, clock: int): Net {
    Net(Nodes(o, x, y), Chan(ox, xy, yx), clock)
  }

  lemma SendOrigin(ox: seq<Pann>, xy: seq<Pann>, yx: seq<Pann>, frames: seq<Frame>)
    ensures Send(Chan(ox, xy, yx), O, frames) == Chan(ox + Heard(frames, X), xy, yx)
  {
    var c := Send(Chan(ox, xy, yx), O, frames);
    assert c[OX] == ox + Heard(frames, X) && c[XY] == xy && c[YX] == yx;
  }

  lemma SendX(ox: seq<Pann>, xy: seq<Pann>, yx: seq<Pann>, frames: seq<Frame>)
    ensures Send(Chan(ox, xy, yx), X, frames) == Chan(ox, xy + Heard(frames, Y), yx)
  {
    var c := Send(Chan(ox, xy, yx), X, frames);
    assert c[OX] == ox && c[XY] == xy + Heard(frames, Y) && c[YX] == yx;
  }

  lemma SendY(ox: seq<Pann>, xy: seq<Pann>, yx: seq<Pann>, frames: seq<Frame>)
    ensures Send(Chan(ox, xy, yx), Y, frames) == Chan(ox, xy, yx + Heard(frames, X))
  {
    var c := Send(Chan(ox, xy, yx), Y, frames);
    assert c[OX] == ox && c[XY] == xy && c[YX] == yx + Heard(frames, X);
  }

  lemma UpdateThree(o: Node, x: Node, y: Node, n: Node, ox: seq<Pann>, xy: seq<Pann>, yx: seq<Pann>, q: seq<Pann>)
    ensures Nodes(o, x, y)[O := n] == Nodes(n, x, y) && Chan(ox, xy, yx)[OX := q] == Chan(q, xy, yx)
    ensures Nodes(o, x, y)[X := n] == Nodes(o, n, y) && Chan(ox, xy, yx)[XY := q] == Chan(ox, q, yx)
    ensures Nodes(o, x, y)[Y := n] == Nodes(o, x, n) && Chan(ox, xy, yx)[YX := q] == Chan(ox, xy, q)
  {
  }

  function Knowing(addr: Mac, sn: nat, path: MeshPath): Node { Fresh(addr).(sn := sn, paths := map[O := path]) }

  const ANNOUNCED := Fresh(O).(sn := 1, isRoot := true, isGate := true)

  const NET0 := Mesh3(Fresh(O), Fresh(X), Fresh(Y), [], [], [], 0)
  const NET1 := Mesh3(ANNOUNCED, Fresh(X), Fresh(Y), [Told(0)], [], [], 0)
  const NET2 := Mesh3(ANNOUNCED, Knowing(X, 1, PathVia(O, 1, 1)), Fresh(Y), [], [Told(1)], [], 1)
  const NET3 := Mesh3(ANNOUNCED, Knowing(X, 1, PathVia(O, 1, 1)), Knowing(Y, 1, PathVia(X, 2, 10)), [], [],
                      [ReplyOf(Y, 1), Told(2)], 10)
  const NET4 := Mesh3(ANNOUNCED, Knowing(X, 1, PathVia(O, 1, 1)), Knowing(Y, 1, PathVia(X, 2, 10)), [], [],
                      [Told(2)], 10)
  const NET5 := Mesh3(ANNOUNCED, Knowing(X, 2, PathVia(Y, 3, 13)), Knowing(Y, 1, PathVia(X, 2, 10)), [],
                      [ReplyOf(X, 2), Told(3)], [], 13)

  lemma Step1()
    ensures MeshNetwork.Step(NET0, Status(O, true), NET1)
  {
    var frames := [Frame(BROADCAST, Told(0))];
    assert SetStatus(Fresh(O), true) == (ANNOUNCED, frames);
    assert frames[1..] == [];
    assert [] + Heard(frames, X) == [Told(0)];
    SendOrigin([], [], [], frames);
    UpdateThree(Fresh(O), Fresh(X), Fresh(Y), ANNOUNCED, [], [], [], []);
  }

  /** Of a reply to `da` and a forward to everyone, neighbour `y` hears the forward, and the reply if it is `da`. */
  lemma HeardTwo(da: Mac, reply: Pann, forward: Pann, y: Mac)
    requires da != BROADCAST
    ensures [] + Heard([Frame(da, reply), Frame(BROADCAST, forward)], y)
            == if da == y then [reply, forward] else [forward]
  {
    assert [Frame(da, reply), Frame(BROADCAST, forward)][1..] == [Frame(BROADCAST, forward)];
    assert [Frame(BROADCAST, forward)][1..] == [];
    assert Heard([Frame(BROADCAST, forward)], y) == [forward];
  }

  /** Delivery of the only announcement on a link. */
  lemma Delivered(net: Net, l: Link, t0: int, t1: int, p: Pann, n: Node, frames: seq<Frame>)
    requires l in net.chan && net.chan[l] == [p] && l.dst in net.nodes && net.clock <= t0 < t1
    requires Receive(net.nodes[l.dst], map[l.src := 1], t0, t1, l.src, p) == (n, frames)
    ensures MeshNetwork.Step(net, Deliver(l, map[l.src := 1], t0, t1),
                             Net(net.nodes[l.dst := n], Send(net.chan[l := []], l.dst, frames), t1))
  {
    assert [p][1..] == [];
  }

  lemma Step2()
    ensures MeshNetwork.Step(NET1, Deliver(OX, map[O := 1], 0, 1), NET2)
  {
    var x, frames := Knowing(X, 1, PathVia(O, 1, 1)), [Frame(O, ReplyOf(X, 1)), Frame(BROADCAST, Told(1))];
    Taken(Fresh(X), O, 0, 1, 0);
    assert Fresh(X).paths[O := PathVia(O, 1, 1)] == x.paths;
    Delivered(NET1, OX, 0, 1, Told(0), x, frames);
    HeardTwo(O, ReplyOf(X, 1), Told(1), Y);
    UpdateThree(ANNOUNCED, Fresh(X), Fresh(Y), x, [Told(0)], [], [], []);
    SendX([], [], [], frames);
  }

  lemma Step3()
    ensures MeshNetwork.Step(NET2, Deliver(XY, map[X := 1], 9, 10), NET3)
  {
    var y, frames := Knowing(Y, 1, PathVia(X, 2, 10)), [Frame(X, ReplyOf(Y, 1)), Frame(BROADCAST, Told(2))];
    Taken(Fresh(Y), X, 9, 10, 1);
    assert Fresh(Y).paths[O := PathVia(X, 2, 10)] == y.paths;
    Delivered(NET2, XY, 9, 10, Told(1), y, frames);
    HeardTwo(X, ReplyOf(Y, 1), Told(2), X);
    UpdateThree(ANNOUNCED, Knowing(X, 1, PathVia(O, 1, 1)), Fresh(Y), y, [], [Told(1)], [], []);
    SendY([], [], [], frames);
  }

  lemma Step4()
    ensures MeshNetwork.Step(NET3, Lose(YX, 0), NET4)
  {
    var q := [ReplyOf(Y, 1), Told(2)];
    assert Dropped(q, 0) == [Told(2)];
    UpdateThree(ANNOUNCED, Fresh(X), Fresh(Y), Fresh(X), [], [], q, [Told(2)]);
  }

  lemma Step5()
    ensures MeshNetwork.Step(NET4, Deliver(YX, map[Y := 1], 12, 13), NET5)
  {
    var was, x := Knowing(X, 1, PathVia(O, 1, 1)), Knowing(X, 2, PathVia(Y, 3, 13));
    var frames := [Frame(Y, ReplyOf(X, 2)), Frame(BROADCAST, Told(3))];
    Taken(was, Y, 12, 13, 2);
    assert was.paths[O := PathVia(Y, 3, 13)] == x.paths;
    Delivered(NET4, YX, 12, 13, Told(2), x, frames);
    HeardTwo(Y, ReplyOf(X, 2), Told(3), Y);
    UpdateThree(ANNOUNCED, was, Knowing(Y, 1, PathVia(X, 2, 10)), x, [], [], [Told(2)], []);
    SendX([], [], [], frames);
  }

  const NETS := [NET0, NET1, NET2, NET3, NET4, NET5]
  const EVENTS := [Status(O, true), Deliver(OX, map[O := 1], 0, 1), Deliver(XY, map[X := 1], 9, 10), Lose(YX, 0),
                   Deliver(YX, map[Y := 1], 12, 13)]

  lemma Benign0()
    ensures Benign(TOPOLOGY, NET0, EVENTS[0])
  {
  }

  lemma Benign1()
    ensures Benign(TOPOLOGY, NET1, EVENTS[1])
  {
  }

  lemma Benign2()
    ensures Benign(TOPOLOGY, NET2, EVENTS[2])
  {
  }

  lemma Benign3()
    ensures Benign(TOPOLOGY, NET3, EVENTS[3])
  {
  }

  lemma LastNotBenign()
    ensures !Benign(TOPOLOGY, NET4, EVENTS[4])
  {
    var e := NET4.nodes[X].paths[O];
    assert e.Filled() && e.Expired(13) && e.nextHop == O && AddMetric(2, 1) == 3;
  }

  lemma StartsEmpty()
    ensures NetInit(TOPOLOGY, NET0)
  {
  }

  lemma PointAtEachOther()
    ensures NextHops(NET5, O, [X, Y, X])
  {
    var p := [X, Y, X];
    assert p[0] == X && p[1] == Y && p[2] == X;
    assert NET5.nodes[X].paths[O].nextHop == Y && NET5.nodes[Y].paths[O].nextHop == X;
  }

  /** The last reception is stored although its sender's next hop is the receiver. */
  lemma LastCloses()
    ensures LoopCondition.Closes(NET4, EVENTS[4], O)
  {
    Taken(NET4.nodes[X], Y, 12, 13, 2);
    var h, q := LoopCondition.Hops(NET4.nodes, O), [Y, X];
    assert h[Y] == X;
    assert LoopCondition.From(h, q, Y, X);
  }

  /** Without the assumption loop freedom fails: this is a run, its last event alone is not benign and
      closes a loop, and after it the next hops towards the origin lead from X to Y and back. */
  lemma ExpiryMakesALoop()
    ensures Run(TOPOLOGY, NETS, EVENTS)
    ensures forall i | 0 <= i < |EVENTS| :: Benign(TOPOLOGY, NETS[i], EVENTS[i]) <==> i < 4
    ensures LoopCondition.Closes(NETS[4], EVENTS[4], O) && NextHops(NETS[5], O, [X, Y, X])
  {
    LastCloses();
    StartsEmpty();
    PointAtEachOther();
    forall i | 0 <= i < |EVENTS| ensures Follows(NETS, EVENTS, i) { EachStep(i); }
    forall i | 0 <= i < |EVENTS| ensures Benign(TOPOLOGY, NETS[i], EVENTS[i]) <==> i < 4 { EachBenign(i); }
  }

  lemma EachBenign(i: nat)
    requires i < 5
    ensures Benign(TOPOLOGY, NETS[i], EVENTS[i]) <==> i < 4
  {
    match i
    case 0 => Benign0();
    case 1 => Benign1();
    case 2 => Benign2();
    case 3 => Benign3();
    case _ => LastNotBenign();
  }

  lemma EachStep(i: nat)
    requires i < 5
    ensures MeshNetwork.Step(NETS[i], EVENTS[i], NETS[i + 1])
  {
    match i
    case 0 => Step1();
    case 1 => Step2();
    case 2 => Step3();
    case 3 => Step4();
    case _ => Step5();
  }
}
