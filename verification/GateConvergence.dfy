/**
 Convergence with several gates. A node keeps the two nearest gates only, counting itself if it is
 one, and refuses announcements of others. Still, at a moment when a gate's latest announcement was
 a broadcast and nothing of it is in flight, every node that has the gate among its nearest
 holds its exact distance. `AllGates` says what this means for all gates together.
 */
module GateConvergence {
  import opened MeshTypes
  import opened MeshNode
  import opened OriginProtocol
  import opened Convergence
  import opened NearConvergence
  import opened MeshNetwork
  import opened MeshRefinement
  import opened MeshTheorems
  import TopGates

  // ----- Near a gate

  /** The metric of a link depends on the link only. */
  ghost predicate Uniform(t: Topology) { forall o: Mac, sn: nat, l: Link :: t.cost(o, sn, l) == t.cost(0, 0, l) }

  predicate WalkTo(m: Mesh, p: seq<Mac>, x: Mac, d: nat) { Walk(m, p) && p[|p| - 1] == x && Cost(m, p) <= d }

  ghost predicate Within(m: Mesh, x: Mac, d: nat) { exists p :: WalkTo(m, p, x, d) }

  /** The other gates from which `v` is no farther than `d`; a gate is no distance from itself. */
  ghost function AsClose(t: Topology, net: Net, gates: set<Mac>, g: Mac, v: Mac, d: nat): set<Mac>
    requires gates <= net.nodes.Keys
  {
    set h | h in gates && h != g && Within(MeshFor(t, net, h), v, d)
  }

  /** `g` is one of the nearest gates of `v`: fewer than two others are as close. */
  ghost predicate Nearest(t: Topology, net: Net, gates: set<Mac>, g: Mac, v: Mac)
    requires gates <= net.nodes.Keys && g in net.nodes
  {
    forall d: nat | Distance(MeshFor(t, net, g), v, d) :: |AsClose(t, net, gates, g, v, d)| < MIN_GATEWAY_REDUNDANCY
  }

  ghost function NearOf(t: Topology, net: Net, gates: set<Mac>, g: Mac): set<Mac>
    requires gates <= net.nodes.Keys && g in net.nodes
  {
    set v | v in net.nodes && v != g && Nearest(t, net, gates, g, v)
  }

  lemma WithinStep(m: Mesh, l: Link, d: nat)
    requires l in m.links && Within(m, l.src, d)
    ensures Within(m, l.dst, d + m.cost(0, l))
  {
    var p :| WalkTo(m, p, l.src, d);
    WalkOn(m, p, l);
    assert WalkTo(m, p + [l.dst], l.dst, d + m.cost(0, l));
  }

  lemma WithinOn(t: Topology, net: Net, h: Mac, l: Link, d: nat)
    requires Uniform(t) && h in net.nodes && l in t.links && Within(MeshFor(t, net, h), l.src, d)
    ensures Within(MeshFor(t, net, h), l.dst, d + t.cost(0, 0, l))
  {
    WithinStep(MeshFor(t, net, h), l, d);
    assert t.cost(h, 0, l) == t.cost(0, 0, l);
  }

  /** A gate among the nearest of `v` is among the nearest of the node before `v` on a shortest path. */
  lemma NearClosed(t: Topology, net: Net, gates: set<Mac>, g: Mac)
    requires Proper(t, net.nodes) && Uniform(t) && gates <= net.nodes.Keys && g in net.nodes
    ensures Closed(MeshFor(t, net, g), NearOf(t, net, gates, g))
  {
    var m, near := MeshFor(t, net, g), NearOf(t, net, gates, g);
    forall l: Link, d: nat | l in m.links && l.dst in near && Distance(m, l.src, d) &&
       Distance(m, l.dst, d + m.cost(0, l))
      ensures l.src == m.origin || l.src in near
    {
      NearBefore(t, net, gates, g, l, d);
    }
  }

  lemma NearBefore(t: Topology, net: Net, gates: set<Mac>, g: Mac, l: Link, d: nat)
    requires Proper(t, net.nodes) && Uniform(t) && gates <= net.nodes.Keys && g in net.nodes && l in t.links
    requires Nearest(t, net, gates, g, l.dst)
    requires var m := MeshFor(t, net, g); Distance(m, l.src, d) && Distance(m, l.dst, d + m.cost(0, l))
    ensures Nearest(t, net, gates, g, l.src)
  {
    var m := MeshFor(t, net, g);
    assert m.cost(0, l) == t.cost(0, 0, l);
    var here, there := AsClose(t, net, gates, g, l.src, d), AsClose(t, net, gates, g, l.dst, d + m.cost(0, l));
    forall h | h in here ensures h in there { WithinOn(t, net, h, l, d); }
    SubsetSize(here, there);
    forall c: nat | Distance(m, l.src, c) ensures |AsClose(t, net, gates, g, l.src, c)| < MIN_GATEWAY_REDUNDANCY {
      DistanceUnique(m, l.src, c, d);
    }
  }

  // ----- Who may speak as a gate

  /** Only gates announce themselves as such, and number `b` of `g` is for everyone and asks for replies. */
  predicate PannKind(gates: set<Mac>, g: Mac, b: nat, p: Pann) {
    (p.isGate ==> p.orig in gates) && (p.orig == g && p.sn == b ==> p.target == BROADCAST && p.replyRequested)
  }

  predicate NodeKind(gates: set<Mac>, n: Node) {
    && (n.isGate ==> n.addr in gates)
    && forall a | a in n.paths && n.paths[a].isGate :: a in gates && n.paths[a].Filled()
  }

  predicate AllKind(gates: set<Mac>, g: Mac, b: nat, q: seq<Pann>) { forall i | 0 <= i < |q| ::
      PannKind(gates, g, b, q[i]) }

  ghost predicate Kinds(gates: set<Mac>, g: Mac, b: nat, net: Net) {
    && (forall x {:trigger NodeKind(gates, net.nodes[x])} | x in net.nodes :: NodeKind(gates, net.nodes[x]))
    && (forall l {:trigger AllKind(gates, g, b, net.chan[l])} | l in net.chan :: AllKind(gates, g, b, net.chan[l]))
  }

  /** Nothing is lost, every neighbour has a link metric, and only nodes of `gates` change their status. */
  predicate GateCalm(gates: set<Mac>, ev: Event) {
    match ev
    case Lose(_, _) => false
    case Status(x, _) => x in gates
    case Deliver(l, stas, _, _) => l.src in stas
    case _ => true
  }

  predicate Broadcasts(net: Net, ev: Event, g: Mac)
    requires g in net.nodes
  {
    (ev.RootTimer? || ev.Status?) && Announcing(net, ev, g)
  }

  lemma KindReceive(gates: set<Mac>, g: Mac, b: nat, n: Node, stas: map<Mac, nat>, t0: int, t1: int, sa: Mac, p: Pann)
    requires NodeKind(gates, n) && PannKind(gates, g, b, p) && (n.addr == g ==> b <= n.sn) && n.sn < MAX_SN
    requires sa != ZERO_MAC
    ensures var res := Receive(n, stas, t0, t1, sa, p);
            NodeKind(gates, res.0) && forall f <- res.1 :: PannKind(gates, g, b, f.pann)
  {
    ReceiveShape(n, stas, t0, t1, sa, p);
  }

  lemma KindSend(gates: set<Mac>, g: Mac, b: nat, chan: map<Link, seq<Pann>>, x: Mac, frames: seq<Frame>, l: Link)
    requires l in chan && AllKind(gates, g, b, chan[l]) && forall f <- frames :: PannKind(gates, g, b, f.pann)
    ensures AllKind(gates, g, b, Send(chan, x, frames)[l])
  {
    var h := MeshNetwork.Heard(frames, l.dst);
    forall i | 0 <= i < |h| ensures PannKind(gates, g, b, h[i]) { HeardFrom(frames, l.dst, i); }
  }

  lemma KindAct(gates: set<Mac>, g: Mac, b: nat, net: Net, x: Mac, res: (Node, seq<Frame>),
          chan: map<Link, seq<Pann>>, clock: int)
    requires Kinds(gates, g, b, net) && x in net.nodes && NodeKind(gates, res.0)
    requires forall l {:trigger AllKind(gates, g, b, chan[l])} | l in chan :: AllKind(gates, g, b, chan[l])
    requires forall f <- res.1 :: PannKind(gates, g, b, f.pann)
    ensures Kinds(gates, g, b, After(net, x, res, chan, clock))
  {
    var net' := After(net, x, res, chan, clock);
    forall l | l in net'.chan ensures AllKind(gates, g, b, net'.chan[l]) {
      assert AllKind(gates, g, b, chan[l]);
      KindSend(gates, g, b, chan, x, res.1, l);
    }
    forall y | y in net'.nodes ensures NodeKind(gates, net'.nodes[y]) {
      assert y != x ==> NodeKind(gates, net.nodes[y]);
    }
  }

  /** A change at one node that sends nothing. */
  lemma KindSilent(gates: set<Mac>, g: Mac, b: nat, net: Net, net': Net, x: Mac)
    requires Kinds(gates, g, b, net) && x in net.nodes && x in net'.nodes && net'.nodes == net.nodes[x := net'.nodes[x]]
    requires net'.chan == net.chan && NodeKind(gates, net'.nodes[x])
    ensures Kinds(gates, g, b, net')
  {
    forall y | y in net'.nodes
      ensures NodeKind(gates, net'.nodes[y]) { assert y != x ==> NodeKind(gates, net.nodes[y]); }
    forall l | l in net'.chan ensures AllKind(gates, g, b, net'.chan[l]) { assert AllKind(gates, g, b, net.chan[l]); }
  }

  /** An announcement of `n`, at most of number `b` if it is `g`. */
  lemma KindAnnounce(gates: set<Mac>, g: Mac, b: nat, n: Node)
    requires NodeKind(gates, n) && n.sn < MAX_SN
    ensures NodeKind(gates, Announce(n).0) && forall f <- Announce(n).1 :: PannKind(gates, g, b, f.pann)
  {
  }

  lemma KindNext(t: Topology, gates: set<Mac>, g: Mac, b: nat, net: Net, ev: Event, net': Net)
    requires Shape(t, net) && Kinds(gates, g, b, net) && MeshNetwork.Step(net, ev, net') && Benign(t, net, ev)
    requires GateCalm(gates, ev)
    requires g in net.nodes && (ev.Deliver? ==> b <= net.nodes[g].sn)
    ensures Kinds(gates, g, b, net')
  {
    match ev
    case RootTimer(x) =>
      assert NodeKind(gates, net.nodes[x]);
      KindAnnounce(gates, g, b, net.nodes[x]);
      KindAct(gates, g, b, net, x, Announce(net.nodes[x]), net.chan, net.clock);
    case Status(x, gate) => KindStatus(gates, g, b, net, x, gate);
    case WithdrawTimer(x) =>
      assert NodeKind(gates, net.nodes[x]);
      KindSilent(gates, g, b, net, net', x);
    case Housekeeping(x, now) =>
      assert NodeKind(gates, net.nodes[x]);
      KindSilent(gates, g, b, net, net', x);
    case Deliver(l, stas, t0, t1) => KindDeliver(t, gates, g, b, net, ev, net');
  }

  lemma KindStatus(gates: set<Mac>, g: Mac, b: nat, net: Net, x: Mac, gate: bool)
    requires Kinds(gates, g, b, net) && x in net.nodes && net.nodes[x].addr == x && x in gates
    requires net.nodes[x].sn < MAX_SN
    ensures Kinds(gates, g, b, After(net, x, SetStatus(net.nodes[x], gate), net.chan, net.clock))
  {
    var n := net.nodes[x];
    assert NodeKind(gates, n);
    KindAnnounce(gates, g, b, n.(isGate := true, isRoot := true));
    KindAct(gates, g, b, net, x, SetStatus(n, gate), net.chan, net.clock);
  }

  lemma KindDeliver(t: Topology, gates: set<Mac>, g: Mac, b: nat, net: Net, ev: Event, net': Net)
    requires Shape(t, net) && Kinds(gates, g, b, net) && MeshNetwork.Step(net, ev, net') && ev.Deliver?
    requires SnRoom(net, ev.link.dst) && g in net.nodes && b <= net.nodes[g].sn
    ensures Kinds(gates, g, b, net')
  {
    var Deliver(l, stas, t0, t1) := ev;
    var x, p := l.dst, net.chan[l][0];
    var rest := net.chan[l := net.chan[l][1..]];
    assert NodeKind(gates, net.nodes[x]) && AllKind(gates, g, b, net.chan[l]);
    KindReceive(gates, g, b, net.nodes[x], stas, t0, t1, l.src, p);
    forall k | k in rest ensures AllKind(gates, g, b, rest[k]) { assert AllKind(gates, g, b, net.chan[k]); }
    KindAct(gates, g, b, net, x, Receive(net.nodes[x], stas, t0, t1, l.src, p), rest, t1);
  }

  // ----- The invariant

  /** With metrics that never change, every originator's view is also monotone and traced. */
  ghost predicate FixedView(t: Topology, net: Net, o: Mac)
    requires o in net.nodes
  {
    Inv(MeshFor(t, net, o), true, StateOf(net, o)) && TraceInv(MeshFor(t, net, o), StateOf(net, o))
  }

  /** What holds of every state of a calm run with several gates; `b` is the number of the latest broadcast
      of `g`. */
  ghost predicate GateState(t: Topology, gates: set<Mac>, g: Mac, b: nat, net: Net)
    requires gates <= net.nodes.Keys && g in net.nodes
  {
    && NetInv(t, net)
    && (forall o {:trigger FixedView(t, net, o)} | o in net.nodes :: FixedView(t, net, o))
    && ToldInv(MeshFor(t, net, g), NearOf(t, net, gates, g), b, StateOf(net, g))
    && Kinds(gates, g, b, net)
  }

  lemma UniformIsFixed(t: Topology, net: Net, o: Mac)
    requires Uniform(t) && o in net.nodes
    ensures FixedCosts(MeshFor(t, net, o))
  {
    var m := MeshFor(t, net, o);
    forall sn: nat, l: Link ensures m.cost(sn, l) == m.cost(0, l) {
      assert m.cost(sn, l) == t.cost(o, sn, l) == t.cost(0, 0, l);
      assert m.cost(0, l) == t.cost(o, 0, l) == t.cost(0, 0, l);
    }
  }

  lemma FixedNext(t: Topology, net: Net, ev: Event, net': Net, o: Mac)
    requires NetInv(t, net) && Uniform(t) && o in net.nodes && FixedView(t, net, o)
    requires MeshNetwork.Step(net, ev, net') && Benign(t, net, ev)
    ensures o in net'.nodes && FixedView(t, net', o)
  {
    var m := MeshFor(t, net, o);
    assert ViewOk(t, net, o);
    MeshWellFormed(t, net, o);
    UniformIsFixed(t, net, o);
    SameMesh(t, net, ev, net', o);
    Refines(t, net, ev, net', o);
    NextInv(m, true, StateOf(net, o), StepFor(t, net, ev, o), StateOf(net', o));
    TraceNext(m, StateOf(net, o), StepFor(t, net, ev, o), StateOf(net', o));
  }

  // ----- Near nodes do their part

  /** A live gate in the table of `v` whose metric is at most `d` is a gate from which `v` is no farther. */
  lemma RivalIsClose(t: Topology, net: Net, gates: set<Mac>, g: Mac, v: Mac, t0: int, now: int, d: nat, a: Mac)
    requires NetInv(t, net) && gates <= net.nodes.Keys && g in net.nodes && v in net.nodes
    requires NodeKind(gates, net.nodes[v])
    requires forall o {:trigger FixedView(t, net, o)} | o in net.nodes :: FixedView(t, net, o)
    requires a in Rivals(Looked(net.nodes[v].paths, g, t0), now, g, d)
    ensures a in AsClose(t, net, gates, g, v, d) && a != v
  {
    var paths := net.nodes[v].paths;
    assert TableOk(net.nodes, v, net.clock);
    assert a in paths && paths[a].isGate && paths[a].metric <= d;
    assert FixedView(t, net, a);
    var m, s := MeshFor(t, net, a), StateOf(net, a);
    assert HasEntry(net.nodes, v, a) && s.table[v].metric == paths[a].metric;
    var w := KnownWalk(m, s, v);
    assert WalkTo(m, w, v, d);
  }

  /** A gate is no distance from itself. */
  lemma CloseToItself(t: Topology, net: Net, gates: set<Mac>, g: Mac, v: Mac, d: nat)
    requires gates <= net.nodes.Keys && v in gates && v != g
    ensures v in AsClose(t, net, gates, g, v, d)
  {
    var m, p := MeshFor(t, net, v), [v];
    assert WalkTo(m, p, v, d);
  }

  /** At a near node there is room for the announcement that arrives with the exact distance. */
  lemma RoomForNear(t: Topology, net: Net, gates: set<Mac>, g: Mac, v: Mac, t0: int, now: int, d: nat)
    requires NetInv(t, net) && gates <= net.nodes.Keys && g in net.nodes && v in net.nodes
    requires NodeKind(gates, net.nodes[v])
    requires forall o {:trigger FixedView(t, net, o)} | o in net.nodes :: FixedView(t, net, o)
    requires v != g && Nearest(t, net, gates, g, v) && Distance(MeshFor(t, net, g), v, d)
    ensures |Rivals(Looked(net.nodes[v].paths, g, t0), now, g, d)| < GateLimit(net.nodes[v].isGate)
  {
    var rivals, close := Rivals(Looked(net.nodes[v].paths, g, t0), now, g, d), AsClose(t, net, gates, g, v, d);
    forall a | a in rivals ensures a in close && a != v { RivalIsClose(t, net, gates, g, v, t0, now, d, a); }
    assert net.nodes[v].addr == v;
    if net.nodes[v].isGate {
      CloseToItself(t, net, gates, g, v, d);
      SubsetSize(rivals, close - {v});
    } else {
      SubsetSize(rivals, close);
    }
  }

  /** A stored announcement for everyone goes out on every link unless its TTL has run out. */
  lemma ForEveryone(t: Topology, net: Net, ev: Event, g: Mac)
    requires Shape(t, net) && g in net.nodes
    requires ev.Deliver? && ev.link in t.links && |net.chan[ev.link]| > 0 && ev.t0 < ev.t1
    requires net.chan[ev.link][0].orig == g && net.chan[ev.link][0].target == BROADCAST
    requires Stores(net.nodes[ev.link.dst], ev.stas, ev.t0, ev.t1, ev.link.src, net.chan[ev.link][0])
    ensures var l, p := ev.link, net.chan[ev.link][0];
            StepFor(t, net, ev, g)
            == Take(l, true,
                    if p.hopCount + 1 < U8(net.nodes[g].elementTtl) then From(MeshFor(t, net, g), l.dst) else {})
  {
    var l, n, p := ev.link, net.nodes[ev.link.dst], net.chan[ev.link][0];
    assert TableOk(net.nodes, l.dst, net.clock);
    assert PannOk(net.nodes, net.chan[l][0]);
    assert Relay(n, ev.t0, p.target) == Some(BROADCAST);
    var before, e := Looked(n.paths, p.orig, ev.t0), Learned(n, p, l.src, ev.stas[l.src], ev.t1);
    TopGates.ForwardingGuard(n, before, p, e, ev.t1);
    OutFrom(t, net, g, l.dst, BROADCAST);
  }

  lemma NotRefused(n: Node, stas: map<Mac, nat>, t0: int, t1: int, sa: Mac, p: Pann)
    requires p.orig != n.addr && sa in stas && p.target == BROADCAST
    requires !Stale(Looked(n.paths, p.orig, t0)[p.orig], t1, sa, p.sn, AddMetric(p.metric, stas[sa]))
    requires |Rivals(Looked(n.paths, p.orig, t0), t1, p.orig, AddMetric(p.metric, stas[sa]))| < GateLimit(n.isGate)
    ensures Stores(n, stas, t0, t1, sa, p)
  {
  }

  /** What the exact announcement of a near gate meets is not refused. */
  lemma NearStores(t: Topology, gates: set<Mac>, g: Mac, b: nat, net: Net, ev: Event)
    requires gates <= net.nodes.Keys && g in net.nodes && GateState(t, gates, g, b, net) && GateCalm(gates, ev)
    requires ev.Deliver? && ev.link in t.links && |net.chan[ev.link]| > 0 && net.clock <= ev.t0 && Benign(t, net, ev)
    requires net.chan[ev.link][0].orig == g && net.chan[ev.link][0].target == BROADCAST
    requires ev.link.dst != g && Nearest(t, net, gates, g, ev.link.dst)
    requires var m, l, n := MeshFor(t, net, g), ev.link, NoteOf(net.chan[ev.link][0]);
             var e := Arrival(m, l, n);
             Distance(m, l.dst, e.metric) && Acceptable(StateOf(net, g), l, n, e.metric)
    ensures Stores(net.nodes[ev.link.dst], ev.stas, ev.t0, ev.t1, ev.link.src, net.chan[ev.link][0])
  {
    var l, n, p := ev.link, net.nodes[ev.link.dst], net.chan[ev.link][0];
    var m := MeshFor(t, net, g);
    assert ViewOk(t, net, g);
    assert NodeKind(gates, n);
    MeshWellFormed(t, net, g);
    LearnedIsArrival(t, net, ev, g);
    StoredAcceptable(t, net, ev, g);
    RoomForNear(t, net, gates, g, l.dst, ev.t0, ev.t1, Arrival(m, l, NoteOf(p)).metric);
    NotRefused(n, ev.stas, ev.t0, ev.t1, l.src, p);
  }

  lemma NearTake(t: Topology, gates: set<Mac>, g: Mac, b: nat, net: Net, ev: Event)
    requires gates <= net.nodes.Keys && g in net.nodes && GateState(t, gates, g, b, net) && GateCalm(gates, ev)
    requires ev.Deliver? && ev.link in t.links && |net.chan[ev.link]| > 0 && net.clock <= ev.t0 && Benign(t, net, ev)
    requires net.chan[ev.link][0].orig == g
    ensures NearLossless(MeshFor(t, net, g), NearOf(t, net, gates, g), b, StateOf(net, g), StepFor(t, net, ev, g))
  {
    var l, p := ev.link, net.chan[ev.link][0];
    var m, s := MeshFor(t, net, g), StateOf(net, g);
    TakeHead(net.chan, l, g);
    var e := Arrival(m, l, NoteOf(p));
    if p.sn == b && l.dst in NearOf(t, net, gates, g) && Distance(m, l.dst, e.metric) &&
       Acceptable(s, l, NoteOf(p), e.metric) {
      assert AllKind(gates, g, b, net.chan[l]);
      NearStores(t, gates, g, b, net, ev);
      ForEveryone(t, net, ev, g);
    }
  }

  /** Every event of a calm run is a step at which near nodes do their part. */
  lemma NearStep(t: Topology, gates: set<Mac>, g: Mac, b: nat, net: Net, ev: Event, net': Net)
    requires gates <= net.nodes.Keys && g in net.nodes && GateState(t, gates, g, b, net) && GateCalm(gates, ev)
    requires MeshNetwork.Step(net, ev, net') && Benign(t, net, ev)
    ensures NearLossless(MeshFor(t, net, g), NearOf(t, net, gates, g), b, StateOf(net, g), StepFor(t, net, ev, g))
  {
    if ev.Deliver? {
      if net.chan[ev.link][0].orig == g { NearTake(t, gates, g, b, net, ev); } else { OtherStep(t, net, ev, g); }
    }
  }

  /** The number of the latest broadcast after an event. */
  function NextNumber(net: Net, ev: Event, net': Net, g: Mac, b: nat): nat
    requires g in net.nodes && g in net'.nodes
  {
    if Broadcasts(net, ev, g) then net'.nodes[g].sn else b
  }

  lemma SameNear(t: Topology, net: Net, net': Net, gates: set<Mac>, g: Mac)
    requires net'.nodes.Keys == net.nodes.Keys && gates <= net.nodes.Keys && g in net.nodes
    requires forall o | o in net.nodes :: MeshFor(t, net', o) == MeshFor(t, net, o)
    ensures NearOf(t, net', gates, g) == NearOf(t, net, gates, g)
  {
    forall v, d: nat ensures AsClose(t, net', gates, g, v, d) == AsClose(t, net, gates, g, v, d) {}
  }

  lemma ToldNext(t: Topology, gates: set<Mac>, g: Mac, b: nat, net: Net, ev: Event, net': Net)
    requires gates <= net.nodes.Keys && g in net.nodes && GateState(t, gates, g, b, net) && GateCalm(gates, ev)
    requires Uniform(t)
    requires MeshNetwork.Step(net, ev, net') && Benign(t, net, ev)
    requires U8(net.nodes[g].elementTtl) >= |net.nodes|
    ensures g in net'.nodes && net'.nodes.Keys == net.nodes.Keys
    ensures ToldInv(MeshFor(t, net', g), NearOf(t, net', gates, g), NextNumber(net, ev, net', g, b), StateOf(net', g))
  {
    var m, near, s := MeshFor(t, net, g), NearOf(t, net, gates, g), StateOf(net, g);
    assert FixedView(t, net, g) && ViewOk(t, net, g);
    MeshWellFormed(t, net, g);
    UniformIsFixed(t, net, g);
    NearStep(t, gates, g, b, net, ev, net');
    SameMesh(t, net, ev, net', g);
    Refines(t, net, ev, net', g);
    var step := StepFor(t, net, ev, g);
    if Broadcasts(net, ev, g) {
      TimerStep(t, net, ev, g);
      OutFrom(t, net, g, g, BROADCAST);
    }
    NearNext(m, near, b, s, step, StateOf(net', g), Broadcasts(net, ev, g));
    AllSame(t, net, ev, net');
    SameNear(t, net, net', gates, g);
  }

  lemma AllSame(t: Topology, net: Net, ev: Event, net': Net)
    requires Shape(t, net) && MeshNetwork.Step(net, ev, net')
    ensures net'.nodes.Keys == net.nodes.Keys && forall o | o in net.nodes :: MeshFor(t, net', o) == MeshFor(t, net, o)
  {
    forall o | o in net.nodes
      ensures o in net'.nodes && MeshFor(t, net', o) == MeshFor(t, net, o) { SameMesh(t, net, ev, net', o); }
    if ev.Deliver? {
      ReceiveShape(net.nodes[ev.link.dst], ev.stas, ev.t0, ev.t1, ev.link.src, net.chan[ev.link][0]);
    }
    assert net'.nodes.Keys == net.nodes.Keys;
  }

  lemma SnInFlight(t: Topology, gates: set<Mac>, g: Mac, b: nat, net: Net, l: Link, i: nat)
    requires gates <= net.nodes.Keys && g in net.nodes && GateState(t, gates, g, b, net)
    requires l in net.chan && i < |net.chan[l]| && net.chan[l][i].orig == g
    ensures net.chan[l][i].sn <= net.nodes[g].sn
  {
    assert FixedView(t, net, g);
    MeshWellFormed(t, net, g);
    var j := NoteIndex(net.chan[l], i, g);
    NoteSn(MeshFor(t, net, g), StateOf(net, g), l, j);
  }

  /** No announcement carries the number that comes next. */
  lemma Rebased(t: Topology, gates: set<Mac>, g: Mac, b: nat, net: Net)
    requires gates <= net.nodes.Keys && g in net.nodes && GateState(t, gates, g, b, net)
    ensures Kinds(gates, g, net.nodes[g].sn + 1, net)
  {
    var next := net.nodes[g].sn + 1;
    forall l | l in net.chan ensures AllKind(gates, g, next, net.chan[l]) {
      assert AllKind(gates, g, b, net.chan[l]);
      forall i | 0 <= i < |net.chan[l]| ensures PannKind(gates, g, next, net.chan[l][i]) {
        if net.chan[l][i].orig == g { SnInFlight(t, gates, g, b, net, l, i); }
      }
    }
    forall x | x in net.nodes ensures NodeKind(gates, net.nodes[x]) { assert NodeKind(gates, net.nodes[x]); }
  }

  lemma BroadcastNumber(net: Net, ev: Event, net': Net, g: Mac)
    requires g in net.nodes && net.nodes[g].addr == g && SnRoom(net, g) && MeshNetwork.Step(net, ev, net')
    requires Broadcasts(net, ev, g)
    ensures g in net'.nodes && net'.nodes[g].sn == net.nodes[g].sn + 1
  {
  }

  lemma KindsBroadcast(t: Topology, gates: set<Mac>, g: Mac, net: Net, ev: Event, net': Net)
    requires Shape(t, net) && g in net.nodes && Kinds(gates, g, net.nodes[g].sn + 1, net) && GateCalm(gates, ev)
    requires MeshNetwork.Step(net, ev, net') && Benign(t, net, ev) && Broadcasts(net, ev, g)
    ensures g in net'.nodes && Kinds(gates, g, net'.nodes[g].sn, net')
  {
    BroadcastNumber(net, ev, net', g);
    KindNext(t, gates, g, net.nodes[g].sn + 1, net, ev, net');
  }

  lemma KindsNext(t: Topology, gates: set<Mac>, g: Mac, b: nat, net: Net, ev: Event, net': Net)
    requires gates <= net.nodes.Keys && g in net.nodes && g in net'.nodes && GateState(t, gates, g, b, net)
    requires GateCalm(gates, ev)
    requires MeshNetwork.Step(net, ev, net') && Benign(t, net, ev)
    ensures Kinds(gates, g, NextNumber(net, ev, net', g, b), net')
  {
    if Broadcasts(net, ev, g) {
      Rebased(t, gates, g, b, net);
      KindsBroadcast(t, gates, g, net, ev, net');
    } else {
      KindNext(t, gates, g, b, net, ev, net');
    }
  }

  lemma GateNext(t: Topology, gates: set<Mac>, g: Mac, b: nat, net: Net, ev: Event, net': Net)
    requires gates <= net.nodes.Keys && g in net.nodes && GateState(t, gates, g, b, net) && GateCalm(gates, ev)
    requires Uniform(t)
    requires MeshNetwork.Step(net, ev, net') && Benign(t, net, ev) && U8(net.nodes[g].elementTtl) >= |net.nodes|
    ensures net'.nodes.Keys == net.nodes.Keys && GateState(t, gates, g, NextNumber(net, ev, net', g, b), net')
  {
    NetInvNext(t, net, ev, net');
    ToldNext(t, gates, g, b, net, ev, net');
    KindsNext(t, gates, g, b, net, ev, net');
    forall o | o in net'.nodes ensures FixedView(t, net', o) {
      assert FixedView(t, net, o);
      FixedNext(t, net, ev, net', o);
    }
  }

  // ----- The theorem

  predicate CalmEventAt(gates: set<Mac>, evs: seq<Event>, i: nat)
    requires i < |evs|
  {
    GateCalm(gates, evs[i])
  }

  /** A benign run without loss in which metrics never change and only nodes of `gates` are ever gates. */
  ghost predicate GateRun(t: Topology, gates: set<Mac>, g: Mac, nets: seq<Net>, evs: seq<Event>) {
    && BenignRun(t, nets, evs) && Uniform(t)
    && gates <= nets[0].nodes.Keys && g in nets[0].nodes
    && (forall x | x in nets[0].nodes && nets[0].nodes[x].isGate :: x in gates)
    && (forall i {:trigger CalmEventAt(gates, evs, i)} | 0 <= i < |evs| :: CalmEventAt(gates, evs, i))
    && U8(nets[0].nodes[g].elementTtl) >= |nets[0].nodes|
  }

  /** The number `g` gave its latest broadcast, 0 if there was none. */
  function LastBroadcast(nets: seq<Net>, evs: seq<Event>, g: Mac, i: nat): nat
    requires i < |nets| && i <= |evs|
  {
    if i == 0 then 0
    else if g in nets[i - 1].nodes && g in nets[i].nodes &&
       Broadcasts(nets[i - 1], evs[i - 1], g) then nets[i].nodes[g].sn
    else LastBroadcast(nets, evs, g, i - 1)
  }

  lemma GateInit(t: Topology, gates: set<Mac>, g: Mac, net: Net)
    requires NetInit(t, net) && NetInv(t, net) && gates <= net.nodes.Keys && g in net.nodes
    requires forall x | x in net.nodes && net.nodes[x].isGate :: x in gates
    ensures GateState(t, gates, g, 0, net)
  {
    forall o | o in net.nodes ensures FixedView(t, net, o) {
      InitView(t, net, o);
      InitInv(MeshFor(t, net, o), true, StateOf(net, o));
    }
    InitView(t, net, g);
    NearInit(MeshFor(t, net, g), NearOf(t, net, gates, g), StateOf(net, g));
  }

  lemma SameTtl(net: Net, ev: Event, net': Net, g: Mac)
    requires g in net.nodes && g in net'.nodes && MeshNetwork.Step(net, ev, net')
    ensures net'.nodes[g].elementTtl == net.nodes[g].elementTtl
  {
    if ev.Deliver? {
      ReceiveShape(net.nodes[ev.link.dst], ev.stas, ev.t0, ev.t1, ev.link.src, net.chan[ev.link][0]);
    }
  }

  lemma GateRunNext(t: Topology, gates: set<Mac>, g: Mac, first: Net, net: Net, ev: Event, net': Net, b: nat)
    requires gates <= net.nodes.Keys && g in net.nodes && GateState(t, gates, g, b, net) && GateCalm(gates, ev)
    requires Uniform(t)
    requires MeshNetwork.Step(net, ev, net') && Benign(t, net, ev)
    requires net.nodes.Keys == first.nodes.Keys && net.nodes[g].elementTtl == first.nodes[g].elementTtl
    requires U8(first.nodes[g].elementTtl) >= |first.nodes|
    ensures net'.nodes.Keys == first.nodes.Keys && net'.nodes[g].elementTtl == first.nodes[g].elementTtl
    ensures GateState(t, gates, g, NextNumber(net, ev, net', g, b), net')
  {
    assert |net.nodes| == |net.nodes.Keys| == |first.nodes.Keys| == |first.nodes|;
    GateNext(t, gates, g, b, net, ev, net');
    SameTtl(net, ev, net', g);
  }

  lemma GateStart(t: Topology, gates: set<Mac>, g: Mac, nets: seq<Net>, evs: seq<Event>)
    requires GateRun(t, gates, g, nets, evs)
    ensures GateState(t, gates, g, 0, nets[0])
  {
    NetInvInit(t, nets[0]);
    GateInit(t, gates, g, nets[0]);
  }

  lemma {:induction false} GateRunInv(t: Topology, gates: set<Mac>, g: Mac, nets: seq<Net>, evs: seq<Event>, i: nat)
    requires GateRun(t, gates, g, nets, evs) && i < |nets|
    ensures nets[i].nodes.Keys == nets[0].nodes.Keys && nets[i].nodes[g].elementTtl == nets[0].nodes[g].elementTtl
    ensures GateState(t, gates, g, LastBroadcast(nets, evs, g, i), nets[i])
  {
    if i == 0 {
      GateStart(t, gates, g, nets, evs);
    } else {
      var k := i - 1;
      GateRunInv(t, gates, g, nets, evs, k);
      assert Follows(nets, evs, k) && BenignAt(t, nets, evs, k) && CalmEventAt(gates, evs, k);
      GateRunNext(t, gates, g, nets[0], nets[k], evs[k], nets[i], LastBroadcast(nets, evs, g, k));
    }
  }

  /** With any number of gates: when the latest announcement of `g` was a broadcast and none of its
      announcements is in flight, every node `v` that has `g` among its nearest gates holds that
      announcement, with the exact distance `d`. */
  lemma NearestGatesConverge(t: Topology, gates: set<Mac>, g: Mac, nets: seq<Net>, evs: seq<Event>, i: nat, v: Mac,
          d: nat)
    requires GateRun(t, gates, g, nets, evs) && i < |nets| && Silent(nets[i], g)
    requires gates <= nets[i].nodes.Keys && g in nets[i].nodes && v in nets[i].nodes && v != g
    requires nets[i].nodes[g].sn == LastBroadcast(nets, evs, g, i) >= 1
    requires Nearest(t, nets[i], gates, g, v) && Distance(MeshFor(t, nets[i], g), v, d)
    ensures HasEntry(nets[i].nodes, v, g)
    ensures nets[i].nodes[v].paths[g].metric == d && nets[i].nodes[v].paths[g].sn == nets[i].nodes[g].sn
  {
    var net, b := nets[i], LastBroadcast(nets, evs, g, i);
    GateRunInv(t, gates, g, nets, evs, i);
    var m, s := MeshFor(t, net, g), StateOf(net, g);
    assert FixedView(t, net, g);
    MeshWellFormed(t, net, g);
    UniformIsFixed(t, net, g);
    NearClosed(t, net, gates, g);
    forall l | l in m.links ensures s.chan[l] == [] { NoNotes(net.chan[l], g); }
    QuietNear(m, NearOf(t, net, gates, g), b, s, v, d);
  }
}
