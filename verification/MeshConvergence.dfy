/**
 Convergence of the concrete mesh with a single announcing root, over every lossless run with
 fixed link metrics: once none of the root's announcements is in flight, every node the root
 can reach holds the latest sequence number and the shortest-path metric.
 */
module MeshConvergence {
  import opened MeshTypes
  import opened MeshNode
  import opened OriginProtocol
  import opened MeshNetwork
  import opened MeshRefinement
  import opened MeshTheorems
  import opened Convergence
  import TopGates

  /** Nothing is lost, every neighbour has a link metric, only `r` changes its gateway status. */
  ghost predicate Calm(r: Mac, net: Net, ev: Event) {
    match ev
    case Lose(_, _) => false
    case Status(x, _) => x == r
    case Deliver(l, stas, _, _) => l.src in stas
    case _ => true
  }

  // ----- Only the root announces

  /** The root broadcasts and asks for replies; the others only ever reply and are not gates. */
  predicate SoloPann(r: Mac, p: Pann) {
    if p.orig == r then p.target == BROADCAST && p.replyRequested else !p.replyRequested && !p.isGate
  }

  predicate SoloNode(r: Mac, n: Node) {
    && (n.addr != r ==> !n.isRoot && !n.isGate)
    && (forall a | a in n.paths && a != r :: !n.paths[a].isGate)
  }

  predicate AllSolo(r: Mac, q: seq<Pann>) { forall i | 0 <= i < |q| :: SoloPann(r, q[i]) }

  ghost predicate Solo(r: Mac, net: Net) {
    && (forall x {:trigger SoloNode(r, net.nodes[x])} | x in net.nodes :: SoloNode(r, net.nodes[x]))
    && (forall l {:trigger AllSolo(r, net.chan[l])} | l in net.chan :: AllSolo(r, net.chan[l]))
  }

  lemma SoloReceive(r: Mac, n: Node, stas: map<Mac, nat>, t0: int, t1: int, sa: Mac, p: Pann)
    requires SoloNode(r, n) && SoloPann(r, p)
    ensures var res := Receive(n, stas, t0, t1, sa, p);
            SoloNode(r, res.0) && forall f <- res.1 :: SoloPann(r, f.pann)
  {
    ReceiveShape(n, stas, t0, t1, sa, p);
  }

  lemma SoloSend(r: Mac, chan: map<Link, seq<Pann>>, x: Mac, frames: seq<Frame>, l: Link)
    requires l in chan && AllSolo(r, chan[l]) && forall f <- frames :: SoloPann(r, f.pann)
    ensures AllSolo(r, Send(chan, x, frames)[l])
  {
    var h := MeshNetwork.Heard(frames, l.dst);
    forall i | 0 <= i < |h| ensures SoloPann(r, h[i]) { HeardFrom(frames, l.dst, i); }
  }

  lemma SoloAct(r: Mac, net: Net, x: Mac, res: (Node, seq<Frame>), chan: map<Link, seq<Pann>>, clock: int)
    requires Solo(r, net) && x in net.nodes && SoloNode(r, res.0)
    requires forall l {:trigger AllSolo(r, chan[l])} | l in chan :: AllSolo(r, chan[l])
    requires forall f <- res.1 :: SoloPann(r, f.pann)
    ensures Solo(r, After(net, x, res, chan, clock))
  {
    var net' := After(net, x, res, chan, clock);
    forall l | l in net'.chan ensures AllSolo(r, net'.chan[l]) {
      assert AllSolo(r, chan[l]);
      SoloSend(r, chan, x, res.1, l);
    }
    forall y | y in net'.nodes ensures SoloNode(r, net'.nodes[y]) {
      assert y != x ==> SoloNode(r, net.nodes[y]);
    }
  }

  lemma SoloNext(t: Topology, r: Mac, net: Net, ev: Event, net': Net)
    requires Shape(t, net) && Solo(r, net) && MeshNetwork.Step(net, ev, net') && Calm(r, net, ev)
    ensures Solo(r, net')
  {
    match ev
    case RootTimer(x) =>
      assert SoloNode(r, net.nodes[x]);
      SoloAct(r, net, x, Announce(net.nodes[x]), net.chan, net.clock);
    case Status(x, gate) =>
      assert SoloNode(r, net.nodes[x]);
      SoloAct(r, net, x, SetStatus(net.nodes[x], gate), net.chan, net.clock);
    case WithdrawTimer(x) =>
      assert SoloNode(r, net.nodes[x]);
      forall y | y in net'.nodes ensures SoloNode(r, net'.nodes[y]) { assert SoloNode(r, net.nodes[y]); }
      assert forall l | l in net'.chan :: net'.chan[l] == net.chan[l];
    case Housekeeping(x, now) =>
      assert SoloNode(r, net.nodes[x]);
      forall y | y in net'.nodes ensures SoloNode(r, net'.nodes[y]) { assert SoloNode(r, net.nodes[y]); }
      assert forall l | l in net'.chan :: net'.chan[l] == net.chan[l];
    case Deliver(l, stas, t0, t1) =>
      var x, p := l.dst, net.chan[l][0];
      assert SoloNode(r, net.nodes[x]);
      assert AllSolo(r, net.chan[l]);
      SoloReceive(r, net.nodes[x], stas, t0, t1, l.src, p);
      var rest := net.chan[l := net.chan[l][1..]];
      forall k | k in rest ensures AllSolo(r, rest[k]) { assert AllSolo(r, net.chan[k]); }
      SoloAct(r, net, x, Receive(net.nodes[x], stas, t0, t1, l.src, p), rest, t1);
  }

  // ----- Each event of a calm run is a lossless step

  lemma NoRivals(r: Mac, n: Node, t0: int, t1: int, metric: nat)
    requires SoloNode(r, n) && TopGates.Keyed(n.paths)
    ensures Rivals(Looked(n.paths, r, t0), t1, r, metric) == {}
  {
  }

  /** The root's announcement is stored exactly when the protocol accepts it. */
  lemma StoresIffAcceptable(t: Topology, r: Mac, net: Net, ev: Event)
    requires NetInv(t, net) && Solo(r, net) && r in net.nodes
    requires ev.Deliver? && ev.link in t.links && |net.chan[ev.link]| > 0 && net.clock <= ev.t0 < ev.t1
    requires Benign(t, net, ev) && net.chan[ev.link][0].orig == r && ev.link.src in ev.stas
    requires var p := net.chan[ev.link][0]; ev.stas[ev.link.src] == t.cost(r, p.sn, ev.link)
    ensures var l, n, p := ev.link, net.nodes[ev.link.dst], net.chan[ev.link][0];
            Stores(n, ev.stas, ev.t0, ev.t1, l.src, p)
            <==> l.dst != r
                 && Acceptable(StateOf(net, r), l, NoteOf(p), Arrival(MeshFor(t, net, r), l, NoteOf(p)).metric)
  {
    var l, n, p := ev.link, net.nodes[ev.link.dst], net.chan[ev.link][0];
    assert ViewOk(t, net, r);
    assert SoloNode(r, n);
    assert AllSolo(r, net.chan[l]);
    assert TableOk(net.nodes, l.dst, net.clock);
    MeshWellFormed(t, net, r);
    LearnedIsArrival(t, net, ev, r);
    StoredAcceptable(t, net, ev, r);
    NoRivals(r, n, ev.t0, ev.t1, AddMetric(p.metric, ev.stas[l.src]));
  }

  /** A stored announcement of the root goes out on every link unless its TTL has run out. */
  lemma ForwardsEverywhere(t: Topology, r: Mac, net: Net, ev: Event)
    requires Shape(t, net) && Solo(r, net) && r in net.nodes
    requires ev.Deliver? && ev.link in t.links && |net.chan[ev.link]| > 0 && ev.t0 < ev.t1
    requires net.chan[ev.link][0].orig == r
    requires Stores(net.nodes[ev.link.dst], ev.stas, ev.t0, ev.t1, ev.link.src, net.chan[ev.link][0])
    ensures var l, p := ev.link, net.chan[ev.link][0];
            StepFor(t, net, ev, r).out
            == if p.hopCount + 1 < U8(net.nodes[r].elementTtl) then From(MeshFor(t, net, r), l.dst) else {}
  {
    var l, n, p := ev.link, net.nodes[ev.link.dst], net.chan[ev.link][0];
    assert AllSolo(r, net.chan[l]);
    assert TableOk(net.nodes, l.dst, net.clock);
    assert PannOk(net.nodes, net.chan[l][0]);
    assert Relay(n, ev.t0, p.target) == Some(BROADCAST);
    var before, e := Looked(n.paths, p.orig, ev.t0), Learned(n, p, l.src, ev.stas[l.src], ev.t1);
    TopGates.ForwardingGuard(n, before, p, e, ev.t1);
    OutFrom(t, net, r, l.dst, BROADCAST);
  }

  lemma CalmIsLossless(t: Topology, r: Mac, net: Net, ev: Event, net': Net)
    requires NetInv(t, net) && Solo(r, net) && r in net.nodes
    requires MeshNetwork.Step(net, ev, net') && Benign(t, net, ev) && Calm(r, net, ev)
    ensures Lossless(MeshFor(t, net, r), StateOf(net, r), StepFor(t, net, ev, r))
  {
    OutFrom(t, net, r, r, BROADCAST);
    if ev.Deliver? {
      var l, p := ev.link, net.chan[ev.link][0];
      assert AllSolo(r, net.chan[l]);
      if p.orig == r {
        TakeHead(net.chan, l, r);
        StoresIffAcceptable(t, r, net, ev);
        if Stores(net.nodes[l.dst], ev.stas, ev.t0, ev.t1, l.src, p) { ForwardsEverywhere(t, r, net, ev); }
      }
    }
  }

  // ----- The theorem

  ghost predicate CalmAt(r: Mac, nets: seq<Net>, evs: seq<Event>, i: nat)
    requires i < |nets| && i < |evs|
  {
    Calm(r, nets[i], evs[i])
  }

  /** A benign, calm run in which `r` is the only node that may be root or gate. */
  ghost predicate CalmRun(t: Topology, r: Mac, nets: seq<Net>, evs: seq<Event>) {
    && BenignRun(t, nets, evs)
    && r in nets[0].nodes && Solo(r, nets[0])
    && (forall i {:trigger CalmAt(r, nets, evs, i)} | 0 <= i < |evs| :: CalmAt(r, nets, evs, i))
    && (forall sn: nat, l: Link :: t.cost(r, sn, l) == t.cost(r, 0, l))
    && U8(nets[0].nodes[r].elementTtl) >= |nets[0].nodes|
  }

  /** What holds of every state of a calm run. */
  ghost predicate CalmState(t: Topology, r: Mac, net: Net, first: Net) {
    && NetInv(t, net) && r in net.nodes && r in first.nodes && Solo(r, net)
    && MeshFor(t, net, r) == MeshFor(t, first, r)
    && ConvergenceInv(MeshFor(t, net, r), StateOf(net, r))
  }

  lemma CalmInit(t: Topology, r: Mac, net: Net)
    requires NetInit(t, net) && NetInv(t, net) && r in net.nodes && Solo(r, net)
    ensures CalmState(t, r, net, net)
  {
    InitView(t, net, r);
    ConvergenceInit(MeshFor(t, net, r), StateOf(net, r));
  }

  lemma CalmNext(t: Topology, r: Mac, net: Net, ev: Event, net': Net, first: Net)
    requires CalmState(t, r, net, first) && NetInv(t, net')
    requires MeshNetwork.Step(net, ev, net') && Benign(t, net, ev) && Calm(r, net, ev)
    requires forall sn: nat, l: Link :: t.cost(r, sn, l) == t.cost(r, 0, l)
    requires U8(first.nodes[r].elementTtl) >= |first.nodes|
    ensures CalmState(t, r, net', first)
  {
    assert MeshFor(t, first, r).ttl >= |MeshFor(t, first, r).nodes|;
    CalmStep(t, r, net, ev, net');
  }

  /** What a calm run says of its event `i`. */
  lemma CalmEvent(t: Topology, r: Mac, nets: seq<Net>, evs: seq<Event>, i: nat)
    requires CalmRun(t, r, nets, evs) && i < |evs|
    ensures MeshNetwork.Step(nets[i], evs[i], nets[i + 1]) && Benign(t, nets[i], evs[i]) && Calm(r, nets[i], evs[i])
  {
    assert Follows(nets, evs, i) && BenignAt(t, nets, evs, i) && CalmAt(r, nets, evs, i);
  }

  lemma {:induction false} CalmRunInv(t: Topology, r: Mac, nets: seq<Net>, evs: seq<Event>, i: nat)
    requires CalmRun(t, r, nets, evs) && i < |nets|
    ensures CalmState(t, r, nets[i], nets[0])
  {
    RunInv(t, nets, evs, i);
    if i == 0 {
      CalmInit(t, r, nets[0]);
    } else {
      CalmRunInv(t, r, nets, evs, i - 1);
      CalmEvent(t, r, nets, evs, i - 1);
      CalmNext(t, r, nets[i - 1], evs[i - 1], nets[i], nets[0]);
    }
  }

  lemma CalmStep(t: Topology, r: Mac, net: Net, ev: Event, net': Net)
    requires NetInv(t, net) && r in net.nodes && Solo(r, net)
    requires ConvergenceInv(MeshFor(t, net, r), StateOf(net, r))
    requires MeshNetwork.Step(net, ev, net') && Benign(t, net, ev) && Calm(r, net, ev)
    requires forall sn: nat, l: Link :: t.cost(r, sn, l) == t.cost(r, 0, l)
    requires MeshFor(t, net, r).ttl >= |MeshFor(t, net, r).nodes|
    ensures r in net'.nodes && MeshFor(t, net', r) == MeshFor(t, net, r) && Solo(r, net')
    ensures ConvergenceInv(MeshFor(t, net', r), StateOf(net', r))
  {
    var m := MeshFor(t, net, r);
    MeshWellFormed(t, net, r);
    SameMesh(t, net, ev, net', r);
    SoloNext(t, r, net, ev, net');
    assert ViewOk(t, net, r);
    Refines(t, net, ev, net', r);
    CalmIsLossless(t, r, net, ev, net');
    assert FixedCosts(m);
    ConvergenceNext(m, StateOf(net, r), StepFor(t, net, ev, r), StateOf(net', r));
  }

  /** `x` has a path to the root exactly when the root reaches it, with the root's latest sequence number
      and the length of a shortest path. */
  ghost predicate Converged(t: Topology, net: Net, r: Mac, x: Mac)
    requires r in net.nodes && x in net.nodes && x != r
  {
    && (HasEntry(net.nodes, x, r) <==> Reachable(MeshFor(t, net, r), x))
    && (HasEntry(net.nodes, x, r) ==>
          var e := net.nodes[x].paths[r];
          e.sn == net.nodes[r].sn && Distance(MeshFor(t, net, r), x, e.metric))
  }

  /** Once the root has announced and its announcements have all arrived, each other node has a path
      to the root exactly when the root can reach it, the path carries the root's latest sequence
      number, and its metric is the length of a shortest path. */
  lemma ConvergesToShortestPaths(t: Topology, r: Mac, nets: seq<Net>, evs: seq<Event>, i: nat, x: Mac)
    requires CalmRun(t, r, nets, evs) && i < |nets| && Silent(nets[i], r)
    requires r in nets[i].nodes && nets[i].nodes[r].sn >= 1 && x in nets[i].nodes && x != r
    ensures Converged(t, nets[i], r, x)
  {
    CalmRunInv(t, r, nets, evs, i);
    var m, s := MeshFor(t, nets[i], r), StateOf(nets[i], r);
    MeshWellFormed(t, nets[i], r);
    forall l | l in m.links ensures s.chan[l] == [] { NoNotes(nets[i].chan[l], r); }
    QuietMeansShortestPaths(m, s, x);
    assert x in s.table <==> HasEntry(nets[i].nodes, x, r);
  }
}
