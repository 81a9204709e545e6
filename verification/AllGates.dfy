/**
 All gates together. When a broadcast of a gate has gone through undisturbed, the nodes near it hold
 its exact distance from then on, whatever is announced or answered later. So it is enough that
 this has happened once for each gate, as when gates announce in turn. It cannot happen to two
 gates near each other at the same moment, since each answers the other's broadcast with a newer
 number of its own.
 */
module AllGates {
  import opened MeshTypes
  import opened OriginProtocol
  import opened Convergence
  import opened NearConvergence
  import opened MeshNetwork
  import opened MeshRefinement
  import opened MeshTheorems
  import opened GateConvergence

  // ----- For good

  lemma ImprovesStep(t: Topology, gates: set<Mac>, g: Mac, b: nat, net: Net, ev: Event, net': Net)
    requires gates <= net.nodes.Keys && g in net.nodes && GateState(t, gates, g, b, net) && Uniform(t)
    requires MeshNetwork.Step(net, ev, net') && Benign(t, net, ev)
    ensures g in net'.nodes && MeshFor(t, net', g) == MeshFor(t, net, g)
    ensures Improves(MeshFor(t, net, g), true, StateOf(net, g), StateOf(net', g))
  {
    assert ViewOk(t, net, g) && FixedView(t, net, g);
    MeshWellFormed(t, net, g);
    UniformIsFixed(t, net, g);
    SameMesh(t, net, ev, net', g);
    Refines(t, net, ev, net', g);
    NextInv(MeshFor(t, net, g), true, StateOf(net, g), StepFor(t, net, ev, g), StateOf(net', g));
  }

  lemma ImprovesOn(m: Mesh, a: State, b: State, c: State)
    requires Improves(m, true, a, b) && Improves(m, true, b, c)
    ensures Improves(m, true, a, c)
  {
    forall x | Knows(m, a, x) ensures Knows(m, c, x) && AtLeast(true, RankAt(m, c, x), RankAt(m, a, x)) {
      assert Knows(m, b, x);
    }
  }

  lemma ImprovesAt(t: Topology, gates: set<Mac>, g: Mac, nets: seq<Net>, evs: seq<Event>, k: nat)
    requires GateRun(t, gates, g, nets, evs) && k < |evs|
    ensures g in nets[k].nodes && g in nets[k + 1].nodes && MeshFor(t, nets[k + 1], g) == MeshFor(t, nets[k], g)
    ensures Improves(MeshFor(t, nets[k], g), true, StateOf(nets[k], g), StateOf(nets[k + 1], g))
  {
    GateRunInv(t, gates, g, nets, evs, k);
    assert Follows(nets, evs, k) && BenignAt(t, nets, evs, k);
    ImprovesStep(t, gates, g, LastBroadcast(nets, evs, g, k), nets[k], evs[k], nets[k + 1]);
  }

  lemma SameAt(t: Topology, gates: set<Mac>, g: Mac, nets: seq<Net>, evs: seq<Event>, k: nat)
    requires GateRun(t, gates, g, nets, evs) && k < |evs|
    ensures nets[k + 1].nodes.Keys == nets[k].nodes.Keys
    ensures forall o | o in nets[k].nodes :: MeshFor(t, nets[k + 1], o) == MeshFor(t, nets[k], o)
  {
    GateRunInv(t, gates, g, nets, evs, k);
    assert Follows(nets, evs, k);
    AllSame(t, nets[k], evs[k], nets[k + 1]);
  }

  /** What is known of `g` only gets better: numbers do not fall and metrics do not rise. */
  lemma {:induction false} RunImproves(t: Topology, gates: set<Mac>, g: Mac, nets: seq<Net>, evs: seq<Event>, j: nat,
          i: nat)
    requires GateRun(t, gates, g, nets, evs) && j <= i < |nets| && g in nets[j].nodes
    ensures g in nets[i].nodes && MeshFor(t, nets[i], g) == MeshFor(t, nets[j], g)
    ensures Improves(MeshFor(t, nets[j], g), true, StateOf(nets[j], g), StateOf(nets[i], g))
    decreases i
  {
    if j < i {
      RunImproves(t, gates, g, nets, evs, j, i - 1);
      ImprovesAt(t, gates, g, nets, evs, i - 1);
      ImprovesOn(MeshFor(t, nets[j], g), StateOf(nets[j], g), StateOf(nets[i - 1], g), StateOf(nets[i], g));
    }
  }

  lemma {:induction false} SameMeshes(t: Topology, gates: set<Mac>, g: Mac, nets: seq<Net>, evs: seq<Event>, j: nat,
          i: nat)
    requires GateRun(t, gates, g, nets, evs) && j <= i < |nets|
    ensures nets[i].nodes.Keys == nets[j].nodes.Keys
    ensures forall o | o in nets[j].nodes :: MeshFor(t, nets[i], o) == MeshFor(t, nets[j], o)
    decreases i
  {
    if j < i {
      SameMeshes(t, gates, g, nets, evs, j, i - 1);
      SameAt(t, gates, g, nets, evs, i - 1);
    }
  }

  /** At `j` nothing of `g` is in flight, and its latest announcement was a broadcast. */
  ghost predicate Broadcasted(nets: seq<Net>, evs: seq<Event>, g: Mac, j: nat) {
    && j < |nets| == |evs| + 1 && g in nets[j].nodes
    && Silent(nets[j], g) && nets[j].nodes[g].sn == LastBroadcast(nets, evs, g, j) >= 1
  }

  /** Once a broadcast of `g` has gone through, at `j`, every node that has `g` among its nearest gates holds
      the exact distance for good, whatever `g` and the other gates announce and answer afterwards. */
  lemma HeldForGood(t: Topology, gates: set<Mac>, g: Mac, nets: seq<Net>, evs: seq<Event>, j: nat, i: nat, v: Mac,
          d: nat)
    requires GateRun(t, gates, g, nets, evs) && Broadcasted(nets, evs, g, j) && j <= i < |nets|
    requires gates <= nets[i].nodes.Keys && g in nets[i].nodes && v in nets[i].nodes && v != g
    requires Nearest(t, nets[i], gates, g, v) && Distance(MeshFor(t, nets[i], g), v, d)
    ensures HasEntry(nets[i].nodes, v, g) && nets[i].nodes[v].paths[g].metric == d
    ensures nets[j].nodes[g].sn <= nets[i].nodes[v].paths[g].sn <= nets[i].nodes[g].sn
  {
    var m, s, s' := MeshFor(t, nets[j], g), StateOf(nets[j], g), StateOf(nets[i], g);
    RunImproves(t, gates, g, nets, evs, j, i);
    GateRunInv(t, gates, g, nets, evs, j);
    GateRunInv(t, gates, g, nets, evs, i);
    SameMeshes(t, gates, g, nets, evs, j, i);
    SameNear(t, nets[j], nets[i], gates, g);
    assert v in NearOf(t, nets[i], gates, g);
    NearestGatesConverge(t, gates, g, nets, evs, j, v, d);
    assert Knows(m, s, v);
    assert FixedView(t, nets[i], g);
    MeshWellFormed(t, nets[i], g);
    EntryBound(m, s', v, d);
    SnBound(m, s', v);
  }

  // ----- All gates at once

  /** `v` has `g` among its nearest gates, at distance `d`. */
  ghost predicate NearAt(t: Topology, net: Net, gates: set<Mac>, g: Mac, v: Mac, d: nat) {
    && gates <= net.nodes.Keys && g in net.nodes && v in net.nodes && v != g
    && Nearest(t, net, gates, g, v) && Distance(MeshFor(t, net, g), v, d)
  }

  predicate HoldsExactly(net: Net, g: Mac, v: Mac, d: nat) {
    HasEntry(net.nodes, v, g) && net.nodes[v].paths[g].metric == d
  }

  /** With any number of gates: once a broadcast of each has gone through, each at its own time `since[g]`, every
      node holds all its nearest gates at their exact distances. */
  lemma AllNearestGates(t: Topology, gates: set<Mac>, nets: seq<Net>, evs: seq<Event>, since: map<Mac, nat>, i: nat)
    requires i < |nets| && forall g | g in gates ::
               g in since && since[g] <= i && GateRun(t, gates, g, nets, evs) && Broadcasted(nets, evs, g, since[g])
    ensures forall g, v, d: nat | g in gates && NearAt(t, nets[i], gates, g, v, d) :: HoldsExactly(nets[i], g, v, d)
  {
    forall g, v, d: nat | g in gates && NearAt(t, nets[i], gates, g, v, d) ensures HoldsExactly(nets[i], g, v, d) {
      HeldForGood(t, gates, g, nets, evs, since[g], i, v, d);
    }
  }

  // ----- Why each gate has a time of its own

  /** `v` holds the latest announcement of `g`, which is numbered `b`. */
  predicate HoldsLatest(net: Net, g: Mac, b: nat, v: Mac) {
    HasEntry(net.nodes, v, g) && g in net.nodes && net.nodes[v].paths[g].sn == b == net.nodes[g].sn && b >= 1
  }

  predicate LatestAt(s: State, v: Mac) { v in s.table && s.table[v].sn == s.sn }

  /** Only by taking it does a node come to hold the latest announcement, if that was a broadcast. */
  lemma TakesLatest(m: Mesh, s: State, step: OriginProtocol.Step, s': State, b: nat, broadcast: bool, v: Mac)
    requires WellFormed(m) && Inv(m, true, s) && Next(m, s, step, s') && b <= s.sn && (broadcast ==> step.Emit?)
    requires !(LatestAt(s, v) && s.sn == b >= 1) && LatestAt(s', v) && s'.sn == Latest(s', b, broadcast) >= 1
    ensures step.Take? && step.accept && step.link.dst == v && s.chan[step.link][0].sn == b
  {
    if v in s.table { SnBound(m, s, v); }
  }

  lemma Projected(t: Topology, gates: set<Mac>, g: Mac, b: nat, net: Net, ev: Event, net': Net)
    requires gates <= net.nodes.Keys && g in net.nodes && GateState(t, gates, g, b, net)
    requires MeshNetwork.Step(net, ev, net') && Benign(t, net, ev)
    ensures var m, s := MeshFor(t, net, g), StateOf(net, g);
            WellFormed(m) && Inv(m, true, s) && b <= s.sn && g in net'.nodes &&
               Next(m, s, StepFor(t, net, ev, g), StateOf(net', g))
    ensures Broadcasts(net, ev, g) ==> StepFor(t, net, ev, g).Emit?
  {
    assert FixedView(t, net, g) && ViewOk(t, net, g);
    MeshWellFormed(t, net, g);
    Refines(t, net, ev, net', g);
    if Broadcasts(net, ev, g) { TimerStep(t, net, ev, g); }
  }

  lemma HoldsIff(net: Net, g: Mac, b: nat, v: Mac)
    requires g in net.nodes
    ensures HoldsLatest(net, g, b, v) <==> LatestAt(StateOf(net, g), v) && net.nodes[g].sn == b >= 1
  {
  }

  /** Who comes to hold the latest broadcast of `g` takes it now. */
  lemma HoldingTakes(t: Topology, gates: set<Mac>, g: Mac, b: nat, net: Net, ev: Event, net': Net, v: Mac)
    requires gates <= net.nodes.Keys && g in net.nodes && GateState(t, gates, g, b, net)
    requires MeshNetwork.Step(net, ev, net') && Benign(t, net, ev) && g in net'.nodes
    requires !HoldsLatest(net, g, b, v) && HoldsLatest(net', g, NextNumber(net, ev, net', g, b), v)
    ensures var step := StepFor(t, net, ev, g);
            step.Take? && step.accept && step.link.dst == v && step.link in net.chan
            && StateOf(net, g).chan[step.link] != [] && StateOf(net, g).chan[step.link][0].sn == b
  {
    Projected(t, gates, g, b, net, ev, net');
    HoldsIff(net, g, b, v);
    HoldsIff(net', g, NextNumber(net, ev, net', g, b), v);
    TakesLatest(MeshFor(t, net, g), StateOf(net, g), StepFor(t, net, ev, g), StateOf(net', g), b,
                Broadcasts(net, ev, g), v);
  }

  lemma Answers(net: Net, ev: Event, net': Net)
    requires MeshNetwork.Step(net, ev, net') && ev.Deliver? && SnRoom(net, ev.link.dst)
    requires var p := net.chan[ev.link][0];
             p.replyRequested && Stores(net.nodes[ev.link.dst], ev.stas, ev.t0, ev.t1, ev.link.src, p)
    ensures net'.nodes[ev.link.dst].sn == net.nodes[ev.link.dst].sn + 1
  {
    ReceiveShape(net.nodes[ev.link.dst], ev.stas, ev.t0, ev.t1, ev.link.src, net.chan[ev.link][0]);
  }

  /** And so it has just answered it. */
  lemma HoldingAnswers(t: Topology, gates: set<Mac>, g: Mac, b: nat, net: Net, ev: Event, net': Net, v: Mac)
    requires gates <= net.nodes.Keys && g in net.nodes && v in net.nodes && GateState(t, gates, g, b, net)
    requires MeshNetwork.Step(net, ev, net') && Benign(t, net, ev) && g in net'.nodes && v in net'.nodes
    requires !HoldsLatest(net, g, b, v) && HoldsLatest(net', g, NextNumber(net, ev, net', g, b), v)
    ensures ev.Deliver? && net'.nodes[v].sn == net.nodes[v].sn + 1
  {
    HoldingTakes(t, gates, g, b, net, ev, net', v);
    var l, p := ev.link, net.chan[ev.link][0];
    TakeHead(net.chan, l, g);
    assert AllKind(gates, g, b, net.chan[l]);
    Answers(net, ev, net');
  }

  lemma NotBothStep(t: Topology, gates: set<Mac>, g: Mac, b: nat, h: Mac, c: nat, net: Net, ev: Event, net': Net)
    requires gates <= net.nodes.Keys && g in net.nodes && h in net.nodes && g in net'.nodes && h in net'.nodes
    requires GateState(t, gates, g, b, net) && GateState(t, gates, h, c, net)
    requires MeshNetwork.Step(net, ev, net') && Benign(t, net, ev)
    requires !HoldsLatest(net, g, b, h)
    ensures !(HoldsLatest(net', g, NextNumber(net, ev, net', g, b), h) &&
            HoldsLatest(net', h, NextNumber(net, ev, net', h, c), g))
  {
    if HoldsLatest(net', g, NextNumber(net, ev, net', g, b), h) { HoldingAnswers(t, gates, g, b, net, ev, net', h); }
  }

  lemma NotBothNext(t: Topology, gates: set<Mac>, g: Mac, h: Mac, nets: seq<Net>, evs: seq<Event>, i: nat)
    requires GateRun(t, gates, g, nets, evs) && GateRun(t, gates, h, nets, evs) && i < |evs|
    requires !HoldsLatest(nets[i], g, LastBroadcast(nets, evs, g, i), h)
    ensures !(HoldsLatest(nets[i + 1], g, LastBroadcast(nets, evs, g, i + 1), h)
              && HoldsLatest(nets[i + 1], h, LastBroadcast(nets, evs, h, i + 1), g))
  {
    GateRunInv(t, gates, g, nets, evs, i);
    GateRunInv(t, gates, h, nets, evs, i);
    assert Follows(nets, evs, i) && BenignAt(t, nets, evs, i);
    var b, c := LastBroadcast(nets, evs, g, i), LastBroadcast(nets, evs, h, i);
    if g in nets[i + 1].nodes && h in nets[i + 1].nodes {
      NotBothStep(t, gates, g, b, h, c, nets[i], evs[i], nets[i + 1]);
    }
  }

  /** Two gates never hold each other's latest broadcast: the one that takes the other's has answered it
      since its own. */
  lemma {:induction false} NotBoth(t: Topology, gates: set<Mac>, g: Mac, h: Mac, nets: seq<Net>, evs: seq<Event>,
          i: nat)
    requires GateRun(t, gates, g, nets, evs) && GateRun(t, gates, h, nets, evs) && i < |nets|
    ensures !(HoldsLatest(nets[i], g, LastBroadcast(nets, evs, g, i), h)
              && HoldsLatest(nets[i], h, LastBroadcast(nets, evs, h, i), g))
  {
    if i > 0 {
      NotBoth(t, gates, g, h, nets, evs, i - 1);
      if HoldsLatest(nets[i - 1], g, LastBroadcast(nets, evs, g, i - 1), h) {
        NotBothNext(t, gates, h, g, nets, evs, i - 1);
      } else {
        NotBothNext(t, gates, g, h, nets, evs, i - 1);
      }
    }
  }

  /** So at one moment the broadcasts of two gates near each other have not both gone through. */
  lemma NotBothAtOnce(t: Topology, gates: set<Mac>, g: Mac, h: Mac, nets: seq<Net>, evs: seq<Event>, i: nat, d: nat,
          e: nat)
    requires GateRun(t, gates, g, nets, evs) && GateRun(t, gates, h, nets, evs) && i < |nets|
    requires NearAt(t, nets[i], gates, g, h, d) && NearAt(t, nets[i], gates, h, g, e)
    ensures !(Broadcasted(nets, evs, g, i) && Broadcasted(nets, evs, h, i))
  {
    if Broadcasted(nets, evs, g, i) && Broadcasted(nets, evs, h, i) {
      NearestGatesConverge(t, gates, g, nets, evs, i, h, d);
      NearestGatesConverge(t, gates, h, nets, evs, i, g, e);
      NotBoth(t, gates, g, h, nets, evs, i);
    }
  }
}
