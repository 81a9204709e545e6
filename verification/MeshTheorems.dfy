/**
 What holds in every reachable state of the mesh, in terms of the nodes' own path tables.

 The runs considered are the benign ones: no entry is overwritten only because it has expired, no
 live knowledge is erased and no 64-bit counter wraps. Messages may be lost, and link metrics may
 change from one sequence number to the next. `LoopCondition` says what holds of all other runs.
 */
module MeshTheorems {
  import opened MeshTypes
  import opened MeshNode
  import opened OriginProtocol
  import opened MeshNetwork
  import opened MeshRefinement

  // ----- The concrete shape is kept

  predicate AllOk(nodes: map<Mac, Node>, q: seq<Pann>) {
    forall i | 0 <= i < |q| :: PannOk(nodes, q[i])
  }

  lemma SentOk(nodes: map<Mac, Node>, chan: map<Link, seq<Pann>>, x: Mac, frames: seq<Frame>, l: Link)
    requires l in chan && AllOk(nodes, chan[l])
    requires forall f <- frames :: PannOk(nodes, f.pann)
    ensures AllOk(nodes, Send(chan, x, frames)[l])
  {
    var h := Heard(frames, l.dst);
    forall i | 0 <= i < |h| ensures PannOk(nodes, h[i]) { HeardFrom(frames, l.dst, i); }
  }

  /** Hop count plus TTL is conserved by forwarding, and a reply starts it afresh. */
  lemma FramesOk(nodes: map<Mac, Node>, x: Mac, stas: map<Mac, nat>, t0: int, t1: int, sa: Mac, p: Pann)
    requires x in nodes && nodes[x].addr == x && PannOk(nodes, p)
    ensures forall f <- Receive(nodes[x], stas, t0, t1, sa, p).1 :: PannOk(nodes, f.pann)
  {
    ReceiveShape(nodes[x], stas, t0, t1, sa, p);
  }

  lemma ReceivedTable(nodes: map<Mac, Node>, x: Mac, clock: int, stas: map<Mac, nat>, t0: int, t1: int, sa: Mac,
          p: Pann)
    requires x in nodes && nodes[x].addr == x && TableOk(nodes, x, clock) && clock <= t0 < t1
    requires p.orig in nodes && sa != ZERO_MAC
    ensures TableOk(nodes[x := Receive(nodes[x], stas, t0, t1, sa, p).0], x, t1)
  {
    var n := nodes[x];
    ReceiveShape(n, stas, t0, t1, sa, p);
  }

  lemma ShapeKept(t: Topology, net: Net, net': Net, x: Mac)
    requires Shape(t, net) && x in net.nodes && net.clock <= net'.clock
    requires x in net'.nodes && net'.nodes == net.nodes[x := net'.nodes[x]]
    requires net'.nodes[x].addr == x && net'.nodes[x].elementTtl == net.nodes[x].elementTtl
    requires TableOk(net'.nodes, x, net'.clock)
    requires net'.chan.Keys == t.links && forall l <- t.links :: AllOk(net.nodes, net'.chan[l])
    ensures Shape(t, net')
  {
    forall y | y in net'.nodes ensures TableOk(net'.nodes, y, net'.clock) {
      assert TableOk(net.nodes, y, net.clock);
    }
    forall l, i | l in t.links && 0 <= i < |net'.chan[l]| ensures PannOk(net'.nodes, net'.chan[l][i]) {
      assert AllOk(net.nodes, net'.chan[l]);
      assert PannOk(net.nodes, net'.chan[l][i]);
    }
  }

  lemma ActShape(t: Topology, net: Net, x: Mac, r: (Node, seq<Frame>), chan: map<Link, seq<Pann>>, clock: int)
    requires Shape(t, net) && x in net.nodes && net.clock <= clock
    requires chan.Keys == t.links && forall l <- t.links :: AllOk(net.nodes, chan[l])
    requires r.0.addr == x && r.0.elementTtl == net.nodes[x].elementTtl
    requires TableOk(net.nodes[x := r.0], x, clock)
    requires forall f <- r.1 :: PannOk(net.nodes, f.pann)
    ensures Shape(t, After(net, x, r, chan, clock))
  {
    var net' := After(net, x, r, chan, clock);
    forall l | l in t.links ensures AllOk(net.nodes, net'.chan[l]) {
      SentOk(net.nodes, chan, x, r.1, l);
    }
    ShapeKept(t, net, net', x);
  }

  lemma ShapeNext(t: Topology, net: Net, ev: Event, net': Net)
    requires Shape(t, net) && MeshNetwork.Step(net, ev, net') && (ev.Deliver? ==> ev.t0 < ev.t1)
    ensures Shape(t, net')
  {
    assert forall l <- t.links :: AllOk(net.nodes, net.chan[l]);
    match ev
    case RootTimer(x) =>
      assert TableOk(net.nodes, x, net.clock);
      ActShape(t, net, x, Announce(net.nodes[x]), net.chan, net.clock);
    case Status(x, gate) =>
      assert TableOk(net.nodes, x, net.clock);
      ActShape(t, net, x, SetStatus(net.nodes[x], gate), net.chan, net.clock);
    case WithdrawTimer(x) =>
      assert TableOk(net.nodes, x, net.clock);
      ShapeKept(t, net, net', x);
    case Housekeeping(x, now) =>
      assert TableOk(net.nodes, x, net.clock);
      ShapeKept(t, net, net', x);
    case Deliver(l, stas, t0, t1) =>
      DeliverShape(t, net, ev, net');
    case Lose(l, i) =>
      LoseShape(t, net, l, i);
  }

  lemma LoseShape(t: Topology, net: Net, l: Link, i: nat)
    requires Shape(t, net) && l in net.chan && i < |net.chan[l]|
    ensures Shape(t, net.(chan := net.chan[l := Dropped(net.chan[l], i)]))
  {
    assert AllOk(net.nodes, net.chan[l]);
    assert AllOk(net.nodes, Dropped(net.chan[l], i));
  }

  lemma DeliverShape(t: Topology, net: Net, ev: Event, net': Net)
    requires Shape(t, net) && MeshNetwork.Step(net, ev, net') && ev.Deliver? && ev.t0 < ev.t1
    ensures Shape(t, net')
  {
    var Deliver(l, stas, t0, t1) := ev;
    var x, p := l.dst, net.chan[l][0];
    var rest := net.chan[l := net.chan[l][1..]];
    assert PannOk(net.nodes, net.chan[l][0]);
    assert TableOk(net.nodes, x, net.clock);
    forall k | k in t.links ensures AllOk(net.nodes, rest[k]) { assert AllOk(net.nodes, net.chan[k]); }
    FramesOk(net.nodes, x, stas, t0, t1, l.src, p);
    ReceivedTable(net.nodes, x, net.clock, stas, t0, t1, l.src, p);
    ReceiveShape(net.nodes[x], stas, t0, t1, l.src, p);
    ActShape(t, net, x, Receive(net.nodes[x], stas, t0, t1, l.src, p), rest, t1);
  }

  lemma SameMesh(t: Topology, net: Net, ev: Event, net': Net, o: Mac)
    requires Shape(t, net) && MeshNetwork.Step(net, ev, net') && o in net.nodes
    ensures o in net'.nodes && MeshFor(t, net', o) == MeshFor(t, net, o)
  {
    if ev.Deliver? {
      ReceiveShape(net.nodes[ev.link.dst], ev.stas, ev.t0, ev.t1, ev.link.src, net.chan[ev.link][0]);
    }
    assert net'.nodes.Keys == net.nodes.Keys;
    assert net'.nodes[o].elementTtl == net.nodes[o].elementTtl;
  }

  // ----- The invariant over runs

  lemma InitView(t: Topology, net: Net, o: Mac)
    requires NetInit(t, net) && o in net.nodes
    ensures Init(MeshFor(t, net, o), StateOf(net, o))
  {
    assert TableOf(net.nodes, o) == map[];
  }

  lemma InitViewOk(t: Topology, net: Net, o: Mac)
    requires NetInit(t, net) && o in net.nodes
    ensures ViewOk(t, net, o)
  {
    InitView(t, net, o);
    InitInv(MeshFor(t, net, o), false, StateOf(net, o));
  }

  lemma InitShape(t: Topology, net: Net)
    requires NetInit(t, net)
    ensures Shape(t, net)
  {
  }

  lemma NetInvInit(t: Topology, net: Net)
    requires NetInit(t, net)
    ensures NetInv(t, net)
  {
    InitShape(t, net);
    forall o | o in net.nodes ensures ViewOk(t, net, o) { InitViewOk(t, net, o); }
  }

  /** Every event keeps the invariant for every originator. */
  lemma NetInvNext(t: Topology, net: Net, ev: Event, net': Net)
    requires NetInv(t, net) && MeshNetwork.Step(net, ev, net') && Benign(t, net, ev)
    ensures NetInv(t, net')
  {
    ShapeNext(t, net, ev, net');
    forall o | o in net'.nodes ensures ViewOk(t, net', o) {
      assert ViewOk(t, net, o);
      SameMesh(t, net, ev, net', o);
      MeshWellFormed(t, net, o);
      Refines(t, net, ev, net', o);
      NextInv(MeshFor(t, net, o), false, StateOf(net, o), StepFor(t, net, ev, o), StateOf(net', o));
    }
  }

  /** A run from an empty mesh. */
  ghost predicate Run(t: Topology, nets: seq<Net>, evs: seq<Event>) { Stretch(nets, evs) && NetInit(t, nets[0]) }

  ghost predicate BenignAt(t: Topology, nets: seq<Net>, evs: seq<Event>, i: nat)
    requires i < |nets| && i < |evs|
  {
    Benign(t, nets[i], evs[i])
  }

  ghost predicate BenignRun(t: Topology, nets: seq<Net>, evs: seq<Event>) {
    Run(t, nets, evs) && forall i {:trigger BenignAt(t, nets, evs, i)} | 0 <= i < |evs| :: BenignAt(t, nets, evs, i)
  }

  lemma {:induction false} RunInv(t: Topology, nets: seq<Net>, evs: seq<Event>, i: nat)
    requires BenignRun(t, nets, evs) && i < |nets|
    ensures NetInv(t, nets[i])
  {
    if i == 0 {
      NetInvInit(t, nets[0]);
    } else {
      RunInv(t, nets, evs, i - 1);
      assert Follows(nets, evs, i - 1) && BenignAt(t, nets, evs, i - 1);
      NetInvNext(t, nets[i - 1], evs[i - 1], nets[i]);
    }
  }

  // ----- Loop freedom

  /** Following the next hops towards `o`, each taken from the node's own filled entry. */
  predicate NextHops(net: Net, o: Mac, p: seq<Mac>) {
    |p| >= 1 && forall i | 0 <= i < |p| - 1 ::
        HasEntry(net.nodes, p[i], o) && net.nodes[p[i]].paths[o].nextHop == p[i + 1]
  }

  /** In every reachable state, for every originator, no chain of next hops returns to a node it has
      visited. */
  lemma LoopFreedom(t: Topology, nets: seq<Net>, evs: seq<Event>, i: nat, o: Mac, p: seq<Mac>)
    requires BenignRun(t, nets, evs) && i < |nets| && o in nets[i].nodes
    requires NextHops(nets[i], o, p) && |p| >= 2
    ensures p[0] != p[|p| - 1]
  {
    RunInv(t, nets, evs, i);
    NoLoopIn(t, nets[i], o, p);
  }

  lemma NoLoopIn(t: Topology, net: Net, o: Mac, p: seq<Mac>)
    requires NetInv(t, net) && o in net.nodes && NextHops(net, o, p) && |p| >= 2
    ensures p[0] != p[|p| - 1]
  {
    assert ViewOk(t, net, o);
    MeshWellFormed(t, net, o);
    assert Forwarding(StateOf(net, o), p);
    NoForwardingLoop(MeshFor(t, net, o), false, StateOf(net, o), p);
  }

  /** Along a next hop the sequence number goes up, or stays and the metric goes strictly down. */
  lemma NextHopImproves(t: Topology, nets: seq<Net>, evs: seq<Event>, i: nat, o: Mac, x: Mac)
    requires BenignRun(t, nets, evs) && i < |nets| && o in nets[i].nodes && HasEntry(nets[i].nodes, x, o)
    ensures NextHopBetterAt(nets[i].nodes, o, x)
  {
    RunInv(t, nets, evs, i);
    NextHopBetterInNet(t, nets[i], o, x);
  }

  /** The next hop of `x` towards `o` is `o` itself or holds a strictly better entry than `x`. */
  predicate NextHopBetterAt(nodes: map<Mac, Node>, o: Mac, x: Mac)
    requires o in nodes && HasEntry(nodes, x, o)
  {
    var e := nodes[x].paths[o];
    if e.nextHop == o then nodes[o].sn >= e.sn && 0 < e.metric
    else HasEntry(nodes, e.nextHop, o)
         && var f := nodes[e.nextHop].paths[o];
         f.sn > e.sn || (f.sn == e.sn && f.metric < e.metric)
  }

  lemma NextHopBetterInNet(t: Topology, net: Net, o: Mac, x: Mac)
    requires NetInv(t, net) && o in net.nodes && HasEntry(net.nodes, x, o)
    ensures NextHopBetterAt(net.nodes, o, x)
  {
    assert ViewOk(t, net, o);
    var m, s := MeshFor(t, net, o), StateOf(net, o);
    MeshWellFormed(t, net, o);
    assert s.table[x] == EntryOf(net.nodes[x].paths[o]);
    NextHopBetter(m, false, s, x);
    assert EntryOk(m, false, s, x);
    assert m.cost(s.table[x].sn, Link(s.table[x].nextHop, x)) >= 1;
  }

  /** Every filled entry leads to the originator, in fewer hops than there are nodes. */
  lemma NextHopsReachOrigin(t: Topology, nets: seq<Net>, evs: seq<Event>, i: nat, o: Mac, x: Mac) returns (p: seq<Mac>)
    requires BenignRun(t, nets, evs) && i < |nets| && o in nets[i].nodes && HasEntry(nets[i].nodes, x, o)
    ensures NextHops(nets[i], o, p) && p[0] == x && p[|p| - 1] == o && |p| <= |nets[i].nodes|
  {
    RunInv(t, nets, evs, i);
    assert ViewOk(t, nets[i], o);
    MeshWellFormed(t, nets[i], o);
    p := ForwardingReachesOrigin(MeshFor(t, nets[i], o), false, StateOf(nets[i], o), x);
    assert |nets[i].nodes.Keys| == |nets[i].nodes|;
  }

  // ----- Metric and hop-count bounds

  /** A stored metric is at most the largest link metric times its hop count, which fits 8 bits. */
  lemma StoredMetricBound(t: Topology, nets: seq<Net>, evs: seq<Event>, i: nat, o: Mac, x: Mac)
    requires BenignRun(t, nets, evs) && i < |nets| && o in nets[i].nodes && HasEntry(nets[i].nodes, x, o)
    ensures var e := nets[i].nodes[x].paths[o];
            1 <= e.hopCount <= 255 && e.metric <= t.maxCost * e.hopCount
  {
    RunInv(t, nets, evs, i);
    assert ViewOk(t, nets[i], o);
    assert EntryOk(MeshFor(t, nets[i], o), false, StateOf(nets[i], o), x);
    HopsIsProduct(t.maxCost, nets[i].nodes[x].paths[o].hopCount);
  }

  /** For every announcement in flight: hop count plus TTL is what its originator started with, its
      receiver's hop count does not wrap and its receiver's metric does not saturate. */
  lemma InFlightBound(t: Topology, nets: seq<Net>, evs: seq<Event>, i: nat, l: Link, k: nat)
    requires BenignRun(t, nets, evs) && i < |nets| && l in t.links && l in nets[i].chan && k < |nets[i].chan[l]|
    ensures PannBounded(t, nets[i].nodes, l, nets[i].chan[l][k])
  {
    RunInv(t, nets, evs, i);
    PannBoundedInNet(t, nets[i], l, k);
  }

  predicate PannBounded(t: Topology, nodes: map<Mac, Node>, l: Link, p: Pann) {
    && p.orig in nodes
    && p.hopCount + p.ttl == U8(nodes[p.orig].elementTtl)
    && U8(p.hopCount + 1) == p.hopCount + 1
    && AddMetric(p.metric, t.cost(p.orig, p.sn, l)) == p.metric + t.cost(p.orig, p.sn, l)
  }

  lemma PannBoundedInNet(t: Topology, net: Net, l: Link, k: nat)
    requires NetInv(t, net) && l in t.links && k < |net.chan[l]|
    ensures PannBounded(t, net.nodes, l, net.chan[l][k])
  {
    var q := net.chan[l];
    var p := q[k];
    assert PannOk(net.nodes, q[k]);
    assert ViewOk(t, net, p.orig);
    var m, s := MeshFor(t, net, p.orig), StateOf(net, p.orig);
    var j := NoteIndex(q, k, p.orig);
    MeshWellFormed(t, net, p.orig);
    assert m.cost(p.sn, l) == t.cost(p.orig, p.sn, l);
    NoOverflow(m, s, l, j, p, m.cost(p.sn, l));
  }

  lemma NoteIndex(q: seq<Pann>, k: nat, o: Mac) returns (j: nat)
    requires k < |q| && q[k].orig == o
    ensures j < |Notes(q, o)| && Notes(q, o)[j] == NoteOf(q[k])
  {
    var rest := q[k..];
    NotesAppend(q[..k], rest, o);
    assert q == q[..k] + rest;
    assert rest[0] == q[k];
    j := |Notes(q[..k], o)|;
  }
}
