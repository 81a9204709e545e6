/**
 Exactly when a loop of next hops appears. Whatever has happened before, by expiry, loss, changing
 metrics or erased entries: a reception closes a loop if and only if it is stored and the
 sender's own chain of next hops passes through the receiver.
 */
module LoopCondition {
  import opened MeshTypes
  import opened MeshNode
  import opened OriginProtocol
  import opened MeshNetwork
  import opened MeshRefinement
  import opened MeshTheorems

  // ----- Chains in a map of next hops

  predicate Chain(h: map<Mac, Mac>, p: seq<Mac>) {
    |p| >= 1 && forall i | 0 <= i < |p| - 1 :: p[i] in h && h[p[i]] == p[i + 1]
  }

  predicate Cycle(h: map<Mac, Mac>, p: seq<Mac>) { Chain(h, p) && |p| >= 2 && p[0] == p[|p| - 1] }

  ghost predicate Cyclic(h: map<Mac, Mac>) { exists p :: Cycle(h, p) }

  predicate From(h: map<Mac, Mac>, q: seq<Mac>, x: Mac, y: Mac) { Chain(h, q) && q[0] == x && q[|q| - 1] == y }

  ghost predicate Leads(h: map<Mac, Mac>, x: Mac, y: Mac) { exists q :: From(h, q, x, y) }

  /** A chain that leaves `x` alone until its end is not affected by a change at `x`. */
  lemma ChainAround(h: map<Mac, Mac>, x: Mac, y: Mac, q: seq<Mac>)
    requires forall i | 0 <= i < |q| - 1 :: q[i] != x
    ensures Chain(h, q) <==> Chain(h[x := y], q)
  {
  }

  lemma ChainPart(h: map<Mac, Mac>, p: seq<Mac>, i: nat, j: nat)
    requires Chain(h, p) && i < j <= |p|
    ensures Chain(h, p[i..j])
  {
  }

  /** The change closes the chain from `y` to `x`. */
  lemma Closing(h: map<Mac, Mac>, x: Mac, y: Mac, q: seq<Mac>)
    requires !Cyclic(h) && From(h, q, y, x)
    ensures Cyclic(h[x := y])
  {
    forall i | 0 <= i < |q| - 1 ensures q[i] != x {
      ChainPart(h, q, i, |q|);
      assert !Cycle(h, q[i..]);
    }
    ChainAround(h, x, y, q);
    assert Cycle(h[x := y], [x] + q);
  }

  lemma FirstVisit(r: seq<Mac>, x: Mac, from: nat) returns (k: nat)
    requires from < |r| && r[|r| - 1] == x
    ensures from <= k < |r| && r[k] == x && forall i | from <= i < k :: r[i] != x
  {
    k := from;
    while r[k] != x
      invariant from <= k < |r| && forall i | from <= i < k :: r[i] != x
      decreases |r| - k
    {
      k := k + 1;
    }
  }

  /** Going round the cycle from its place `j`. */
  lemma Rotated(h: map<Mac, Mac>, p: seq<Mac>, j: nat)
    requires Cycle(h, p) && j < |p| - 1
    ensures Cycle(h, p[j..] + p[1..j + 1]) && (p[j..] + p[1..j + 1])[0] == p[j] && (p[j..] + p[1..j + 1])[1] == p[j + 1]
  {
    var r := p[j..] + p[1..j + 1];
    forall i | 0 <= i < |r| - 1 ensures r[i] in h && h[r[i]] == r[i + 1] {
      if i < |p| - j - 1 { assert r[i] == p[j + i]; } else { assert r[i] == p[i - (|p| - j) + 1]; }
    }
  }

  /** A cycle after the change runs through `x`, so a chain from `y` to `x` was there before. */
  lemma Opened(h: map<Mac, Mac>, x: Mac, y: Mac, p: seq<Mac>)
    requires !Cyclic(h) && Cycle(h[x := y], p)
    ensures Leads(h, y, x)
  {
    var h' := h[x := y];
    assert !Cycle(h, p);
    assert exists j :: 0 <= j < |p| - 1 && p[j] == x;
    var j :| 0 <= j < |p| - 1 && p[j] == x;
    Rotated(h', p, j);
    var r := p[j..] + p[1..j + 1];
    var k := FirstVisit(r, x, 1);
    ChainPart(h', r, 1, k + 1);
    ChainAround(h, x, y, r[1..k + 1]);
    assert From(h, r[1..k + 1], y, x);
  }

  lemma CycleIff(h: map<Mac, Mac>, x: Mac, y: Mac)
    requires !Cyclic(h)
    ensures Cyclic(h[x := y]) <==> Leads(h, y, x)
  {
    if Cyclic(h[x := y]) {
      var p :| Cycle(h[x := y], p);
      Opened(h, x, y, p);
    }
    if Leads(h, y, x) {
      var q :| From(h, q, y, x);
      Closing(h, x, y, q);
    }
  }

  // ----- Next hops in the mesh

  function Hops(nodes: map<Mac, Node>, o: Mac): map<Mac, Mac> {
    map x | x in nodes && HasEntry(nodes, x, o) :: nodes[x].paths[o].nextHop
  }

  /** Some chain of next hops towards `o` returns to where it started. */
  ghost predicate Looped(net: Net, o: Mac) { Cyclic(Hops(net.nodes, o)) }

  /** The reception of an announcement of `o` that is stored. */
  predicate StoresFor(net: Net, ev: Event, o: Mac) {
    && ev.Deliver? && ev.link in net.chan && net.chan[ev.link] != [] && ev.link.dst in net.nodes
    && net.chan[ev.link][0].orig == o
    && Stores(net.nodes[ev.link.dst], ev.stas, ev.t0, ev.t1, ev.link.src, net.chan[ev.link][0])
  }

  /** It is stored although the sender's own next hops lead to the receiver. */
  ghost predicate Closes(net: Net, ev: Event, o: Mac) {
    StoresFor(net, ev, o) && Leads(Hops(net.nodes, o), ev.link.src, ev.link.dst)
  }

  lemma LoopedIff(net: Net, o: Mac)
    ensures Looped(net, o) <==> exists p :: NextHops(net, o, p) && |p| >= 2 && p[0] == p[|p| - 1]
  {
    forall p ensures NextHops(net, o, p) <==> Chain(Hops(net.nodes, o), p) {}
    if Looped(net, o) {
      var p :| Cycle(Hops(net.nodes, o), p);
      assert NextHops(net, o, p);
    }
    if p :| NextHops(net, o, p) && |p| >= 2 && p[0] == p[|p| - 1] {
      assert Cycle(Hops(net.nodes, o), p);
    }
  }

  lemma HopSet(nodes: map<Mac, Node>, x: Mac, n: Node, o: Mac)
    requires x in nodes && x != o && o in n.paths && n.paths[o].Filled()
    ensures Hops(nodes[x := n], o) == Hops(nodes, o)[x := n.paths[o].nextHop]
  {
  }

  lemma StoredHops(t: Topology, net: Net, ev: Event, net': Net, o: Mac)
    requires Proper(t, net.nodes) && net.chan.Keys == t.links && MeshNetwork.Step(net, ev, net')
    requires StoresFor(net, ev, o)
    ensures Hops(net'.nodes, o) == Hops(net.nodes, o)[ev.link.dst := ev.link.src]
  {
    ReceiveShape(net.nodes[ev.link.dst], ev.stas, ev.t0, ev.t1, ev.link.src, net.chan[ev.link][0]);
    HopSet(net.nodes, ev.link.dst, net'.nodes[ev.link.dst], o);
  }

  /** An event at node `x` that leaves its next hop, or takes it away. */
  lemma HopKept(net: Net, net': Net, x: Mac, o: Mac)
    requires x in net.nodes && x in net'.nodes && net'.nodes == net.nodes[x := net'.nodes[x]]
    requires HasEntry(net'.nodes, x, o) ==>
               HasEntry(net.nodes, x, o) && net'.nodes[x].paths[o].nextHop == net.nodes[x].paths[o].nextHop
    ensures Hops(net'.nodes, o).Items <= Hops(net.nodes, o).Items
  {
  }

  /** What an event does to the next hops: a stored announcement sets one, housekeeping may take some
      away, nothing else changes any. */
  lemma OtherHops(t: Topology, net: Net, ev: Event, net': Net, o: Mac)
    requires Proper(t, net.nodes) && net.chan.Keys == t.links && MeshNetwork.Step(net, ev, net')
    requires !StoresFor(net, ev, o)
    ensures Hops(net'.nodes, o).Items <= Hops(net.nodes, o).Items
  {
    match ev
    case RootTimer(x) => HopKept(net, net', x, o);
    case Status(x, _) => HopKept(net, net', x, o);
    case WithdrawTimer(x) => HopKept(net, net', x, o);
    case Housekeeping(x, _) => HopKept(net, net', x, o);
    case Deliver(l, stas, t0, t1) =>
      ReceiveShape(net.nodes[l.dst], stas, t0, t1, l.src, net.chan[l][0]);
      HopKept(net, net', l.dst, o);
    case Lose(_, _) =>
  }

  lemma FewerHops(h: map<Mac, Mac>, h': map<Mac, Mac>)
    requires h'.Items <= h.Items && !Cyclic(h)
    ensures !Cyclic(h')
  {
    forall x | x in h' ensures x in h && h[x] == h'[x] { assert (x, h'[x]) in h.Items; }
    forall p ensures !Cycle(h', p) {
      assert Cycle(h', p) ==> Cycle(h, p);
    }
  }

  /** From a state without loops an event makes one if and only if it is the reception of an announcement
      that is stored although its sender's chain of next hops passes through the receiver. */
  lemma LoopStep(t: Topology, net: Net, ev: Event, net': Net, o: Mac)
    requires Proper(t, net.nodes) && net.chan.Keys == t.links && MeshNetwork.Step(net, ev, net')
    requires !Looped(net, o)
    ensures Looped(net', o) <==> Closes(net, ev, o)
  {
    if StoresFor(net, ev, o) {
      StoredHops(t, net, ev, net', o);
      CycleIff(Hops(net.nodes, o), ev.link.dst, ev.link.src);
    } else {
      OtherHops(t, net, ev, net', o);
      FewerHops(Hops(net.nodes, o), Hops(net'.nodes, o));
    }
  }

  // ----- Over runs

  lemma AddressKept(net: Net, ev: Event, net': Net)
    requires MeshNetwork.Step(net, ev, net')
    ensures net'.nodes.Keys == net.nodes.Keys && net'.chan.Keys == net.chan.Keys
    ensures forall x <- net.nodes :: net'.nodes[x].addr == net.nodes[x].addr
  {
    if ev.Deliver? {
      ReceiveShape(net.nodes[ev.link.dst], ev.stas, ev.t0, ev.t1, ev.link.src, net.chan[ev.link][0]);
    }
  }

  lemma ProperNext(t: Topology, net: Net, ev: Event, net': Net)
    requires Proper(t, net.nodes) && net.chan.Keys == t.links && MeshNetwork.Step(net, ev, net')
    ensures Proper(t, net'.nodes) && net'.chan.Keys == t.links
  {
    AddressKept(net, ev, net');
  }

  lemma {:induction false} RunProper(t: Topology, nets: seq<Net>, evs: seq<Event>, i: nat)
    requires Run(t, nets, evs) && i < |nets|
    ensures Proper(t, nets[i].nodes) && nets[i].chan.Keys == t.links
  {
    if i > 0 {
      RunProper(t, nets, evs, i - 1);
      assert Follows(nets, evs, i - 1);
      ProperNext(t, nets[i - 1], evs[i - 1], nets[i]);
    }
  }

  ghost predicate ClosesAt(nets: seq<Net>, evs: seq<Event>, i: nat, o: Mac)
    requires i < |nets| && i < |evs|
  {
    Closes(nets[i], evs[i], o)
  }

  ghost predicate LoopedAt(nets: seq<Net>, i: nat, o: Mac)
    requires i < |nets|
  {
    Looped(nets[i], o)
  }

  lemma StartsWithoutLoop(t: Topology, net: Net, o: Mac)
    requires NetInit(t, net)
    ensures !Looped(net, o)
  {
    assert Hops(net.nodes, o) == map[];
    forall p ensures !Cycle(Hops(net.nodes, o), p) { assert |p| >= 2 ==> p[0] !in Hops(net.nodes, o); }
  }

  lemma {:induction false} NoneUpTo(t: Topology, nets: seq<Net>, evs: seq<Event>, o: Mac, n: nat)
    requires Run(t, nets, evs) && n < |nets|
    requires forall i {:trigger ClosesAt(nets, evs, i, o)} | 0 <= i < n :: !ClosesAt(nets, evs, i, o)
    ensures !LoopedAt(nets, n, o)
  {
    if n == 0 {
      StartsWithoutLoop(t, nets[0], o);
    } else {
      NoneUpTo(t, nets, evs, o, n - 1);
      RunProper(t, nets, evs, n - 1);
      assert Follows(nets, evs, n - 1) && !ClosesAt(nets, evs, n - 1, o);
      LoopStep(t, nets[n - 1], evs[n - 1], nets[n], o);
    }
  }

  /** Over every run, with nothing assumed about expiry, metrics, clocks or counters: no state has a loop
      if and only if no reception closes one. */
  lemma LoopFreeIff(t: Topology, nets: seq<Net>, evs: seq<Event>, o: Mac)
    requires Run(t, nets, evs)
    ensures (forall i {:trigger LoopedAt(nets, i, o)} | 0 <= i < |nets| :: !LoopedAt(nets, i, o)) <==>
            (forall i {:trigger ClosesAt(nets, evs, i, o)} | 0 <= i < |evs| :: !ClosesAt(nets, evs, i, o))
  {
    if forall i {:trigger ClosesAt(nets, evs, i, o)} | 0 <= i < |evs| :: !ClosesAt(nets, evs, i, o) {
      forall i | 0 <= i < |nets| ensures !LoopedAt(nets, i, o) { NoneUpTo(t, nets, evs, o, i); }
    }
    if forall i {:trigger LoopedAt(nets, i, o)} | 0 <= i < |nets| :: !LoopedAt(nets, i, o) {
      forall i | 0 <= i < |evs| ensures !ClosesAt(nets, evs, i, o) {
        RunProper(t, nets, evs, i);
        assert Follows(nets, evs, i) && !LoopedAt(nets, i, o) && !LoopedAt(nets, i + 1, o);
        LoopStep(t, nets[i], evs[i], nets[i + 1], o);
      }
    }
  }

  // ----- Only expiry closes a loop

  lemma NoLoopInNet(t: Topology, net: Net, o: Mac)
    requires NetInv(t, net) && o in net.nodes
    ensures !Looped(net, o)
  {
    LoopedIff(net, o);
    forall p | NextHops(net, o, p) && |p| >= 2 ensures p[0] != p[|p| - 1] { NoLoopIn(t, net, o, p); }
  }

  /** In a state of a benign run, with metrics, clock and counter as assumed, the only reception that closes
      a loop is one that gets in because the receiver's entry has expired, with an announcement that is
      older or a detour that is no shorter. */
  lemma OnlyExpiryCloses(t: Topology, net: Net, ev: Event, net': Net, o: Mac)
    requires NetInv(t, net) && o in net.nodes && MeshNetwork.Step(net, ev, net') && ev.Deliver?
    requires SnRoom(net, ev.link.dst) && ev.t0 < ev.t1 && Charged(t, ev.link, ev.stas, net.chan[ev.link][0])
    requires Closes(net, ev, o)
    ensures !NotByExpiry(net.nodes[ev.link.dst], ev.stas, ev.link.src, net.chan[ev.link][0], ev.t1)
  {
    if NotByExpiry(net.nodes[ev.link.dst], ev.stas, ev.link.src, net.chan[ev.link][0], ev.t1) {
      NetInvNext(t, net, ev, net');
      NoLoopInNet(t, net, o);
      SameMesh(t, net, ev, net', o);
      NoLoopInNet(t, net', o);
      LoopStep(t, net, ev, net', o);
      assert false;
    }
  }
}
