/**
 What the reception of a PANN comes to, said without the steps that get there: when it is stored,
 what is stored, and what is sent. A gate keeps one other gate and any other node two, so an
 announcement of a gate is dropped exactly if that many live gates are at least as close.
 */
module Reception {
  import opened MeshTypes
  import opened MeshNode
  import TopGates

  /** The announcement is for a group, for this node, or for a node this one has a live path to. */
  predicate Deliverable(n: Node, target: Mac, now: int) {
    || (target / 0x100_0000_0000) % 2 == 1
    || target == n.addr
    || (target in n.paths && now <= n.paths[target].expTime)
  }

  /** The originator is unknown or its entry expired, or the announcement is not older and either comes
      from the next hop or is a shorter way. */
  predicate Fresh(n: Node, p: Pann, sa: Mac, metric: nat, t0: int, t1: int) {
    if p.orig !in n.paths then t0 < t1
    else
      var e := n.paths[p.orig];
      e.expTime < t1 || (e.sn <= p.sn && (e.nextHop == sa || metric < e.metric))
  }

  /** Another live gate, no farther than `metric`. */
  predicate Competes(n: Node, orig: Mac, metric: nat, now: int, a: Mac) {
    a in n.paths && a != orig && n.paths[a].isGate && now <= n.paths[a].expTime && n.paths[a].metric <= metric
  }

  /** One such gate is enough for a gate, two for any other node. */
  ghost predicate EnoughGates(n: Node, orig: Mac, metric: nat, now: int) {
    if n.isGate then exists a :: Competes(n, orig, metric, now, a)
    else exists a, b :: a != b && Competes(n, orig, metric, now, a) && Competes(n, orig, metric, now, b)
  }

  ghost predicate Accepts(n: Node, p: Pann, sa: Mac, metric: nat, t0: int, t1: int) {
    && Deliverable(n, p.target, t0)
    && Fresh(n, p, sa, metric, t0, t1)
    && !(p.isGate && EnoughGates(n, p.orig, metric, t1))
  }

  /** 32-bit addition that sticks at the maximum. */
  function Sum(metric: nat, link: nat): nat {
    if metric + link <= 0xffff_ffff then metric + link else 0xffff_ffff
  }

  function Answer(n: Node, p: Pann, sa: Mac): Frame {
    Frame(sa, Pann(n.addr, (n.sn + 1) % 0x1_0000_0000_0000_0000, 0, n.elementTtl % 256, p.orig, 0, n.isGate, false))
  }

  function Passed(n: Node, p: Pann, metric: nat): Frame
    requires p.ttl > 1
  {
    var single := (p.target / 0x100_0000_0000) % 2 == 0;
    Frame(if single && p.target in n.paths then n.paths[p.target].nextHop else p.target,
          Pann(p.orig, p.sn, (p.hopCount + 1) % 256, p.ttl - 1, p.target, metric, p.isGate, p.replyRequested))
  }

  // ----- Counting

  lemma SizeAtLeastOne<T>(s: set<T>)
    ensures |s| >= 1 <==> exists a :: a in s
  {
    if |s| >= 1 { var a :| a in s; }
  }

  lemma SizeAtLeastTwo<T>(s: set<T>)
    ensures |s| >= 2 <==> exists a, b :: a != b && a in s && b in s
  {
    if |s| >= 2 {
      var a :| a in s;
      assert |s - {a}| >= 1;
      var b :| b in s - {a};
      assert a != b && a in s && b in s;
    }
    if a, b :| a != b && a in s && b in s { SubsetSize({a, b}, s); }
  }

  lemma CrowdedIff(n: Node, orig: Mac, metric: nat, t0: int, t1: int)
    requires TopGates.Keyed(n.paths) && t0 <= t1
    ensures |Rivals(Looked(n.paths, orig, t0), t1, orig, metric)| >= GateLimit(n.isGate) <==>
            EnoughGates(n, orig, metric, t1)
  {
    var s := Rivals(Looked(n.paths, orig, t0), t1, orig, metric);
    forall a ensures a in s <==> Competes(n, orig, metric, t1, a) {}
    if n.isGate { SizeAtLeastOne(s); } else { SizeAtLeastTwo(s); }
  }

  lemma SumIs(metric: nat, link: nat)
    requires metric <= 0xffff_ffff && link <= 0xffff_ffff
    ensures AddMetric(metric, link) == Sum(metric, link)
  {
    var sum := metric + link;
    assert U32(sum) == if sum <= 0xffff_ffff then sum else sum - 0x1_0000_0000;
  }

  // ----- The decision

  lemma RefusedIff(n: Node, p: Pann, sa: Mac, link: nat, t0: int, t1: int)
    requires TopGates.Keyed(n.paths) && sa != ZERO_MAC && t0 <= t1 && p.metric <= 0xffff_ffff && link <= 0xffff_ffff
    ensures var metric := Sum(p.metric, link);
            Refused(n, Looked(n.paths, p.orig, t0), p, Learned(n, p, sa, link, t1), t1) <==>
            !(Fresh(n, p, sa, metric, t0, t1) && !(p.isGate && EnoughGates(n, p.orig, metric, t1)))
  {
    SumIs(p.metric, link);
    CrowdedIff(n, p.orig, Sum(p.metric, link), t0, t1);
  }

  /** A PANN of another node from a neighbour with a link metric is stored exactly if it is acceptable.
      Then the originator's entry is replaced, a reply goes to the neighbour if one is asked for, and the
      PANN is passed on unless its TTL ends or it is for this node. Otherwise nothing is sent, and the
      originator's entry stays as it was or unfilled. */
  lemma ReceptionDecides(n: Node, stas: map<Mac, nat>, t0: int, t1: int, sa: Mac, p: Pann)
    requires TopGates.Keyed(n.paths) && sa != ZERO_MAC && t0 <= t1 && p.orig != n.addr && sa in stas
    requires p.metric <= 0xffff_ffff && stas[sa] <= 0xffff_ffff
    ensures var r, metric := Receive(n, stas, t0, t1, sa, p), Sum(p.metric, stas[sa]);
            if Accepts(n, p, sa, metric, t0, t1) then
              && r.0.paths == n.paths[p.orig := MeshPath(p.orig, sa, p.sn, metric, stas[sa], (p.hopCount + 1) % 256,
                                                         t1 + n.activePathTimeout, p.isGate)]
              && r.0 == n.(paths := r.0.paths,
                           sn := if p.replyRequested then (n.sn + 1) % 0x1_0000_0000_0000_0000 else n.sn)
              && r.1 == (if p.replyRequested then [Answer(n, p, sa)] else [])
                       + (if p.ttl > 1 && p.target != n.addr then [Passed(n, p, metric)] else [])
            else
              r.1 == [] && r.0 == n.(paths := r.0.paths) && OnlyLookedUp(n, p.orig, r.0.paths)
  {
    RefusedIff(n, p, sa, stas[sa], t0, t1);
    SumIs(p.metric, stas[sa]);
    if Accepts(n, p, sa, Sum(p.metric, stas[sa]), t0, t1) { StoredAnd(n, p, sa, stas[sa], t0, t1); }
  }

  /** What storing comes to. */
  lemma StoredAnd(n: Node, p: Pann, sa: Mac, link: nat, t0: int, t1: int)
    requires TopGates.Keyed(n.paths)
    requires !Refused(n, Looked(n.paths, p.orig, t0), p, Learned(n, p, sa, link, t1), t1)
    ensures var e := Learned(n, p, sa, link, t1);
            forall da :: Store(n, Looked(n.paths, p.orig, t0), p, e, da, t1)
                         == (n.(paths := n.paths[p.orig := e], sn := if p.replyRequested then U64(n.sn + 1) else n.sn),
                             (if p.replyRequested then [Reply(n, p, sa)] else [])
                             + (if p.ttl > 1 && p.target != n.addr then [Forward(p, da, e)] else []))
  {
    var before, e := Looked(n.paths, p.orig, t0), Learned(n, p, sa, link, t1);
    TopGates.ForwardingGuard(n, before, p, e, t1);
    assert before[p.orig := e] == n.paths[p.orig := e];
  }

  /** The table is the same but for a placeholder of an unknown originator. */
  predicate OnlyLookedUp(n: Node, orig: Mac, paths: Paths) {
    if orig in n.paths then paths == n.paths
    else paths - {orig} == n.paths && (orig in paths ==> paths[orig].nextHop == ZERO_MAC)
  }

  /** A PANN of this node itself, or from somebody without a link metric, changes nothing. */
  lemma ReceptionIgnored(n: Node, stas: map<Mac, nat>, t0: int, t1: int, sa: Mac, p: Pann)
    requires p.orig == n.addr || sa !in stas
    ensures Receive(n, stas, t0, t1, sa, p) == (n, [])
  {
  }

  /** The outcome of a refusal. */
  predicate Dropped(n: Node, orig: Mac, r: (Node, seq<Frame>)) {
    r.1 == [] && OnlyLookedUp(n, orig, r.0.paths)
  }

  /** An otherwise acceptable announcement of a gate is dropped if and only if enough other gates are at least
      as close: one where the receiver is a gate itself, two anywhere else. */
  lemma GateDroppedIff(n: Node, stas: map<Mac, nat>, t0: int, t1: int, sa: Mac, p: Pann)
    requires TopGates.Keyed(n.paths) && sa != ZERO_MAC && t0 <= t1 && p.orig != n.addr && sa in stas
    requires p.metric <= 0xffff_ffff && stas[sa] <= 0xffff_ffff && p.isGate
    requires Deliverable(n, p.target, t0) && Fresh(n, p, sa, Sum(p.metric, stas[sa]), t0, t1)
    requires p.orig in n.paths ==> n.paths[p.orig].expTime < t1 + n.activePathTimeout
    ensures Dropped(n, p.orig, Receive(n, stas, t0, t1, sa, p)) <==>
            if n.isGate then exists a :: Competes(n, p.orig, Sum(p.metric, stas[sa]), t1, a)
            else exists a, b :: a != b && Competes(n, p.orig, Sum(p.metric, stas[sa]), t1, a)
                                && Competes(n, p.orig, Sum(p.metric, stas[sa]), t1, b)
  {
    ReceptionDecides(n, stas, t0, t1, sa, p);
    var r := Receive(n, stas, t0, t1, sa, p);
    if Accepts(n, p, sa, Sum(p.metric, stas[sa]), t0, t1) {
      assert r.0.paths[p.orig].nextHop == sa && r.0.paths[p.orig].expTime == t1 + n.activePathTimeout;
    }
  }
}
