/**
 Convergence when nodes may refuse announcements. Among several gates a node keeps only the
 nearest, so an announcement is passed on for certain only by nodes near its originator, and only
 when it arrives with the exact distance. That is enough for the nodes near it to learn theirs.
 */
module NearConvergence {
  import opened MeshTypes
  import opened OriginProtocol
  import opened Convergence

  /** On a shortest path to a near node all nodes are near. */
  ghost predicate Closed(m: Mesh, near: set<Mac>) {
    forall l: Link, d: nat | l in m.links && l.dst in near && Distance(m, l.src, d) &&
       Distance(m, l.dst, d + m.cost(0, l)) ::
      l.src == m.origin || l.src in near
  }

  /** The nodes near the originator store and pass on what arrives numbered `b` with the exact distance. */
  ghost predicate NearLossless(m: Mesh, near: set<Mac>, b: nat, s: State, step: Step) {
    match step
    case Take(l, accept, out) =>
      l in m.links && l in s.chan && |s.chan[l]| > 0 &&
      var n := s.chan[l][0];
      var e := Arrival(m, l, n);
      n.sn == b && l.dst in near && Distance(m, l.dst, e.metric) && Acceptable(s, l, n, e.metric) ==>
        accept && out == if e.hops < m.ttl then From(m, l.dst) else {}
    case Drop(_, _) => false
    case _ => true
  }

  /** `x` holds number `b` with the exact distance. */
  ghost predicate Holds(m: Mesh, near: set<Mac>, b: nat, s: State, x: Mac) {
    x == m.origin || (x in near && x in s.table && s.table[x].sn == b && Distance(m, x, s.table[x].metric))
  }

  /** The receiver of `l`, if its shortest path ends in `l`, knows its distance and, unless it prefers
      another next hop, number `b`. */
  ghost predicate SettledNear(m: Mesh, near: set<Mac>, b: nat, s: State, l: Link)
    requires Knows(m, s, l.src)
  {
    var d := RankAt(m, s, l.src).metric + m.cost(0, l);
    l.dst in near && Distance(m, l.dst, d) ==>
      l.dst in s.table && s.table[l.dst].metric == d && (s.table[l.dst].sn == b || s.table[l.dst].nextHop != l.src)
  }

  predicate OnItsWay(q: seq<Note>, b: nat, metric: nat) { exists i | 0 <= i < |q| ::
      q[i].sn == b && q[i].metric == metric }

  ghost predicate Told(m: Mesh, near: set<Mac>, b: nat, s: State, l: Link)
    requires Knows(m, s, l.src)
  {
    l in s.chan && (OnItsWay(s.chan[l], b, RankAt(m, s, l.src).metric) || SettledNear(m, near, b, s, l))
  }

  /** While the originator's latest announcement is number `b`. */
  ghost predicate ToldInv(m: Mesh, near: set<Mac>, b: nat, s: State) {
    && b <= s.sn && m.origin !in near
    && (s.sn == b && b >= 1 ==>
          forall l {:trigger Told(m, near, b, s, l)} | l in m.links && Holds(m, near, b, s, l.src) ::
              Told(m, near, b, s, l))
  }

  ghost predicate NearInv(m: Mesh, near: set<Mac>, b: nat, s: State) {
    Inv(m, true, s) && TraceInv(m, s) && ToldInv(m, near, b, s)
  }

  // ----- Bounds

  /** No entry is numbered ahead of its originator. */
  lemma {:induction false} SnBound(m: Mesh, s: State, x: Mac)
    requires WellFormed(m) && Inv(m, true, s) && x in s.table
    ensures s.table[x].sn <= s.sn
    decreases s.table[x].metric
  {
    assert EntryOk(m, true, s, x);
    var e := s.table[x];
    assert m.cost(e.sn, Link(e.nextHop, x)) >= 1;
    if e.nextHop != m.origin { SnBound(m, s, e.nextHop); }
  }

  lemma NoteSn(m: Mesh, s: State, l: Link, i: nat)
    requires WellFormed(m) && Inv(m, true, s) && l in m.links && i < |s.chan[l]|
    ensures s.chan[l][i].sn <= s.sn
  {
    assert NoteOk(m, true, s, l.src, s.chan[l][i]);
    if l.src != m.origin { SnBound(m, s, l.src); }
  }

  /** No stored metric is below the distance. */
  lemma EntryBound(m: Mesh, s: State, x: Mac, d: nat)
    requires TraceInv(m, s) && x in s.table && Distance(m, x, d)
    ensures d <= s.table[x].metric
  {
    var e := s.table[x];
    assert TracedEntry(m, s, x);
    var p :| Trail(m, s, p, x, e.metric, e.hops);
    assert Walk(m, p) && p[|p| - 1] == x;
  }

  lemma DistanceUnique(m: Mesh, x: Mac, c: nat, d: nat)
    requires Distance(m, x, c) && Distance(m, x, d)
    ensures c == d
  {
    var p :| Walk(m, p) && p[|p| - 1] == x && Cost(m, p) == c;
    var q :| Walk(m, q) && q[|q| - 1] == x && Cost(m, q) == d;
  }

  lemma OriginDistance(m: Mesh)
    ensures Distance(m, m.origin, 0)
  {
    var p := [m.origin];
    assert Walk(m, p) && p[|p| - 1] == m.origin && Cost(m, p) == 0;
  }

  lemma WalkOn(m: Mesh, p: seq<Mac>, l: Link)
    requires Walk(m, p) && p[|p| - 1] == l.src && l in m.links
    ensures Walk(m, p + [l.dst]) && (p + [l.dst])[|p|] == l.dst && Cost(m, p + [l.dst]) == Cost(m, p) + m.cost(0, l)
  {
    var q := p + [l.dst];
    assert q[..|q| - 1] == p && q[|q| - 2] == l.src;
    forall i | 0 <= i < |q| - 1 ensures Link(q[i], q[i + 1]) in m.links {
      if i < |p| - 1 { assert Link(p[i], p[i + 1]) in m.links; }
    }
  }

  /** Whatever is in flight over `l` arrives with no less than the receiver's distance. */
  lemma ArrivalBound(m: Mesh, s: State, l: Link, d: nat)
    requires WellFormed(m) && FixedCosts(m) && Inv(m, true, s) && TraceInv(m, s)
    requires l in m.links && |s.chan[l]| > 0 && Distance(m, l.dst, d)
    ensures d <= Arrival(m, l, s.chan[l][0]).metric
  {
    var n := s.chan[l][0];
    assert TracedNote(m, s, l, 0);
    var p :| Trail(m, s, p, l.src, n.metric, n.hops);
    WalkOn(m, p, l);
    assert m.cost(n.sn, l) == m.cost(0, l);
  }

  // ----- Steps

  /** A node that holds `b` exactly goes on holding it, with the same metric. */
  lemma HoldsOn(m: Mesh, near: set<Mac>, b: nat, s: State, s': State, x: Mac)
    requires WellFormed(m) && Inv(m, true, s') && TraceInv(m, s') && Improves(m, true, s, s') && s'.sn == b
    requires x != m.origin && Holds(m, near, b, s, x)
    ensures Holds(m, near, b, s', x) && s'.table[x].metric == s.table[x].metric
  {
    assert Knows(m, s, x);
    EntryBound(m, s', x, s.table[x].metric);
    SnBound(m, s', x);
  }

  lemma SettledSame(m: Mesh, near: set<Mac>, b: nat, s: State, s': State, l: Link)
    requires Knows(m, s, l.src) && Knows(m, s', l.src) && SettledNear(m, near, b, s, l)
    requires RankAt(m, s', l.src).metric == RankAt(m, s, l.src).metric
    requires var d := RankAt(m, s, l.src).metric + m.cost(0, l);
             l.dst in near && Distance(m, l.dst, d) && l.dst in s.table ==>
               l.dst in s'.table &&
               var e, e' := s.table[l.dst], s'.table[l.dst];
               e'.metric == e.metric && e'.nextHop == e.nextHop && (e.sn == b ==> e'.sn == b)
    ensures SettledNear(m, near, b, s', l)
  {
  }

  /** A node that knows its distance hears nothing shorter, so only its next hop can speak to it. */
  lemma ExactListens(m: Mesh, s: State, l0: Link, out: set<Link>, s': State, d: nat)
    requires WellFormed(m) && FixedCosts(m) && Inv(m, true, s) && TraceInv(m, s) && Next(m, s, Take(l0, true, out), s')
    requires Inv(m, true, s') && Improves(m, true, s, s')
    requires l0.dst in s.table && s.table[l0.dst].metric == d && Distance(m, l0.dst, d)
    ensures l0.dst in s'.table && s'.table[l0.dst].metric == d && s'.table[l0.dst].nextHop == s.table[l0.dst].nextHop
    ensures s.table[l0.dst].sn <= s'.table[l0.dst].sn <= s'.sn
  {
    ArrivalBound(m, s, l0, d);
    assert Knows(m, s, l0.dst);
    SnBound(m, s', l0.dst);
  }

  lemma OthersSame(m: Mesh, s: State, l0: Link, accept: bool, out: set<Link>, s': State, x: Mac)
    requires Next(m, s, Take(l0, accept, out), s') && !(accept && l0.dst == x)
    ensures x in s.table ==> x in s'.table && s'.table[x] == s.table[x]
  {
  }

  lemma SettledExact(m: Mesh, near: set<Mac>, b: nat, s: State, s': State, l: Link, d: nat)
    requires Knows(m, s, l.src) && Knows(m, s', l.src) && SettledNear(m, near, b, s, l)
    requires RankAt(m, s', l.src).metric == RankAt(m, s, l.src).metric == d - m.cost(0, l)
    requires l.dst in near && Distance(m, l.dst, d) && l.dst in s.table && l.dst in s'.table
    requires s'.table[l.dst].metric == d && s'.table[l.dst].nextHop == s.table[l.dst].nextHop
    requires s.table[l.dst].sn <= s'.table[l.dst].sn <= b
    ensures SettledNear(m, near, b, s', l)
  {
  }

  lemma NothingToSettle(m: Mesh, near: set<Mac>, b: nat, s: State, l: Link, d: nat)
    requires Knows(m, s, l.src) && RankAt(m, s, l.src).metric + m.cost(0, l) == d
    requires !(l.dst in near && Distance(m, l.dst, d))
    ensures SettledNear(m, near, b, s, l)
  {
  }

  /** A settled receiver that hears nothing stays settled. */
  lemma SettledUnheard(m: Mesh, near: set<Mac>, b: nat, s: State, l0: Link, accept: bool, out: set<Link>, s': State,
          l: Link)
    requires Next(m, s, Take(l0, accept, out), s') && !(accept && l0.dst == l.dst)
    requires Knows(m, s, l.src) && Knows(m, s', l.src) && SettledNear(m, near, b, s, l)
    requires RankAt(m, s', l.src).metric == RankAt(m, s, l.src).metric
    ensures SettledNear(m, near, b, s', l)
  {
    OthersSame(m, s, l0, accept, out, s', l.dst);
    SettledSame(m, near, b, s, s', l);
  }

  /** A settled receiver that takes something stays settled. */
  lemma SettledHeard(m: Mesh, near: set<Mac>, b: nat, s: State, l0: Link, out: set<Link>, s': State, l: Link)
    requires WellFormed(m) && FixedCosts(m) && Inv(m, true, s) && TraceInv(m, s)
    requires Next(m, s, Take(l0, true, out), s') && Inv(m, true, s') && Improves(m, true, s, s') && s.sn == b
    requires l0.dst == l.dst && Knows(m, s, l.src) && Knows(m, s', l.src) && SettledNear(m, near, b, s, l)
    requires RankAt(m, s', l.src).metric == RankAt(m, s, l.src).metric
    ensures SettledNear(m, near, b, s', l)
  {
    var d := RankAt(m, s, l.src).metric + m.cost(0, l);
    if l.dst in near && Distance(m, l.dst, d) {
      ExactListens(m, s, l0, out, s', d);
      SettledExact(m, near, b, s, s', l, d);
    } else {
      NothingToSettle(m, near, b, s', l, d);
    }
  }

  /** The head of `l` itself is taken, and it was what the sender holds. */
  lemma HeadSettles(m: Mesh, near: set<Mac>, b: nat, s: State, l: Link, accept: bool, out: set<Link>, s': State)
    requires WellFormed(m) && FixedCosts(m) && Inv(m, true, s) && TraceInv(m, s) && s.sn == b && m.origin !in near
    requires Next(m, s, Take(l, accept, out), s') && NearLossless(m, near, b, s, Take(l, accept, out))
    requires Knows(m, s, l.src) && Knows(m, s', l.src) && RankAt(m, s', l.src).metric == RankAt(m, s, l.src).metric
    requires s.chan[l][0].sn == b && s.chan[l][0].metric == RankAt(m, s, l.src).metric
    ensures SettledNear(m, near, b, s', l)
  {
    var n := s.chan[l][0];
    var d := RankAt(m, s, l.src).metric + m.cost(0, l);
    assert Arrival(m, l, n).metric == d;
    if l.dst in near && Distance(m, l.dst, d) && !Acceptable(s, l, n, d) {
      SnBound(m, s, l.dst);
      EntryBound(m, s, l.dst, d);
    }
  }

  lemma OnItsWayOn(q: seq<Note>, q': seq<Note>, b: nat, metric: nat)
    requires OnItsWay(q, b, metric) && q <= q'
    ensures OnItsWay(q', b, metric)
  {
    var i :| 0 <= i < |q| && q[i].sn == b && q[i].metric == metric;
    assert q'[i] == q[i];
  }

  /** The channels after a reception. */
  lemma TakenChannels(m: Mesh, s: State, l0: Link, accept: bool, out: set<Link>, s': State, l: Link)
    requires s.chan.Keys == m.links && Next(m, s, Take(l0, accept, out), s') && l in m.links
    ensures l in s'.chan && (if l == l0 then s.chan[l][1..] else s.chan[l]) <= s'.chan[l]
    ensures accept && l in out ==>
              var e := Arrival(m, l0, s.chan[l0][0]);
              s'.chan[l] != [] && s'.chan[l][|s'.chan[l]| - 1] == Note(e.sn, e.metric, e.hops)
  {
  }

  /** What is on its way over `l` stays so unless it is what is received. */
  lemma StillOnItsWay(m: Mesh, s: State, l0: Link, accept: bool, out: set<Link>, s': State, l: Link, b: nat,
          metric: nat)
    requires s.chan.Keys == m.links && Next(m, s, Take(l0, accept, out), s') && l in m.links
    requires OnItsWay(s.chan[l], b, metric)
    ensures l in s'.chan
    ensures OnItsWay(s'.chan[l], b, metric) || (l == l0 && s.chan[l][0].sn == b && s.chan[l][0].metric == metric)
  {
    TakenChannels(m, s, l0, accept, out, s', l);
    var i :| 0 <= i < |s.chan[l]| && s.chan[l][i].sn == b && s.chan[l][i].metric == metric;
    if l != l0 {
      OnItsWayOn(s.chan[l], s'.chan[l], b, metric);
    } else if i > 0 {
      var rest := s.chan[l][1..];
      assert rest[i - 1] == s.chan[l][i];
      assert OnItsWay(rest, b, metric);
      OnItsWayOn(rest, s'.chan[l], b, metric);
    }
  }

  lemma SettledOn(m: Mesh, near: set<Mac>, b: nat, s: State, l0: Link, accept: bool, out: set<Link>, s': State, l: Link)
    requires WellFormed(m) && FixedCosts(m) && Inv(m, true, s) && TraceInv(m, s)
    requires Next(m, s, Take(l0, accept, out), s') && Inv(m, true, s') && Improves(m, true, s, s') && s.sn == b
    requires Knows(m, s, l.src) && Knows(m, s', l.src) && SettledNear(m, near, b, s, l)
    requires RankAt(m, s', l.src).metric == RankAt(m, s, l.src).metric
    ensures SettledNear(m, near, b, s', l)
  {
    if accept && l0.dst == l.dst {
      SettledHeard(m, near, b, s, l0, out, s', l);
    } else {
      SettledUnheard(m, near, b, s, l0, accept, out, s', l);
    }
  }

  /** A link whose sender held `b` before the reception. */
  lemma ToldOn(m: Mesh, near: set<Mac>, b: nat, s: State, l0: Link, accept: bool, out: set<Link>, s': State, l: Link)
    requires WellFormed(m) && FixedCosts(m) && Inv(m, true, s) && TraceInv(m, s) && s.sn == b && m.origin !in near
    requires Next(m, s, Take(l0, accept, out), s') && NearLossless(m, near, b, s, Take(l0, accept, out))
    requires Inv(m, true, s') && TraceInv(m, s') && Improves(m, true, s, s')
    requires l in m.links && Holds(m, near, b, s, l.src) && Told(m, near, b, s, l)
    ensures Knows(m, s', l.src) && Told(m, near, b, s', l)
  {
    if l.src != m.origin { HoldsOn(m, near, b, s, s', l.src); }
    if SettledNear(m, near, b, s, l) {
      SettledOn(m, near, b, s, l0, accept, out, s', l);
      TakenChannels(m, s, l0, accept, out, s', l);
    } else {
      StillOnItsWay(m, s, l0, accept, out, s', l, b, RankAt(m, s, l.src).metric);
      if !OnItsWay(s'.chan[l], b, RankAt(m, s, l.src).metric) { HeadSettles(m, near, b, s, l, accept, out, s'); }
    }
  }

  /** A link whose sender has just taken `b`. */
  lemma ToldNow(m: Mesh, near: set<Mac>, b: nat, s: State, l0: Link, accept: bool, out: set<Link>, s': State, l: Link)
    requires WellFormed(m) && FixedCosts(m) && m.ttl >= |m.nodes| && NearInv(m, near, b, s) && s.sn == b && b >= 1
    requires Next(m, s, Take(l0, accept, out), s') && NearLossless(m, near, b, s, Take(l0, accept, out))
    requires Inv(m, true, s') && Improves(m, true, s, s')
    requires l in m.links && !Holds(m, near, b, s, l.src) && Holds(m, near, b, s', l.src)
    ensures Told(m, near, b, s', l)
  {
    assert accept && l.src == l0.dst;
    TakenTraced(m, s, l0, out, s');
    TakenChannels(m, s, l0, accept, out, s', l);
    assert l in From(m, l0.dst);
    var q := s'.chan[l];
    assert q[|q| - 1].sn == b && q[|q| - 1].metric == RankAt(m, s', l.src).metric;
  }

  /** A broadcast of the originator starts a new number. */
  lemma BroadcastTold(m: Mesh, near: set<Mac>, s: State, s': State)
    requires WellFormed(m) && Inv(m, true, s) && m.origin !in near && Next(m, s, Emit(From(m, m.origin)), s')
    ensures ToldInv(m, near, s'.sn, s')
  {
    forall l | l in m.links && Holds(m, near, s'.sn, s', l.src) ensures Told(m, near, s'.sn, s', l) {
      if l.src != m.origin { SnBound(m, s, l.src); }
      assert l in From(m, m.origin);
      var q := s'.chan[l];
      assert q[|q| - 1] == Note(s'.sn, 0, 0);
    }
  }

  /** The number of the latest broadcast after a step: `broadcast` says whether the step is one. */
  function Latest(s': State, b: nat, broadcast: bool): nat { if broadcast then s'.sn else b }

  /** Every step at which near nodes do their part keeps the invariant. */
  lemma NearNext(m: Mesh, near: set<Mac>, b: nat, s: State, step: Step, s': State, broadcast: bool)
    requires WellFormed(m) && FixedCosts(m) && m.ttl >= |m.nodes| && NearInv(m, near, b, s)
    requires Next(m, s, step, s') && NearLossless(m, near, b, s, step)
    requires broadcast ==> step == Emit(From(m, m.origin))
    ensures NearInv(m, near, Latest(s', b, broadcast), s')
  {
    NextInv(m, true, s, step, s');
    TraceNext(m, s, step, s');
    if broadcast {
      BroadcastTold(m, near, s, s');
    } else if step.Take? && s.sn == b && b >= 1 {
      var Take(l0, accept, out) := step;
      forall l | l in m.links && Holds(m, near, b, s', l.src) ensures Told(m, near, b, s', l) {
        if Holds(m, near, b, s, l.src) {
          assert Told(m, near, b, s, l);
          ToldOn(m, near, b, s, l0, accept, out, s', l);
        } else {
          ToldNow(m, near, b, s, l0, accept, out, s', l);
        }
      }
    }
  }

  lemma NearInit(m: Mesh, near: set<Mac>, s: State)
    requires Init(m, s) && m.origin !in near
    ensures NearInv(m, near, 0, s)
  {
    InitInv(m, true, s);
  }

  // ----- Quiet

  lemma WalkBefore(m: Mesh, p: seq<Mac>)
    requires Walk(m, p) && |p| >= 2
    ensures Walk(m, p[..|p| - 1]) && Link(p[|p| - 2], p[|p| - 1]) in m.links
    ensures Cost(m, p) == Cost(m, p[..|p| - 1]) + m.cost(0, Link(p[|p| - 2], p[|p| - 1]))
  {
    var q := p[..|p| - 1];
    forall i | 0 <= i < |q| - 1 ensures Link(q[i], q[i + 1]) in m.links { assert Link(p[i], p[i + 1]) in m.links; }
    assert Link(p[|p| - 2], p[|p| - 2 + 1]) in m.links;
  }

  /** A walk to the start of `l` that, with `l`, is a shortest one is itself shortest. */
  lemma ShortestBefore(m: Mesh, l: Link, d: nat, q: seq<Mac>)
    requires l in m.links && Distance(m, l.dst, d) && Walk(m, q) && q[|q| - 1] == l.src
    requires Cost(m, q) + m.cost(0, l) <= d
    ensures Cost(m, q) + m.cost(0, l) == d && Distance(m, l.src, Cost(m, q))
  {
    WalkOn(m, q, l);
    assert d <= Cost(m, q + [l.dst]);
    forall w | Walk(m, w) && w[|w| - 1] == l.src ensures Cost(m, q) <= Cost(m, w) {
      WalkOn(m, w, l);
      assert d <= Cost(m, w + [l.dst]);
    }
  }

  /** The last link of a shortest walk. */
  lemma LastLink(m: Mesh, x: Mac, d: nat) returns (l: Link)
    requires Distance(m, x, d) && x != m.origin
    ensures l in m.links && l.dst == x && m.cost(0, l) <= d && Distance(m, l.src, d - m.cost(0, l))
  {
    var p :| Walk(m, p) && p[|p| - 1] == x && Cost(m, p) == d;
    l := Link(p[|p| - 2], p[|p| - 1]);
    WalkBefore(m, p);
    ShortestBefore(m, l, d, p[..|p| - 1]);
  }

  /** What a node knows is the cost of a walk to it. */
  lemma KnownWalk(m: Mesh, s: State, x: Mac) returns (w: seq<Mac>)
    requires TraceInv(m, s) && Knows(m, s, x)
    ensures Walk(m, w) && w[|w| - 1] == x && Cost(m, w) == RankAt(m, s, x).metric
  {
    if x == m.origin {
      w := [x];
    } else {
      var f := s.table[x];
      assert TracedEntry(m, s, x);
      w :| Trail(m, s, w, x, f.metric, f.hops);
    }
  }

  /** The next hop of an exact entry lies on a shortest path and is exact itself. */
  lemma NextHopExact(m: Mesh, s: State, x: Mac)
    requires WellFormed(m) && FixedCosts(m) && Inv(m, true, s) && TraceInv(m, s)
    requires x in s.table && Distance(m, x, s.table[x].metric)
    ensures var l := Link(s.table[x].nextHop, x);
            && l in m.links && Knows(m, s, l.src) && 1 <= m.cost(0, l) <= s.table[x].metric
            && Distance(m, l.src, s.table[x].metric - m.cost(0, l))
  {
    assert EntryOk(m, true, s, x);
    var e := s.table[x];
    var l := Link(e.nextHop, x);
    assert m.cost(e.sn, l) == m.cost(0, l);
    var w := KnownWalk(m, s, l.src);
    ShortestBefore(m, l, e.metric, w);
  }

  /** What the sender of `l` holds in a quiet mesh its receiver has taken account of. */
  lemma QuietSettled(m: Mesh, near: set<Mac>, b: nat, s: State, l: Link)
    requires NearInv(m, near, b, s) && Quiet(m, s) && s.sn == b && b >= 1 && l in m.links && Holds(m, near, b, s, l.src)
    ensures SettledNear(m, near, b, s, l)
  {
    assert Told(m, near, b, s, l);
  }

  /** A near node knows its distance, over the last link `l` of a shortest path or another one. */
  lemma {:induction false} QuietExact(m: Mesh, near: set<Mac>, b: nat, s: State, l: Link, d: nat)
    requires WellFormed(m) && FixedCosts(m) && NearInv(m, near, b, s) && Closed(m, near) && Quiet(m, s)
    requires s.sn == b && b >= 1 && l in m.links && l.dst in near && Distance(m, l.dst, d)
    requires 1 <= m.cost(0, l) <= d && Distance(m, l.src, d - m.cost(0, l))
    ensures l.dst in s.table && s.table[l.dst].metric == d
    ensures (s.table[l.dst].sn == b || s.table[l.dst].nextHop != l.src)
    decreases d, 1
  {
    QuietHolds(m, near, b, s, l, d);
    QuietSettled(m, near, b, s, l);
  }

  /** In a quiet mesh whose originator's latest announcement was a broadcast, every node near it that it
      can reach holds that announcement with the exact distance. */
  lemma {:induction false} QuietNear(m: Mesh, near: set<Mac>, b: nat, s: State, x: Mac, d: nat)
    requires WellFormed(m) && FixedCosts(m) && NearInv(m, near, b, s) && Closed(m, near) && Quiet(m, s)
    requires s.sn == b && b >= 1 && x in near && Distance(m, x, d)
    ensures x in s.table && s.table[x].metric == d && s.table[x].sn == b
    decreases d, 2
  {
    var l := LastLink(m, x, d);
    assert m.cost(0, l) >= 1;
    QuietExact(m, near, b, s, l, d);
    NextHopExact(m, s, x);
    QuietExact(m, near, b, s, Link(s.table[x].nextHop, x), d);
  }

  lemma {:induction false} QuietHolds(m: Mesh, near: set<Mac>, b: nat, s: State, l: Link, d: nat)
    requires WellFormed(m) && FixedCosts(m) && NearInv(m, near, b, s) && Closed(m, near) && Quiet(m, s)
    requires s.sn == b && b >= 1 && l in m.links && l.dst in near && Distance(m, l.dst, d)
    requires 1 <= m.cost(0, l) <= d && Distance(m, l.src, d - m.cost(0, l))
    ensures Holds(m, near, b, s, l.src) && RankAt(m, s, l.src).metric == d - m.cost(0, l)
    decreases d, 0
  {
    if l.src == m.origin {
      OriginDistance(m);
      DistanceUnique(m, l.src, 0, d - m.cost(0, l));
    } else {
      QuietNear(m, near, b, s, l.src, d - m.cost(0, l));
    }
  }
}
