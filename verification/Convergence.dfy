/**
 Convergence to shortest paths.

 With link costs that do not change, no loss and a TTL of at least the number of nodes,
 whatever the interleaving and however many announcement rounds overlap: once nothing
 is in flight, every node the originator can reach holds the latest sequence number and
 the exact shortest-path metric.
 */
module Convergence {
  import opened MeshTypes
  import opened OriginProtocol

  /** Nothing is lost, every announcement that should be stored is, and everything stored is
      announced on every link unless its TTL has run out. */
  ghost predicate Lossless(m: Mesh, s: State, step: Step) {
    match step
    case Emit(out) => out == From(m, m.origin)
    case Take(l, accept, out) =>
      && l in s.chan && |s.chan[l]| > 0
      && var e := Arrival(m, l, s.chan[l][0]);
      && (accept <==> l.dst != m.origin && Acceptable(s, l, s.chan[l][0], e.metric))
      && (accept ==> out == if e.hops < m.ttl then From(m, l.dst) else {})
    case Drop(_, _) => false
    case Idle => true
  }

  // ----- Walks and their cost

  predicate Walk(m: Mesh, p: seq<Mac>) {
    |p| >= 1 && p[0] == m.origin && forall i | 0 <= i < |p| - 1 :: Link(p[i], p[i + 1]) in m.links
  }

  function Cost(m: Mesh, p: seq<Mac>): nat
    requires |p| >= 1
  {
    if |p| == 1 then 0 else Cost(m, p[..|p| - 1]) + m.cost(0, Link(p[|p| - 2], p[|p| - 1]))
  }

  /** `p` is a simple path from the originator to `x` on which every node already knows a metric
      no worse than the path gives it. */
  ghost predicate Trail(m: Mesh, s: State, p: seq<Mac>, x: Mac, metric: nat, hops: nat) {
    && Walk(m, p) && p[|p| - 1] == x && |p| == hops + 1 && Cost(m, p) == metric
    && (forall i, j | 0 <= i < j < |p| :: p[i] != p[j])
    && (forall i | 0 <= i < |p| :: p[i] in m.nodes && KnownWithin(m, s, p[i], Cost(m, p[..i + 1])))
  }

  predicate KnownWithin(m: Mesh, s: State, x: Mac, metric: nat) {
    Knows(m, s, x) && RankAt(m, s, x).metric <= metric
  }

  ghost predicate Traced(m: Mesh, s: State, x: Mac, metric: nat, hops: nat) {
    exists p :: Trail(m, s, p, x, metric, hops)
  }

  ghost predicate TracedNote(m: Mesh, s: State, l: Link, i: nat)
    requires l in s.chan && i < |s.chan[l]|
  {
    Traced(m, s, l.src, s.chan[l][i].metric, s.chan[l][i].hops)
  }

  ghost predicate TracedEntry(m: Mesh, s: State, x: Mac)
    requires x in s.table
  {
    Traced(m, s, x, s.table[x].metric, s.table[x].hops)
  }

  ghost predicate TraceInv(m: Mesh, s: State) {
    && (forall l, i {:trigger TracedNote(m, s, l, i)} | l in m.links && l in s.chan && 0 <= i < |s.chan[l]| ::
        TracedNote(m, s, l, i))
    && (forall x {:trigger TracedEntry(m, s, x)} | x in s.table :: TracedEntry(m, s, x))
  }

  lemma TracedKept(m: Mesh, s: State, s': State, x: Mac, metric: nat, hops: nat)
    requires Improves(m, true, s, s') && Traced(m, s, x, metric, hops)
    ensures Traced(m, s', x, metric, hops)
  {
    var p :| Trail(m, s, p, x, metric, hops);
    forall i | 0 <= i < |p| ensures KnownWithin(m, s', p[i], Cost(m, p[..i + 1])) {
      assert KnownWithin(m, s, p[i], Cost(m, p[..i + 1]));
    }
    assert Trail(m, s', p, x, metric, hops);
  }

  /** Prefixes of a walk cost no more than the walk. */
  lemma {:induction false} CostPrefix(m: Mesh, p: seq<Mac>, i: nat)
    requires 0 <= i < |p|
    ensures Cost(m, p[..i + 1]) <= Cost(m, p)
  {
    if i + 1 == |p| {
      assert p[..i + 1] == p;
    } else {
      var q := p[..|p| - 1];
      CostPrefix(m, q, i);
      assert q[..i + 1] == p[..i + 1];
    }
  }

  lemma DistinctFit<T>(p: seq<T>, nodes: set<T>)
    requires forall i, j | 0 <= i < j < |p| :: p[i] != p[j]
    requires forall i | 0 <= i < |p| :: p[i] in nodes
    ensures |p| <= |nodes|
  {
    if |p| > 0 {
      var q := p[..|p| - 1];
      DistinctFit(q, nodes - {p[|p| - 1]});
    }
  }

  /** A trail extends over a link to a node that holds exactly the metric the link gives it; the
      node cannot be on the trail already, since it would know something better. */
  lemma TrailExtends(m: Mesh, s: State, p: seq<Mac>, l: Link, metric: nat, hops: nat)
    requires WellFormed(m) && Trail(m, s, p, l.src, metric, hops) && l in m.links
    requires Knows(m, s, l.dst) && RankAt(m, s, l.dst).metric == metric + m.cost(0, l)
    ensures Trail(m, s, p + [l.dst], l.dst, metric + m.cost(0, l), hops + 1)
  {
    var q := p + [l.dst];
    assert q[..|q| - 1] == p;
    assert m.cost(0, l) >= 1;
    forall i | 0 <= i < |q| ensures q[i] in m.nodes && KnownWithin(m, s, q[i], Cost(m, q[..i + 1])) {
      if i < |p| {
        assert q[..i + 1] == p[..i + 1];
        assert KnownWithin(m, s, p[i], Cost(m, p[..i + 1]));
      } else {
        assert q[..i + 1] == q;
      }
    }
    forall i | 0 <= i < |p| ensures p[i] != l.dst {
      CostPrefix(m, p, i);
      assert KnownWithin(m, s, p[i], Cost(m, p[..i + 1]));
    }
    forall i | 0 <= i < |q| - 1 ensures Link(q[i], q[i + 1]) in m.links {
      if i < |p| - 1 { assert Link(p[i], p[i + 1]) in m.links; }
    }
  }

  /** An accepted announcement travelled a simple path that ends at its receiver. */
  lemma TakenTraced(m: Mesh, s: State, l: Link, out: set<Link>, s': State)
    requires WellFormed(m) && FixedCosts(m) && Inv(m, true, s) && TraceInv(m, s)
    requires Next(m, s, Take(l, true, out), s') && Improves(m, true, s, s')
    ensures var e := Arrival(m, l, s.chan[l][0]); Traced(m, s', l.dst, e.metric, e.hops) && e.hops < |m.nodes|
  {
    var n := s.chan[l][0];
    assert TracedNote(m, s, l, 0);
    TracedKept(m, s, s', l.src, n.metric, n.hops);
    var p :| Trail(m, s', p, l.src, n.metric, n.hops);
    assert m.cost(n.sn, l) == m.cost(0, l);
    TrailExtends(m, s', p, l, n.metric, n.hops);
    var e := Arrival(m, l, n);
    assert Trail(m, s', p + [l.dst], l.dst, e.metric, e.hops);
    DistinctFit(p + [l.dst], m.nodes);
  }

  lemma EmitTraced(m: Mesh, s: State, out: set<Link>, s': State)
    requires WellFormed(m) && Next(m, s, Emit(out), s')
    ensures Traced(m, s', m.origin, 0, 0)
  {
    var p := [m.origin];
    assert p[..1] == p;
    assert KnownWithin(m, s', p[0], Cost(m, p[..1]));
    assert Trail(m, s', p, m.origin, 0, 0);
  }

  /** Announcements are only added by their sender's step. */
  lemma NewNote(m: Mesh, s: State, step: Step, s': State, l: Link, i: nat)
    requires Next(m, s, step, s') && s.chan.Keys == m.links
    requires l in s'.chan && i < |s'.chan[l]|
    ensures l in s.chan
    ensures var n := s'.chan[l][i];
            n in s.chan[l]
            || (step.Emit? && l.src == m.origin && n == Note(s'.sn, 0, 0))
            || (step.Take? && step.accept && l.src == step.link.dst && step.link.dst in s'.table
                && var e := s'.table[step.link.dst];
                n == Note(e.sn, e.metric, e.hops))
  {
  }

  lemma TraceNext(m: Mesh, s: State, step: Step, s': State)
    requires WellFormed(m) && FixedCosts(m) && Inv(m, true, s) && TraceInv(m, s)
    requires Next(m, s, step, s') && Improves(m, true, s, s') && s'.chan.Keys == m.links
    ensures TraceInv(m, s')
  {
    if step.Take? && step.accept { TakenTraced(m, s, step.link, step.out, s'); }
    if step.Emit? { EmitTraced(m, s, step.out, s'); }
    forall x | x in s'.table ensures TracedEntry(m, s', x) {
      if !(step.Take? && step.accept && x == step.link.dst) {
        assert TracedEntry(m, s, x);
        TracedKept(m, s, s', x, s.table[x].metric, s.table[x].hops);
      }
    }
    forall l, i | l in m.links && l in s'.chan && 0 <= i < |s'.chan[l]|
      ensures TracedNote(m, s', l, i)
    {
      NewNote(m, s, step, s', l, i);
      var n := s'.chan[l][i];
      if n in s.chan[l] {
        var j :| 0 <= j < |s.chan[l]| && s.chan[l][j] == n;
        assert TracedNote(m, s, l, j);
        TracedKept(m, s, s', l.src, n.metric, n.hops);
      }
    }
  }

  // ----- What an empty channel means

  /** `x` has announced something. */
  predicate Spoke(m: Mesh, s: State, x: Mac) {
    if x == m.origin then s.sn >= 1 else x in s.table
  }

  /** The receiver of `l` has taken account of everything its sender knows. */
  predicate Settled(m: Mesh, s: State, l: Link)
    requires Knows(m, s, l.src)
  {
    l.dst == m.origin ||
    (l.dst in s.table &&
     var e, r := s.table[l.dst], RankAt(m, s, l.src);
     && (e.sn > r.sn || e.metric <= r.metric + m.cost(0, l))
     && (e.nextHop == l.src ==> e.sn == r.sn && e.metric == r.metric + m.cost(0, l)))
  }

  /** The last announcement in a channel is what its sender knows; an empty channel is settled. */
  predicate Informed(m: Mesh, s: State, l: Link) {
    l in s.chan && Knows(m, s, l.src) &&
    if s.chan[l] == [] then Settled(m, s, l)
    else NoteRank(s.chan[l][|s.chan[l]| - 1]) == RankAt(m, s, l.src)
  }

  ghost predicate InformedInv(m: Mesh, s: State) {
    forall l | l in m.links && Spoke(m, s, l.src) :: Informed(m, s, l)
  }

  lemma InformedEmit(m: Mesh, s: State, s': State, l: Link)
    requires WellFormed(m) && Inv(m, true, s) && InformedInv(m, s)
    requires Next(m, s, Emit(From(m, m.origin)), s') && l in m.links && Spoke(m, s', l.src)
    ensures Informed(m, s', l)
  {
    if l.src == m.origin {
      assert l in From(m, m.origin);
      assert s'.chan[l] == s.chan[l] + [Note(s.sn + 1, 0, 0)];
    } else {
      assert Informed(m, s, l);
    }
  }

  /** What taking the head of `l` leaves alone. */
  lemma TakeFrame(m: Mesh, s: State, l: Link, accept: bool, out: set<Link>, s': State)
    requires WellFormed(m) && s.chan.Keys == m.links && Next(m, s, Take(l, accept, out), s')
    ensures s'.chan.Keys == m.links
    ensures s'.chan[l] == s.chan[l][1..]
    ensures forall k | k in m.links && k != l && !(accept && k.src == l.dst) :: s'.chan[k] == s.chan[k]
    ensures s'.sn == s.sn
    ensures s'.table == if accept then s.table[l.dst := Arrival(m, l, s.chan[l][0])] else s.table
  {
    assert accept ==> l !in out;
  }

  /** The receiver has just stored the last announcement of `l`. */
  lemma SettledByAccept(m: Mesh, s: State, s': State, l: Link, n: Note)
    requires l.src != l.dst && Knows(m, s, l.src) && NoteRank(n) == RankAt(m, s, l.src)
    requires m.cost(n.sn, l) == m.cost(0, l)
    requires s'.sn == s.sn && s'.table == s.table[l.dst := Arrival(m, l, n)]
    ensures Knows(m, s', l.src) && Settled(m, s', l)
  {
  }

  /** The receiver has just rejected the last announcement of `l`. */
  lemma SettledByReject(m: Mesh, s: State, l: Link)
    requires WellFormed(m) && Inv(m, true, s) && l in m.links && |s.chan[l]| > 0
    requires Knows(m, s, l.src) && NoteRank(s.chan[l][0]) == RankAt(m, s, l.src)
    requires m.cost(s.chan[l][0].sn, l) == m.cost(0, l)
    requires !Acceptable(s, l, s.chan[l][0], Arrival(m, l, s.chan[l][0]).metric)
    ensures Settled(m, s, l)
  {
    assert EntryOk(m, true, s, l.dst);
  }

  /** Taking the head of `l` itself. */
  lemma InformedTaken(m: Mesh, s: State, l: Link, accept: bool, out: set<Link>, s': State)
    requires WellFormed(m) && FixedCosts(m) && Inv(m, true, s) && InformedInv(m, s)
    requires Next(m, s, Take(l, accept, out), s') && Lossless(m, s, Take(l, accept, out))
    ensures Informed(m, s', l)
  {
    TakeFrame(m, s, l, accept, out, s');
    var n := s.chan[l][0];
    assert NoteOk(m, true, s, l.src, n);
    assert Spoke(m, s, l.src);
    assert Informed(m, s, l);
    assert m.cost(n.sn, l) == m.cost(0, l);
    if s'.chan[l] == [] {
      if accept {
        SettledByAccept(m, s, s', l, n);
      } else if l.dst != m.origin {
        SettledByReject(m, s, l);
      }
    }
  }

  /** The receiver's own channels: it tells everyone what it has just stored. */
  lemma InformedForwarded(m: Mesh, s: State, l: Link, s': State, k: Link)
    requires WellFormed(m) && Inv(m, true, s)
    requires Next(m, s, Take(l, true, From(m, l.dst)), s')
    requires k in m.links && k.src == l.dst
    ensures Informed(m, s', k)
  {
    var e := Arrival(m, l, s.chan[l][0]);
    assert k in From(m, l.dst);
    assert s'.chan[k] == s.chan[k] + [Note(e.sn, e.metric, e.hops)];
  }

  /** Every other channel: its sender knows what it knew, its receiver may know more. */
  lemma InformedOther(m: Mesh, s: State, s': State, k: Link)
    requires k in s.chan && k in s'.chan && s'.chan[k] == s.chan[k] && Informed(m, s, k)
    requires Knows(m, s', k.src) && RankAt(m, s', k.src) == RankAt(m, s, k.src)
    requires Improves(m, true, s, s')
    requires k.dst in s.table ==> k.dst in s'.table
    requires k.dst in s.table && s'.table[k.dst] != s.table[k.dst] ==> s'.table[k.dst].nextHop != k.src
    ensures Informed(m, s', k)
  {
    if s'.chan[k] == [] && k.dst != m.origin {
      assert AtLeast(true, RankAt(m, s', k.dst), RankAt(m, s, k.dst));
    }
  }

  lemma InformedTake(m: Mesh, s: State, l: Link, accept: bool, out: set<Link>, s': State, k: Link)
    requires WellFormed(m) && FixedCosts(m) && Inv(m, true, s) && InformedInv(m, s)
    requires Next(m, s, Take(l, accept, out), s') && Lossless(m, s, Take(l, accept, out)) && Improves(m, true, s, s')
    requires accept ==> out == From(m, l.dst)
    requires k in m.links && Spoke(m, s', k.src)
    ensures Informed(m, s', k)
  {
    if k == l {
      InformedTaken(m, s, l, accept, out, s');
    } else if accept && k.src == l.dst {
      InformedForwarded(m, s, l, s', k);
    } else {
      TakeFrame(m, s, l, accept, out, s');
      assert Informed(m, s, k);
      InformedOther(m, s, s', k);
    }
  }

  lemma InformedNext(m: Mesh, s: State, step: Step, s': State)
    requires WellFormed(m) && FixedCosts(m) && m.ttl >= |m.nodes|
    requires Inv(m, true, s) && TraceInv(m, s) && InformedInv(m, s)
    requires Next(m, s, step, s') && Lossless(m, s, step) && Improves(m, true, s, s')
    ensures InformedInv(m, s')
  {
    forall k | k in m.links && Spoke(m, s', k.src) ensures Informed(m, s', k) {
      match step
      case Emit(out) => InformedEmit(m, s, s', k);
      case Take(l, accept, out) =>
        if accept { TakenTraced(m, s, l, out, s'); }
        InformedTake(m, s, l, accept, out, s', k);
      case Idle => assert Informed(m, s, k);
    }
  }

  // ----- The result

  ghost predicate ConvergenceInv(m: Mesh, s: State) {
    Inv(m, true, s) && TraceInv(m, s) && InformedInv(m, s)
  }

  lemma ConvergenceInit(m: Mesh, s: State)
    requires Init(m, s)
    ensures ConvergenceInv(m, s)
  {
    InitInv(m, true, s);
  }

  /** Every lossless step keeps the convergence invariant. */
  lemma ConvergenceNext(m: Mesh, s: State, step: Step, s': State)
    requires WellFormed(m) && FixedCosts(m) && m.ttl >= |m.nodes|
    requires ConvergenceInv(m, s) && Next(m, s, step, s') && Lossless(m, s, step)
    ensures ConvergenceInv(m, s')
  {
    NextInv(m, true, s, step, s');
    TraceNext(m, s, step, s');
    InformedNext(m, s, step, s');
  }

  ghost predicate Quiet(m: Mesh, s: State) {
    s.chan.Keys == m.links && forall l <- m.links :: s.chan[l] == []
  }

  /** In a quiet mesh the sequence number of every entry is the originator's latest. */
  lemma {:induction false} QuietSn(m: Mesh, s: State, x: Mac)
    requires WellFormed(m) && ConvergenceInv(m, s) && Quiet(m, s) && s.sn >= 1 && x in s.table
    ensures s.table[x].sn == s.sn
    decreases s.table[x].metric
  {
    assert EntryOk(m, true, s, x);
    var l := Link(s.table[x].nextHop, x);
    assert Informed(m, s, l);
    assert m.cost(0, l) >= 1;
    if l.src != m.origin { QuietSn(m, s, l.src); }
  }

  /** In a quiet mesh no walk is shorter than the stored metric. */
  lemma {:induction false} QuietShortest(m: Mesh, s: State, p: seq<Mac>)
    requires WellFormed(m) && ConvergenceInv(m, s) && Quiet(m, s) && s.sn >= 1 && Walk(m, p)
    ensures KnownWithin(m, s, p[|p| - 1], Cost(m, p))
    decreases |p|
  {
    if |p| > 1 {
      var q := p[..|p| - 1];
      assert Walk(m, q) by {
        forall i | 0 <= i < |q| - 1 ensures Link(q[i], q[i + 1]) in m.links { assert Link(p[i], p[i + 1]) in m.links; }
      }
      QuietShortest(m, s, q);
      var l := Link(p[|p| - 2], p[|p| - 1]);
      assert Link(p[|p| - 2], p[|p| - 2 + 1]) in m.links;
      assert Spoke(m, s, l.src);
      assert Informed(m, s, l);
      if l.dst != m.origin {
        QuietSn(m, s, l.dst);
        if l.src != m.origin { QuietSn(m, s, l.src); }
      }
    }
  }

  /** Shortest-path distance: no walk to `x` costs less, and one costs exactly `d`. */
  ghost predicate Distance(m: Mesh, x: Mac, d: nat) {
    && (forall p | Walk(m, p) && p[|p| - 1] == x :: d <= Cost(m, p))
    && (exists p :: Walk(m, p) && p[|p| - 1] == x && Cost(m, p) == d)
  }

  ghost predicate Reachable(m: Mesh, x: Mac) {
    exists p :: Walk(m, p) && p[|p| - 1] == x
  }

  /** The convergence theorem: in a quiet mesh whose originator has announced, a node holds an entry
      exactly when the originator can reach it, and the entry is up to date and optimal. */
  lemma QuietMeansShortestPaths(m: Mesh, s: State, x: Mac)
    requires WellFormed(m) && ConvergenceInv(m, s) && Quiet(m, s) && s.sn >= 1 && x != m.origin
    ensures x in s.table <==> Reachable(m, x)
    ensures x in s.table ==> s.table[x].sn == s.sn && Distance(m, x, s.table[x].metric)
  {
    if Reachable(m, x) {
      var p :| Walk(m, p) && p[|p| - 1] == x;
      QuietShortest(m, s, p);
    }
    if x in s.table {
      var e := s.table[x];
      assert TracedEntry(m, s, x);
      var p :| Trail(m, s, p, x, e.metric, e.hops);
      assert Walk(m, p) && p[|p| - 1] == x && Cost(m, p) == e.metric;
      QuietSn(m, s, x);
      forall q | Walk(m, q) && q[|q| - 1] == x ensures e.metric <= Cost(m, q) {
        QuietShortest(m, s, q);
      }
    }
  }
}
