/**
 What one originator's announcements do to the mesh, with everything that does not
 concern that originator projected away.

 A state holds the originator's sequence number, the filled path entries for that
 originator at the other nodes, and the announcements in flight on every directed
 link, oldest first. `MeshRefinement` shows that every step of the real network, packet
 by packet, is one of the steps defined here.
 */
module OriginProtocol {
  import opened MeshTypes

  /** A directed radio link: `src` transmits, `dst` receives. */
  datatype Link = Link(src: Mac, dst: Mac)

  /** An announcement in flight. */
  datatype Note = Note(sn: nat, metric: nat, hops: nat)

  /** A filled path entry. */
  datatype Entry = Entry(sn: nat, metric: nat, nextHop: Mac, hops: nat)

  datatype State = State(sn: nat, table: map<Mac, Entry>, chan: map<Link, seq<Note>>)

  /** The fixed part: `cost(sn, l)` is the metric the receiver of `l` charges for
      announcements numbered `sn`, at most `maxCost`; `ttl` is the 8-bit TTL the originator starts with. */
  datatype Mesh = Mesh(
    origin: Mac, nodes: set<Mac>, links: set<Link>, cost: (nat, Link) -> nat, maxCost: nat, ttl: nat)

  ghost predicate WellFormed(m: Mesh) {
    && m.origin in m.nodes
    && m.ttl <= 255
    && m.maxCost <= MAX_LINK_METRIC
    && (forall l <- m.links :: l.src in m.nodes && l.dst in m.nodes && l.src != l.dst)
    && (forall sn: nat, l: Link :: l in m.links ==> 1 <= m.cost(sn, l) <= m.maxCost)
  }

  /** The links `x` transmits on. */
  ghost function From(m: Mesh, x: Mac): set<Link> {
    set l | l in m.links && l.src == x
  }

  // ----- Steps

  datatype Step =
    | Emit(out: set<Link>)
    | Take(link: Link, accept: bool, out: set<Link>)
    | Drop(link: Link, index: nat)
    | Idle

  function Push(chan: map<Link, seq<Note>>, out: set<Link>, n: Note): map<Link, seq<Note>> {
    map l | l in chan :: if l in out then chan[l] + [n] else chan[l]
  }

  /** The test that decides whether a receiver lets an announcement overwrite its entry. */
  predicate Acceptable(s: State, l: Link, n: Note, metric: nat) {
    l.dst in s.table ==>
      var e := s.table[l.dst];
      e.sn <= n.sn && (e.nextHop == l.src || e.metric > metric)
  }

  function Arrival(m: Mesh, l: Link, n: Note): Entry {
    Entry(n.sn, n.metric + m.cost(n.sn, l), l.src, n.hops + 1)
  }

  ghost predicate Next(m: Mesh, s: State, step: Step, s': State) {
    match step
    case Emit(out) =>
      && out <= From(m, m.origin)
      && s' == State(s.sn + 1, s.table, Push(s.chan, out, Note(s.sn + 1, 0, 0)))
    case Take(l, accept, out) =>
      && l in m.links && l in s.chan && |s.chan[l]| > 0
      && var n, rest := s.chan[l][0], s.chan[l := s.chan[l][1..]];
      var e := Arrival(m, l, n);
      if accept then
        && l.dst != m.origin
        && Acceptable(s, l, n, e.metric)
        && out <= From(m, l.dst)
        && (out != {} ==> e.hops < m.ttl)
        && s' == State(s.sn, s.table[l.dst := e], Push(rest, out, Note(e.sn, e.metric, e.hops)))
      else
        s' == s.(chan := rest)
    case Drop(l, i) =>
      && l in s.chan && i < |s.chan[l]|
      && s' == s.(chan := s.chan[l := s.chan[l][..i] + s.chan[l][i + 1..]])
    case Idle => s' == s
  }

  ghost predicate Init(m: Mesh, s: State) {
    s.sn == 0 && s.table == map[] && s.chan.Keys == m.links && forall l <- m.links :: s.chan[l] == []
  }

  // ----- Ranks

  /** A rank is a sequence number and a metric. */
  datatype Rank = Rank(sn: nat, metric: nat)

  /** `a` is at least as good as `b`. With `fixed` (link costs that never change) both
      components improve separately, otherwise the sequence number decides first. */
  predicate AtLeast(fixed: bool, a: Rank, b: Rank) {
    if fixed then a.sn >= b.sn && a.metric <= b.metric
    else a.sn > b.sn || (a.sn == b.sn && a.metric <= b.metric)
  }

  function NoteRank(n: Note): Rank { Rank(n.sn, n.metric) }

  predicate Knows(m: Mesh, s: State, x: Mac) { x == m.origin || x in s.table }

  /** What a node currently knows about the originator. */
  function RankAt(m: Mesh, s: State, x: Mac): Rank
    requires Knows(m, s, x)
  {
    if x == m.origin then Rank(s.sn, 0) else Rank(s.table[x].sn, s.table[x].metric)
  }

  /** Link costs do not depend on the sequence number. */
  ghost predicate FixedCosts(m: Mesh) {
    forall sn: nat, l: Link :: m.cost(sn, l) == m.cost(0, l)
  }

  // ----- The invariant

  /** The cost of `h` hops at `c` each. */
  function Hops(c: nat, h: nat): nat { if h == 0 then 0 else c + Hops(c, h - 1) }

  lemma {:induction false} HopsIsProduct(c: nat, h: nat)
    ensures Hops(c, h) == c * h
  {
    if h > 0 { HopsIsProduct(c, h - 1); }
  }

  lemma {:induction false} HopsFit(c: nat, h: nat)
    requires c <= MAX_LINK_METRIC
    ensures Hops(c, h) <= MAX_LINK_METRIC * h
  {
    if h > 0 { HopsFit(c, h - 1); }
  }

  predicate NoteOk(m: Mesh, fixed: bool, s: State, x: Mac, n: Note) {
    && Knows(m, s, x)
    && AtLeast(fixed, RankAt(m, s, x), NoteRank(n))
    && n.sn >= 1
    && (n.hops == 0 || n.hops < m.ttl)
    && n.metric <= Hops(m.maxCost, n.hops)
  }

  predicate Ordered(fixed: bool, q: seq<Note>) {
    forall i, j | 0 <= i < j < |q| :: AtLeast(fixed, NoteRank(q[j]), NoteRank(q[i]))
  }

  /** The rank the next hop announced when `x` took its entry from it. */
  function Basis(m: Mesh, s: State, x: Mac): Rank
    requires x in s.table
  {
    var e := s.table[x];
    var c := m.cost(e.sn, Link(e.nextHop, x));
    Rank(e.sn, if c <= e.metric then e.metric - c else 0)
  }

  ghost predicate EntryOk(m: Mesh, fixed: bool, s: State, x: Mac)
    requires x in s.table
  {
    var e := s.table[x];
    var l := Link(e.nextHop, x);
    && x in m.nodes && x != m.origin
    && l in m.links && l in s.chan
    && m.cost(e.sn, l) <= e.metric
    && 1 <= e.hops <= 255
    && e.sn >= 1
    && e.metric <= Hops(m.maxCost, e.hops)
    && Knows(m, s, e.nextHop)
    && AtLeast(fixed, RankAt(m, s, e.nextHop), Basis(m, s, x))
    && forall i | 0 <= i < |s.chan[l]| :: AtLeast(fixed, NoteRank(s.chan[l][i]), Basis(m, s, x))
  }

  ghost predicate Inv(m: Mesh, fixed: bool, s: State) {
    && s.chan.Keys == m.links
    && (forall l <- m.links :: Ordered(fixed, s.chan[l]))
    && (forall l, i | l in m.links && 0 <= i < |s.chan[l]| :: NoteOk(m, fixed, s, l.src, s.chan[l][i]))
    && (forall x {:trigger EntryOk(m, fixed, s, x)} | x in s.table :: EntryOk(m, fixed, s, x))
  }

  lemma InitInv(m: Mesh, fixed: bool, s: State)
    requires Init(m, s)
    ensures Inv(m, fixed, s)
  {
  }

  lemma Trans(fixed: bool, a: Rank, b: Rank, c: Rank)
    requires AtLeast(fixed, a, b) && AtLeast(fixed, b, c)
    ensures AtLeast(fixed, a, c)
  {
  }

  /** No node's knowledge ever gets worse: the heart of loop freedom. The next hop may
      report again at the same sequence number, but never something worse. */
  lemma TakeImproves(m: Mesh, fixed: bool, s: State, l: Link)
    requires WellFormed(m) && (fixed ==> FixedCosts(m)) && Inv(m, fixed, s)
    requires l in m.links && |s.chan[l]| > 0 && l.dst in s.table
    requires var n := s.chan[l][0]; Acceptable(s, l, n, Arrival(m, l, n).metric)
    ensures var e := Arrival(m, l, s.chan[l][0]); AtLeast(fixed, Rank(e.sn, e.metric), RankAt(m, s, l.dst))
  {
    var n := s.chan[l][0];
    var old_ := s.table[l.dst];
    assert EntryOk(m, fixed, s, l.dst);
    if old_.nextHop == l.src {
      assert AtLeast(fixed, NoteRank(n), Basis(m, s, l.dst));
      if fixed { assert m.cost(n.sn, l) == m.cost(0, l) == m.cost(old_.sn, l); }
    }
  }

  /** Knowledge in `s'` is at least that in `s`, node by node. */
  ghost predicate Improves(m: Mesh, fixed: bool, s: State, s': State) {
    forall x | Knows(m, s, x) :: Knows(m, s', x) && AtLeast(fixed, RankAt(m, s', x), RankAt(m, s, x))
  }

  lemma NoteOkKept(m: Mesh, fixed: bool, s: State, s': State, x: Mac, n: Note)
    requires Improves(m, fixed, s, s') && NoteOk(m, fixed, s, x, n)
    ensures NoteOk(m, fixed, s', x, n)
  {
    Trans(fixed, RankAt(m, s', x), RankAt(m, s, x), NoteRank(n));
  }

  /** An announcement that says what its sender knows may join its channels. */
  lemma OrderedPush(m: Mesh, fixed: bool, s: State, s': State, x: Mac, q: seq<Note>, n: Note)
    requires Improves(m, fixed, s, s')
    requires Ordered(fixed, q) && forall i | 0 <= i < |q| :: NoteOk(m, fixed, s, x, q[i])
    requires Knows(m, s', x) && NoteRank(n) == RankAt(m, s', x)
    ensures Ordered(fixed, q + [n])
  {
    forall i, j | 0 <= i < j < |q + [n]|
      ensures AtLeast(fixed, NoteRank((q + [n])[j]), NoteRank((q + [n])[i]))
    {
      if j == |q| {
        assert NoteOk(m, fixed, s, x, q[i]);
        Trans(fixed, NoteRank(n), RankAt(m, s, x), NoteRank(q[i]));
      }
    }
  }

  lemma EmitInv(m: Mesh, fixed: bool, s: State, out: set<Link>, s': State)
    requires WellFormed(m) && Inv(m, fixed, s) && Next(m, s, Emit(out), s')
    ensures Inv(m, fixed, s')
  {
    var n := Note(s.sn + 1, 0, 0);
    assert Improves(m, fixed, s, s');
    forall l | l in m.links
      ensures Ordered(fixed, s'.chan[l])
      ensures forall i | 0 <= i < |s'.chan[l]| :: NoteOk(m, fixed, s', l.src, s'.chan[l][i])
    {
      var q := s.chan[l];
      forall i | 0 <= i < |q| ensures NoteOk(m, fixed, s', l.src, q[i]) {
        NoteOkKept(m, fixed, s, s', l.src, q[i]);
      }
      if l in out { OrderedPush(m, fixed, s, s', l.src, q, n); }
    }
    forall x | x in s'.table ensures EntryOk(m, fixed, s', x) {
      assert EntryOk(m, fixed, s, x);
      EntryOkPush(m, fixed, s, s', x, s.chan, out, n, m.origin);
    }
  }

  /** An entry stays good when channels lose announcements or gain their sender's knowledge. */
  lemma EntryOkPush(m: Mesh, fixed: bool, s: State, s': State, x: Mac,
                    chan: map<Link, seq<Note>>, out: set<Link>, n: Note, sender: Mac)
    requires WellFormed(m) && Improves(m, fixed, s, s')
    requires x in s.table && EntryOk(m, fixed, s, x) && x in s'.table && s'.table[x] == s.table[x]
    requires chan.Keys == s.chan.Keys && s'.chan == Push(chan, out, n)
    requires var l := Link(s.table[x].nextHop, x);
             forall i | 0 <= i < |chan[l]| :: chan[l][i] in s.chan[l]
    requires out <= From(m, sender)
    requires Knows(m, s', sender) && NoteRank(n) == RankAt(m, s', sender)
    ensures EntryOk(m, fixed, s', x)
  {
    var e := s.table[x];
    var l := Link(e.nextHop, x);
    var b := Basis(m, s, x);
    Trans(fixed, RankAt(m, s', e.nextHop), RankAt(m, s, e.nextHop), b);
    forall i | 0 <= i < |s'.chan[l]| ensures AtLeast(fixed, NoteRank(s'.chan[l][i]), b) {
      if i < |chan[l]| {
        assert chan[l][i] in s.chan[l];
      } else {
        assert l in out && sender == e.nextHop;
      }
    }
  }

  lemma TakeKnowledge(m: Mesh, fixed: bool, s: State, l: Link, out: set<Link>, s': State)
    requires WellFormed(m) && (fixed ==> FixedCosts(m)) && Inv(m, fixed, s)
    requires Next(m, s, Take(l, true, out), s')
    ensures Improves(m, fixed, s, s')
  {
    if l.dst in s.table { TakeImproves(m, fixed, s, l); }
  }

  /** Every channel after an accepted announcement has been forwarded. */
  lemma TakeChannel(m: Mesh, fixed: bool, s: State, l: Link, out: set<Link>, s': State, k: Link)
    requires WellFormed(m) && Inv(m, fixed, s) && Next(m, s, Take(l, true, out), s') && Improves(m, fixed, s, s')
    requires k in m.links
    ensures Ordered(fixed, s'.chan[k])
    ensures forall i | 0 <= i < |s'.chan[k]| :: NoteOk(m, fixed, s', k.src, s'.chan[k][i])
  {
    var n := s.chan[l][0];
    var q := if k == l then s.chan[l][1..] else s.chan[k];
    forall i | 0 <= i < |q| ensures NoteOk(m, fixed, s, k.src, q[i]) && NoteOk(m, fixed, s', k.src, q[i]) {
      NoteOkKept(m, fixed, s, s', k.src, q[i]);
    }
    assert Ordered(fixed, q);
    if k in out {
      var e := Arrival(m, l, n);
      assert NoteOk(m, fixed, s, l.src, n);
      MetricStep(m, l, n);
      OrderedPush(m, fixed, s, s', k.src, q, Note(e.sn, e.metric, e.hops));
    }
  }

  lemma AcceptInv(m: Mesh, fixed: bool, s: State, l: Link, out: set<Link>, s': State)
    requires WellFormed(m) && Inv(m, fixed, s) && Next(m, s, Take(l, true, out), s') && Improves(m, fixed, s, s')
    ensures Inv(m, fixed, s')
  {
    forall k | k in m.links
      ensures Ordered(fixed, s'.chan[k])
      ensures forall i | 0 <= i < |s'.chan[k]| :: NoteOk(m, fixed, s', k.src, s'.chan[k][i])
    {
      TakeChannel(m, fixed, s, l, out, s', k);
    }
    forall x | x in s'.table ensures EntryOk(m, fixed, s', x) {
      if x == l.dst {
        TakenEntryOk(m, fixed, s, l, out, s');
      } else {
        var e := Arrival(m, l, s.chan[l][0]);
        var rest := s.chan[l := s.chan[l][1..]];
        EntryOkPush(m, fixed, s, s', x, rest, out, Note(e.sn, e.metric, e.hops), l.dst);
      }
    }
  }

  lemma TakeInv(m: Mesh, fixed: bool, s: State, l: Link, accept: bool, out: set<Link>, s': State)
    requires WellFormed(m) && (fixed ==> FixedCosts(m)) && Inv(m, fixed, s)
    requires Next(m, s, Take(l, accept, out), s')
    ensures Inv(m, fixed, s') && Improves(m, fixed, s, s')
  {
    if accept {
      TakeKnowledge(m, fixed, s, l, out, s');
      AcceptInv(m, fixed, s, l, out, s');
    } else {
      RestInv(m, fixed, s, s.chan[l := s.chan[l][1..]], s');
    }
  }

  lemma MetricStep(m: Mesh, l: Link, n: Note)
    requires WellFormed(m) && l in m.links && n.metric <= Hops(m.maxCost, n.hops)
    ensures Arrival(m, l, n).metric <= Hops(m.maxCost, Arrival(m, l, n).hops)
  {
    assert m.cost(n.sn, l) <= m.maxCost;
  }

  lemma TakenEntryOk(m: Mesh, fixed: bool, s: State, l: Link, out: set<Link>, s': State)
    requires WellFormed(m) && Inv(m, fixed, s) && Next(m, s, Take(l, true, out), s') && Improves(m, fixed, s, s')
    ensures EntryOk(m, fixed, s', l.dst)
  {
    var n := s.chan[l][0];
    MetricStep(m, l, n);
    assert NoteOk(m, fixed, s, l.src, n);
    assert l !in out;
    assert s'.chan[l] == s.chan[l][1..];
    assert Basis(m, s', l.dst) == NoteRank(n);
    forall i | 0 <= i < |s'.chan[l]| ensures AtLeast(fixed, NoteRank(s'.chan[l][i]), NoteRank(n)) {
      assert s'.chan[l][i] == s.chan[l][i + 1];
    }
    Trans(fixed, RankAt(m, s', l.src), RankAt(m, s, l.src), NoteRank(n));
  }

  /** Taking announcements out of one channel, in order, keeps the invariant. */
  lemma RestInv(m: Mesh, fixed: bool, s: State, rest: map<Link, seq<Note>>, s': State)
    requires Inv(m, fixed, s) && s' == s.(chan := rest) && rest.Keys == s.chan.Keys
    requires forall l <- m.links :: Ordered(fixed, rest[l]) && forall i | 0 <= i < |rest[l]| :: rest[l][i] in s.chan[l]
    ensures Inv(m, fixed, s')
  {
    forall l, i | l in m.links && 0 <= i < |s'.chan[l]| ensures NoteOk(m, fixed, s', l.src, s'.chan[l][i]) {
      assert rest[l][i] in s.chan[l];
    }
    forall x | x in s'.table ensures EntryOk(m, fixed, s', x) {
      assert EntryOk(m, fixed, s, x);
      var l := Link(s.table[x].nextHop, x);
      forall i | 0 <= i < |s'.chan[l]| ensures AtLeast(fixed, NoteRank(s'.chan[l][i]), Basis(m, s', x)) {
        assert rest[l][i] in s.chan[l];
      }
    }
  }

  /** Every step keeps the invariant and makes no node's knowledge worse. */
  lemma NextInv(m: Mesh, fixed: bool, s: State, step: Step, s': State)
    requires WellFormed(m) && (fixed ==> FixedCosts(m))
    requires Inv(m, fixed, s) && Next(m, s, step, s')
    ensures Inv(m, fixed, s') && Improves(m, fixed, s, s')
  {
    match step
    case Emit(out) => EmitInv(m, fixed, s, out, s');
    case Take(l, accept, out) => TakeInv(m, fixed, s, l, accept, out, s');
    case Drop(l, i) => DropInv(m, fixed, s, l, i, s');
    case Idle =>
  }

  lemma DropInv(m: Mesh, fixed: bool, s: State, l: Link, i: nat, s': State)
    requires Inv(m, fixed, s) && Next(m, s, Drop(l, i), s')
    ensures Inv(m, fixed, s') && Improves(m, fixed, s, s')
  {
    RestInv(m, fixed, s, s.chan[l := s.chan[l][..i] + s.chan[l][i + 1..]], s');
  }

  // ----- Loop freedom

  /** `a` is strictly better than `b`: a newer sequence number, or the same with a smaller metric. */
  predicate Better(a: Rank, b: Rank) {
    a.sn > b.sn || (a.sn == b.sn && a.metric < b.metric)
  }

  /** Along every next hop the rank strictly improves. */
  lemma NextHopBetter(m: Mesh, fixed: bool, s: State, x: Mac)
    requires WellFormed(m) && Inv(m, fixed, s) && x in s.table
    ensures Knows(m, s, s.table[x].nextHop)
    ensures s.table[x].nextHop in m.nodes
    ensures Better(RankAt(m, s, s.table[x].nextHop), RankAt(m, s, x))
  {
    assert EntryOk(m, fixed, s, x);
    assert 1 <= m.cost(s.table[x].sn, Link(s.table[x].nextHop, x));
  }

  /** `p` follows next hops from `p[0]`; all but its last node hold an entry. */
  predicate Forwarding(s: State, p: seq<Mac>) {
    |p| >= 1 && forall i | 0 <= i < |p| - 1 :: p[i] in s.table && s.table[p[i]].nextHop == p[i + 1]
  }

  lemma {:induction false} ForwardingBetter(m: Mesh, fixed: bool, s: State, p: seq<Mac>)
    requires WellFormed(m) && Inv(m, fixed, s) && Forwarding(s, p) && |p| >= 2
    ensures Knows(m, s, p[|p| - 1]) && p[|p| - 1] in m.nodes
    ensures Better(RankAt(m, s, p[|p| - 1]), RankAt(m, s, p[0]))
  {
    var k := |p| - 2;
    assert p[k] in s.table;
    NextHopBetter(m, fixed, s, p[k]);
    if k > 0 {
      var q := p[..k + 1];
      assert q[|q| - 1] == p[k];
      ForwardingBetter(m, fixed, s, q);
    }
  }

  /** No chain of next hops ever comes back to where it started. */
  lemma NoForwardingLoop(m: Mesh, fixed: bool, s: State, p: seq<Mac>)
    requires WellFormed(m) && Inv(m, fixed, s) && Forwarding(s, p) && |p| >= 2
    ensures p[0] != p[|p| - 1]
  {
    ForwardingBetter(m, fixed, s, p);
  }

  /** From every filled entry, next hops lead to the originator in fewer hops than there are nodes. */
  lemma ForwardingReachesOrigin(m: Mesh, fixed: bool, s: State, x: Mac) returns (p: seq<Mac>)
    requires WellFormed(m) && Inv(m, fixed, s) && x in s.table
    ensures Forwarding(s, p) && p[0] == x && p[|p| - 1] == m.origin
    ensures |p| <= |m.nodes|
  {
    assert EntryOk(m, fixed, s, x);
    p := [x];
    ghost var seen := {x};
    while p[|p| - 1] != m.origin
      invariant Forwarding(s, p) && p[0] == x
      invariant Knows(m, s, p[|p| - 1])
      invariant seen == (set y | y in p) && |seen| == |p|
      invariant seen <= m.nodes
      decreases |m.nodes| - |p|
    {
      var y := p[|p| - 1];
      NextHopBetter(m, fixed, s, y);
      var z := s.table[y].nextHop;
      var q := p + [z];
      assert Forwarding(s, q);
      forall i | 0 <= i < |p| ensures p[i] != z {
        var c := q[i..];
        assert Forwarding(s, c) by {
          forall j | 0 <= j < |c| - 1 ensures c[j] in s.table && s.table[c[j]].nextHop == c[j + 1] {
            assert c[j] == q[i + j] && c[j + 1] == q[i + j + 1];
          }
        }
        NoForwardingLoop(m, fixed, s, c);
        assert c[0] == p[i] && c[|c| - 1] == z;
      }
      seen := seen + {z};
      SubsetSize(seen, m.nodes);
      assert forall y' | y' in q :: y' in p || y' == z;
      p := q;
    }
    SubsetSize(seen, m.nodes);
  }
}
