/**
 The whole mesh: nodes running `MeshNode` and a first-in first-out channel per directed
 link. Any node's timers may fire, any message may be delivered or lost, in any order.
 `StateOf` is what of it concerns one originator.
 */
module MeshNetwork {
  import opened MeshTypes
  import opened MeshNode
  import opened OriginProtocol
  import TopGates

  /** `cost(origin, sn, l)`: what the receiver of `l` charges for announcement `sn` of `origin`,
      never more than `maxCost`. */
  datatype Topology = Topology(links: set<Link>, cost: (Mac, nat, Link) -> nat, maxCost: nat)

  datatype Net = Net(nodes: map<Mac, Node>, chan: map<Link, seq<Pann>>, clock: int)

  datatype Event =
    | RootTimer(x: Mac)
    | Status(x: Mac, gate: bool)
    | WithdrawTimer(x: Mac)
    | Housekeeping(x: Mac, now: int)
    | Deliver(link: Link, stas: map<Mac, nat>, t0: int, t1: int)
    | Lose(link: Link, index: nat)

  /** What neighbour `y` hears of transmitted frames. */
  function Heard(frames: seq<Frame>, y: Mac): seq<Pann> {
    if frames == [] then []
    else (if frames[0].da == BROADCAST || frames[0].da == y then [frames[0].pann] else []) + Heard(frames[1..], y)
  }

  function Send(chan: map<Link, seq<Pann>>, x: Mac, frames: seq<Frame>): map<Link, seq<Pann>> {
    map l | l in chan :: if l.src == x then chan[l] + Heard(frames, l.dst) else chan[l]
  }

  /** Node `x` has done `r`, starting from `chan`. */
  function After(net: Net, x: Mac, r: (Node, seq<Frame>), chan: map<Link, seq<Pann>>, clock: int): Net {
    Net(net.nodes[x := r.0], Send(chan, x, r.1), clock)
  }

  function Dropped<T>(q: seq<T>, i: nat): seq<T>
    requires i < |q|
  {
    q[..i] + q[i + 1..]
  }

  ghost predicate Step(net: Net, ev: Event, net': Net) {
    match ev
    case RootTimer(x) =>
      x in net.nodes && net' == After(net, x, Announce(net.nodes[x]), net.chan, net.clock)
    case Status(x, gate) =>
      x in net.nodes && net' == After(net, x, SetStatus(net.nodes[x], gate), net.chan, net.clock)
    case WithdrawTimer(x) =>
      x in net.nodes && net' == net.(nodes := net.nodes[x := net.nodes[x].(isRoot := false)])
    case Housekeeping(x, now) =>
      && x in net.nodes && net.clock <= now
      && var n := net.nodes[x];
      net' == net.(nodes := net.nodes[x := n.(paths := Housekeep(n.paths, now))], clock := now)
    case Deliver(l, stas, t0, t1) =>
      && l in net.chan && |net.chan[l]| > 0 && l.dst in net.nodes && net.clock <= t0 <= t1
      && net' == After(net, l.dst, Receive(net.nodes[l.dst], stas, t0, t1, l.src, net.chan[l][0]),
                       net.chan[l := net.chan[l][1..]], t1)
    case Lose(l, i) =>
      && l in net.chan && i < |net.chan[l]|
      && net' == net.(chan := net.chan[l := Dropped(net.chan[l], i)])
  }

  // ----- Runs

  ghost predicate Follows(nets: seq<Net>, evs: seq<Event>, i: nat)
    requires |nets| == |evs| + 1 && i < |evs|
  {
    Step(nets[i], evs[i], nets[i + 1])
  }

  /** `nets[i + 1]` follows from `nets[i]` by `evs[i]`, from any state. */
  ghost predicate Stretch(nets: seq<Net>, evs: seq<Event>) {
    |nets| == |evs| + 1 && forall i {:trigger Follows(nets, evs, i)} | 0 <= i < |evs| :: Follows(nets, evs, i)
  }

  // ----- Assumptions

  const MAX_SN := 0xffff_ffff_ffff_ffff

  predicate SnRoom(net: Net, x: Mac) { x in net.nodes && net.nodes[x].sn < MAX_SN }

  /** Housekeeping at `now` would erase no filled entry of `x`. */
  ghost predicate NothingErased(net: Net, x: Mac, now: int)
    requires x in net.nodes
  {
    forall a | a in net.nodes[x].paths && net.nodes[x].paths[a].Filled() ::
      now <= net.nodes[x].paths[a].expTime + MESH_PATH_EXPIRE
  }

  /** The announcement does not get in by the expiry of the receiver's entry alone: the entry has not
      expired, or the announcement is neither older nor a detour that is no shorter. */
  predicate NotByExpiry(n: Node, stas: map<Mac, nat>, sa: Mac, p: Pann, now: int) {
    sa in stas && p.orig in n.paths && n.paths[p.orig].Filled() && n.paths[p.orig].Expired(now) ==>
      var e := n.paths[p.orig];
      e.sn <= p.sn && (e.nextHop == sa || AddMetric(p.metric, stas[sa]) < e.metric)
  }

  /** The receiver charges what the topology says for this announcement. */
  predicate Charged(t: Topology, l: Link, stas: map<Mac, nat>, p: Pann) {
    l.src in stas ==> stas[l.src] == t.cost(p.orig, p.sn, l)
  }

  /** The standing assumptions of loop freedom: a link's metric is fixed for one originator and sequence
      number, the clock moves during a reception, nothing gets in by expiry alone and no filled entry is
      erased, and no 64-bit counter wraps. */
  ghost predicate Benign(t: Topology, net: Net, ev: Event) {
    match ev
    case RootTimer(x) => SnRoom(net, x)
    case Status(x, _) => SnRoom(net, x)
    case WithdrawTimer(_) => true
    case Housekeeping(x, now) => x in net.nodes && NothingErased(net, x, now)
    case Deliver(l, stas, t0, t1) =>
      && SnRoom(net, l.dst) && t0 < t1
      && (l in net.chan && net.chan[l] != [] ==>
            Charged(t, l, stas, net.chan[l][0]) && NotByExpiry(net.nodes[l.dst], stas, l.src, net.chan[l][0], t1))
    case Lose(_, _) => true
  }

  ghost predicate Proper(t: Topology, nodes: map<Mac, Node>) {
    && (forall x <- nodes :: x != ZERO_MAC && x != BROADCAST && nodes[x].addr == x)
    && (forall l <- t.links :: l.src in nodes && l.dst in nodes && l.src != l.dst)
    && t.maxCost <= MAX_LINK_METRIC
    && (forall o: Mac, sn: nat, l: Link :: l in t.links ==> 1 <= t.cost(o, sn, l) <= t.maxCost)
  }

  ghost predicate NetInit(t: Topology, net: Net) {
    && Proper(t, net.nodes)
    && (forall x <- net.nodes :: net.nodes[x].sn == 0 && net.nodes[x].paths == map[])
    && net.chan.Keys == t.links && forall l <- t.links :: net.chan[l] == []
  }

  /** None of `o`'s announcements is in flight. */
  predicate Silent(net: Net, o: Mac) {
    forall l, i | l in net.chan && 0 <= i < |net.chan[l]| :: net.chan[l][i].orig != o
  }

  // ----- The view of one originator

  function NoteOf(p: Pann): Note { Note(p.sn, p.metric, p.hopCount) }

  function Notes(q: seq<Pann>, o: Mac): seq<Note> {
    if q == [] then [] else (if q[0].orig == o then [NoteOf(q[0])] else []) + Notes(q[1..], o)
  }

  function EntryOf(e: MeshPath): Entry { Entry(e.sn, e.metric, e.nextHop, e.hopCount) }

  predicate HasEntry(nodes: map<Mac, Node>, x: Mac, o: Mac) {
    x in nodes && x != o && o in nodes[x].paths && nodes[x].paths[o].Filled()
  }

  function TableOf(nodes: map<Mac, Node>, o: Mac): map<Mac, Entry> {
    map x | x in nodes && HasEntry(nodes, x, o) :: EntryOf(nodes[x].paths[o])
  }

  function ChanOf(chan: map<Link, seq<Pann>>, o: Mac): map<Link, seq<Note>> {
    map l | l in chan :: Notes(chan[l], o)
  }

  function StateOf(net: Net, o: Mac): State
    requires o in net.nodes
  {
    State(net.nodes[o].sn, TableOf(net.nodes, o), ChanOf(net.chan, o))
  }

  function MeshOf(t: Topology, nodes: set<Mac>, ttl: nat, o: Mac): Mesh {
    Mesh(o, nodes, t.links, (sn: nat, l: Link) => t.cost(o, sn, l), t.maxCost, ttl)
  }

  function MeshFor(t: Topology, net: Net, o: Mac): Mesh
    requires o in net.nodes
  {
    MeshOf(t, net.nodes.Keys, U8(net.nodes[o].elementTtl), o)
  }

  // ----- Invariants of the concrete network

  predicate PannOk(nodes: map<Mac, Node>, p: Pann) {
    p.orig in nodes && p.hopCount + p.ttl == U8(nodes[p.orig].elementTtl)
  }

  /** Table of node `x`: keyed by destination, never about `x` itself, placeholders in the past. */
  predicate TableOk(nodes: map<Mac, Node>, x: Mac, clock: int)
    requires x in nodes
  {
    var paths := nodes[x].paths;
    && x !in paths
    && TopGates.Keyed(paths)
    && forall a <- paths :: a in nodes && (!paths[a].Filled() ==> paths[a].expTime < clock)
  }

  ghost predicate Shape(t: Topology, net: Net) {
    && Proper(t, net.nodes)
    && net.chan.Keys == t.links
    && (forall x {:trigger TableOk(net.nodes, x, net.clock)} | x in net.nodes :: TableOk(net.nodes, x, net.clock))
    && (forall l, i {:trigger PannOk(net.nodes, net.chan[l][i])} | l in t.links && 0 <= i < |net.chan[l]| ::
        PannOk(net.nodes, net.chan[l][i]))
  }

  ghost predicate ViewOk(t: Topology, net: Net, o: Mac) {
    o in net.nodes && Inv(MeshFor(t, net, o), false, StateOf(net, o))
  }

  ghost predicate NetInv(t: Topology, net: Net) {
    Shape(t, net) && forall o {:trigger ViewOk(t, net, o)} | o in net.nodes :: ViewOk(t, net, o)
  }

  // ----- Projection lemmas

  lemma {:induction false} NotesAppend(a: seq<Pann>, b: seq<Pann>, o: Mac)
    ensures Notes(a + b, o) == Notes(a, o) + Notes(b, o)
  {
    if a == [] {
      assert a + b == b;
    } else {
      assert (a + b)[1..] == a[1..] + b;
      NotesAppend(a[1..], b, o);
      Reassociate(if a[0].orig == o then [NoteOf(a[0])] else [], Notes(a[1..], o), Notes(b, o));
    }
  }

  lemma {:induction false} HeardAppend(a: seq<Frame>, b: seq<Frame>, y: Mac)
    ensures Heard(a + b, y) == Heard(a, y) + Heard(b, y)
  {
    if a == [] {
      assert a + b == b;
    } else {
      assert (a + b)[1..] == a[1..] + b;
      HeardAppend(a[1..], b, y);
      Reassociate(if a[0].da == BROADCAST || a[0].da == y then [a[0].pann] else [], Heard(a[1..], y), Heard(b, y));
    }
  }

  lemma {:induction false} HeardFrom(frames: seq<Frame>, y: Mac, i: nat)
    requires i < |Heard(frames, y)|
    ensures exists f <- frames :: f.pann == Heard(frames, y)[i]
  {
    var first := if frames[0].da == BROADCAST || frames[0].da == y then [frames[0].pann] else [];
    if i < |first| {
      assert frames[0] in frames;
    } else {
      HeardFrom(frames[1..], y, i - |first|);
    }
  }

  lemma {:induction false} NoNotes(q: seq<Pann>, o: Mac)
    requires forall i | 0 <= i < |q| :: q[i].orig != o
    ensures Notes(q, o) == []
  {
    if q != [] { NoNotes(q[1..], o); }
  }

  lemma SendNone(chan: map<Link, seq<Pann>>, x: Mac, frames: seq<Frame>, o: Mac)
    requires forall f <- frames :: f.pann.orig != o
    ensures ChanOf(Send(chan, x, frames), o) == ChanOf(chan, o)
  {
    forall l | l in chan && l.src == x ensures Notes(chan[l] + Heard(frames, l.dst), o) == Notes(chan[l], o) {
      var h := Heard(frames, l.dst);
      NotesAppend(chan[l], h, o);
      forall i | 0 <= i < |h| ensures h[i].orig != o { HeardFrom(frames, l.dst, i); }
      NoNotes(h, o);
    }
  }

  /** The links a frame for `da`, sent by `x`, goes out on. */
  function Out(links: set<Link>, x: Mac, da: Mac): set<Link> {
    set l | l in links && l.src == x && (da == BROADCAST || da == l.dst)
  }

  lemma NotesOne(q: seq<Pann>, f: Frame, y: Mac, o: Mac)
    requires f.pann.orig == o
    ensures Notes(q + Heard([f], y), o) == Notes(q, o) + if f.da == BROADCAST || f.da == y then [NoteOf(f.pann)] else []
  {
    assert [f][1..] == [] && [f.pann][1..] == [];
    if f.da == BROADCAST || f.da == y {
      assert Heard([f], y) == [f.pann];
      assert Notes([f.pann], o) == [NoteOf(f.pann)];
    } else {
      assert Heard([f], y) == [];
    }
    NotesAppend(q, Heard([f], y), o);
  }

  lemma SendOne(chan: map<Link, seq<Pann>>, x: Mac, f: Frame, o: Mac)
    requires f.pann.orig == o
    ensures ChanOf(Send(chan, x, [f]), o) == Push(ChanOf(chan, o), Out(chan.Keys, x, f.da), NoteOf(f.pann))
  {
    var sent, pushed := ChanOf(Send(chan, x, [f]), o), Push(ChanOf(chan, o), Out(chan.Keys, x, f.da), NoteOf(f.pann));
    forall l | l in chan ensures sent[l] == pushed[l] {
      NotesOne(chan[l], f, l.dst, o);
      assert Notes(chan[l], o) + [] == Notes(chan[l], o);
    }
  }

  lemma SendAppend(chan: map<Link, seq<Pann>>, x: Mac, a: seq<Frame>, b: seq<Frame>)
    ensures Send(chan, x, a + b) == Send(Send(chan, x, a), x, b)
  {
    forall l | l in chan && l.src == x
      ensures chan[l] + Heard(a + b, l.dst) == chan[l] + Heard(a, l.dst) + Heard(b, l.dst)
    {
      HeardAppend(a, b, l.dst);
    }
  }

  lemma TakeHead(chan: map<Link, seq<Pann>>, l: Link, o: Mac)
    requires l in chan && |chan[l]| > 0
    ensures var p, rest := chan[l][0], chan[l := chan[l][1..]];
            if p.orig == o then
              |Notes(chan[l], o)| > 0 && Notes(chan[l], o)[0] == NoteOf(p)
              && ChanOf(rest, o) == ChanOf(chan, o)[l := ChanOf(chan, o)[l][1..]]
            else
              ChanOf(rest, o) == ChanOf(chan, o)
  {
    if chan[l][0].orig == o {
      assert Notes(chan[l], o)[1..] == Notes(chan[l][1..], o);
    } else {
      assert Notes(chan[l], o) == Notes(chan[l][1..], o);
    }
  }

  lemma DropAt(chan: map<Link, seq<Pann>>, l: Link, i: nat, o: Mac)
    requires l in chan && i < |chan[l]|
    ensures var p, rest, j := chan[l][i], chan[l := Dropped(chan[l], i)], |Notes(chan[l][..i], o)|;
            if p.orig == o then
              j < |Notes(chan[l], o)| && ChanOf(rest, o) == ChanOf(chan, o)[l := Dropped(ChanOf(chan, o)[l], j)]
            else
              ChanOf(rest, o) == ChanOf(chan, o)
  {
    var q := chan[l];
    var a, p, b := q[..i], q[i], q[i + 1..];
    assert q == a + ([p] + b);
    NotesAppend(a, [p] + b, o);
    NotesAppend([p], b, o);
    NotesAppend(a, b, o);
    assert [p][1..] == [];
    assert Notes([p], o) == if p.orig == o then [NoteOf(p)] else [];
    if p.orig == o {
      assert Dropped(Notes(q, o), |Notes(a, o)|) == Notes(a, o) + Notes(b, o);
    } else {
      assert Notes(q, o) == Notes(a, o) + Notes(b, o);
    }
  }
}
