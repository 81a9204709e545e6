/**
 Every event of the concrete mesh is a step of `OriginProtocol` for every originator, so the
 concrete mesh inherits its invariant: loop freedom, the metric and hop-count bounds.
 */
module MeshRefinement {
  import opened MeshTypes
  import opened MeshNode
  import opened OriginProtocol
  import opened MeshNetwork

  /** The reception of `p` stored it. */
  predicate Stores(n: Node, stas: map<Mac, nat>, t0: int, t1: int, sa: Mac, p: Pann) {
    && p.orig != n.addr && sa in stas
    && Relay(n, t0, p.target).Some?
    && !Refused(n, Looked(n.paths, p.orig, t0), p, Learned(n, p, sa, stas[sa], t1), t1)
  }

  predicate ForwardsOn(n: Node, stas: map<Mac, nat>, t0: int, t1: int, sa: Mac, p: Pann)
    requires Stores(n, stas, t0, t1, sa, p)
  {
    var before, e := Looked(n.paths, p.orig, t0), Learned(n, p, sa, stas[sa], t1);
    Forwards(n, p, before, before[p.orig := e], t1)
  }

  /** The step of originator `o`'s protocol that event `ev` amounts to. */
  function StepFor(t: Topology, net: Net, ev: Event, o: Mac): OriginProtocol.Step
    requires o in net.nodes
  {
    match ev
    case RootTimer(x) =>
      if x == o && net.nodes[o].isRoot then Emit(Out(t.links, o, BROADCAST)) else Idle
    case Status(x, gate) =>
      if x == o && gate && !net.nodes[o].isGate && !net.nodes[o].isRoot then Emit(Out(t.links, o, BROADCAST)) else Idle
    case WithdrawTimer(_) => Idle
    case Housekeeping(_, _) => Idle
    case Lose(l, i) =>
      if l in net.chan && i < |net.chan[l]| && net.chan[l][i].orig == o
      then Drop(l, |Notes(net.chan[l][..i], o)|) else Idle
    case Deliver(l, stas, t0, t1) =>
      if l !in net.chan || net.chan[l] == [] || l.dst !in net.nodes then Idle
      else
        var p, n := net.chan[l][0], net.nodes[l.dst];
        var stores := Stores(n, stas, t0, t1, l.src, p);
        if p.orig == o then
          Take(l, stores,
               if stores && ForwardsOn(n, stas, t0, t1, l.src, p)
               then Out(t.links, l.dst, Relay(n, t0, p.target).value) else {})
        else if l.dst == o && stores && p.replyRequested then Emit(Out(t.links, o, l.src))
        else Idle
  }

  lemma MeshWellFormed(t: Topology, net: Net, o: Mac)
    requires Proper(t, net.nodes) && o in net.nodes
    ensures WellFormed(MeshFor(t, net, o))
  {
    var m := MeshFor(t, net, o);
    forall sn: nat, l: Link | l in m.links ensures 1 <= m.cost(sn, l) <= m.maxCost {
      assert m.cost(sn, l) == t.cost(o, sn, l);
    }
  }

  lemma OutFrom(t: Topology, net: Net, o: Mac, x: Mac, da: Mac)
    requires o in net.nodes
    ensures Out(t.links, x, da) <= From(MeshFor(t, net, o), x)
    ensures da == BROADCAST ==> Out(t.links, x, da) == From(MeshFor(t, net, o), x)
  {
  }

  // ----- Announcements

  lemma AnnounceFrames(chan: map<Link, seq<Pann>>, n: Node, o: Mac)
    requires n.sn < MAX_SN
    ensures ChanOf(Send(chan, n.addr, Announce(n).1), o) ==
            if n.addr == o && n.isRoot then Push(ChanOf(chan, o), Out(chan.Keys, o, BROADCAST), Note(n.sn + 1, 0, 0))
            else ChanOf(chan, o)
  {
    if n.addr == o && n.isRoot {
      var f := Announce(n).1[0];
      assert Announce(n).1 == [f] && NoteOf(f.pann) == Note(n.sn + 1, 0, 0);
      SendOne(chan, o, f, o);
    } else {
      SendNone(chan, n.addr, Announce(n).1, o);
    }
  }

  lemma AnnounceSim(t: Topology, net: Net, o: Mac, x: Mac, n: Node, net': Net)
    requires net.chan.Keys == t.links && o in net.nodes && x in net.nodes && SnRoom(net, x) && net.nodes[x].addr == x
    requires n == net.nodes[x].(isRoot := n.isRoot, isGate := n.isGate)
    requires net' == After(net, x, Announce(n), net.chan, net.clock)
    ensures StateOf(net', o) ==
            if x == o && n.isRoot
            then State(net.nodes[o].sn + 1, TableOf(net.nodes, o),
                       Push(ChanOf(net.chan, o), Out(t.links, o, BROADCAST), Note(net.nodes[o].sn + 1, 0, 0)))
            else StateOf(net, o)
  {
    var r := Announce(n);
    TableUntouched(net, x, r.0, o);
    AnnounceFrames(net.chan, n, o);
  }

  // ----- Reception

  /** The numbers of an announcement in flight never overflow when its receiver adds its own. */
  lemma NoOverflow(m: Mesh, s: State, l: Link, j: nat, p: Pann, link: nat)
    requires WellFormed(m) && Inv(m, false, s) && l in m.links && j < |s.chan[l]| && s.chan[l][j] == NoteOf(p)
    requires link == m.cost(p.sn, l)
    ensures U8(p.hopCount + 1) == p.hopCount + 1 <= 255
    ensures AddMetric(p.metric, link) == p.metric + link <= MAX_METRIC
  {
    assert NoteOk(m, false, s, l.src, s.chan[l][j]);
    assert p.hopCount <= 254;
    HopsFit(m.maxCost, p.hopCount);
  }

  /** What a reception does, in terms of the two decisions it takes. */
  lemma ReceiveShape(n: Node, stas: map<Mac, nat>, t0: int, t1: int, sa: Mac, p: Pann)
    ensures var r := Receive(n, stas, t0, t1, sa, p);
            && r.0 == n.(paths := r.0.paths, sn := r.0.sn)
            && (forall a | a != p.orig :: (a in r.0.paths <==> a in n.paths) && (a in n.paths ==>
                r.0.paths[a] == n.paths[a]))
            && if Stores(n, stas, t0, t1, sa, p) then
                 var e := Learned(n, p, sa, stas[sa], t1);
                 && p.orig in r.0.paths && r.0.paths[p.orig] == e
                 && r.0.sn == (if p.replyRequested then U64(n.sn + 1) else n.sn)
                 && r.1 == (if p.replyRequested then [Reply(n, p, sa)] else [])
                          + (if ForwardsOn(n, stas, t0, t1, sa, p)
                             then [Forward(p, Relay(n, t0, p.target).value, e)] else [])
               else
                 && r.0.sn == n.sn && r.1 == []
                 && (p.orig in n.paths ==> p.orig in r.0.paths && r.0.paths[p.orig] == n.paths[p.orig])
                 && (p.orig !in n.paths && p.orig in r.0.paths ==> r.0.paths[p.orig] == Placeholder(p.orig, t0))
  {
  }

  /** An announcement of `o` itself arrives. */
  lemma DeliverOwn(t: Topology, net: Net, ev: Event, net': Net, o: Mac)
    requires Shape(t, net) && o in net.nodes && Inv(MeshFor(t, net, o), false, StateOf(net, o))
    requires ev.Deliver? && MeshNetwork.Step(net, ev, net') && Benign(t, net, ev)
    requires net.chan[ev.link][0].orig == o
    ensures Next(MeshFor(t, net, o), StateOf(net, o), StepFor(t, net, ev, o), StateOf(net', o))
  {
    var Deliver(l, stas, t0, t1) := ev;
    var m, s, s' := MeshFor(t, net, o), StateOf(net, o), StateOf(net', o);
    var p, n := net.chan[l][0], net.nodes[l.dst];
    var rest := net.chan[l := net.chan[l][1..]];
    TakeHead(net.chan, l, o);
    ReceiveShape(n, stas, t0, t1, l.src, p);
    if Stores(n, stas, t0, t1, l.src, p) {
      StoredOwn(t, net, ev, net', o);
    } else {
      SendNone(rest, l.dst, [], o);
      assert s'.chan == ChanOf(rest, o);
      TableUntouched(net, l.dst, net'.nodes[l.dst], o);
    }
  }

  lemma TableUntouched(net: Net, x: Mac, n: Node, o: Mac)
    requires x in net.nodes
    requires o in net.nodes[x].paths && net.nodes[x].paths[o].Filled() ==>
              o in n.paths && n.paths[o] == net.nodes[x].paths[o]
    requires o in n.paths && n.paths[o].Filled() ==> o in net.nodes[x].paths && n.paths[o] == net.nodes[x].paths[o]
    ensures TableOf(net.nodes[x := n], o) == TableOf(net.nodes, o)
  {
  }

  lemma ReplyThenForward(chan: map<Link, seq<Pann>>, x: Mac, reply: seq<Frame>, f: Frame, o: Mac)
    requires f.pann.orig == o && forall g <- reply :: g.pann.orig != o
    ensures ChanOf(Send(chan, x, reply + [f]), o) == Push(ChanOf(chan, o), Out(chan.Keys, x, f.da), NoteOf(f.pann))
  {
    SendNone(chan, x, reply, o);
    SendAppend(chan, x, reply, [f]);
    SendOne(Send(chan, x, reply), x, f, o);
  }

  lemma PushNothing(chan: map<Link, seq<Note>>, n: Note)
    ensures Push(chan, {}, n) == chan
  {
  }

  /** The frames of a storing reception, seen from the announcement's originator. */
  lemma StoredFrames(t: Topology, chan: map<Link, seq<Pann>>, n: Node, stas: map<Mac, nat>, t0: int, t1: int,
          sa: Mac, p: Pann)
    requires Stores(n, stas, t0, t1, sa, p) && chan.Keys == t.links
    ensures var frames := Receive(n, stas, t0, t1, sa, p).1;
            var e := Learned(n, p, sa, stas[sa], t1);
            ChanOf(Send(chan, n.addr, frames), p.orig)
            == Push(ChanOf(chan, p.orig),
                    if ForwardsOn(n, stas, t0, t1, sa, p)
                    then Out(t.links, n.addr, Relay(n, t0, p.target).value) else {},
                    Note(p.sn, e.metric, e.hopCount))
  {
    ReceiveShape(n, stas, t0, t1, sa, p);
    var e := Learned(n, p, sa, stas[sa], t1);
    var reply := if p.replyRequested then [Reply(n, p, sa)] else [];
    if ForwardsOn(n, stas, t0, t1, sa, p) {
      ReplyThenForward(chan, n.addr, reply, Forward(p, Relay(n, t0, p.target).value, e), p.orig);
    } else {
      assert reply + [] == reply;
      SendNone(chan, n.addr, reply, p.orig);
      PushNothing(ChanOf(chan, p.orig), Note(p.sn, e.metric, e.hopCount));
    }
  }

  lemma StoredTable(net: Net, x: Mac, n: Node, o: Mac)
    requires x in net.nodes && x != o && o in n.paths && n.paths[o].Filled()
    ensures TableOf(net.nodes[x := n], o) == TableOf(net.nodes, o)[x := EntryOf(n.paths[o])]
  {
  }

  lemma StoredOwn(t: Topology, net: Net, ev: Event, net': Net, o: Mac)
    requires Shape(t, net) && o in net.nodes && Inv(MeshFor(t, net, o), false, StateOf(net, o))
    requires ev.Deliver? && MeshNetwork.Step(net, ev, net') && Benign(t, net, ev)
    requires net.chan[ev.link][0].orig == o
    requires Stores(net.nodes[ev.link.dst], ev.stas, ev.t0, ev.t1, ev.link.src, net.chan[ev.link][0])
    ensures Next(MeshFor(t, net, o), StateOf(net, o), StepFor(t, net, ev, o), StateOf(net', o))
  {
    var l, n, p := ev.link, net.nodes[ev.link.dst], net.chan[ev.link][0];
    MeshWellFormed(t, net, o);
    LearnedIsArrival(t, net, ev, o);
    StoredState(t, net, ev, net', o);
    StoredAcceptable(t, net, ev, o);
    assert PannOk(net.nodes, net.chan[l][0]);
    OutFrom(t, net, o, l.dst, Relay(n, ev.t0, p.target).value);
  }

  /** What the receiver stores is what the protocol says arrives. */
  lemma LearnedIsArrival(t: Topology, net: Net, ev: Event, o: Mac)
    requires net.chan.Keys == t.links && o in net.nodes
    requires WellFormed(MeshFor(t, net, o)) && Inv(MeshFor(t, net, o), false, StateOf(net, o))
    requires ev.Deliver? && ev.link in net.chan && |net.chan[ev.link]| > 0 && ev.link.dst in net.nodes
    requires net.chan[ev.link][0].orig == o && ev.link.src in ev.stas
    requires var p := net.chan[ev.link][0]; ev.stas[ev.link.src] == t.cost(p.orig, p.sn, ev.link)
    ensures var m, p, l := MeshFor(t, net, o), net.chan[ev.link][0], ev.link;
            EntryOf(Learned(net.nodes[l.dst], p, l.src, ev.stas[l.src], ev.t1)) == Arrival(m, l, NoteOf(p))
  {
    var m, l, p := MeshFor(t, net, o), ev.link, net.chan[ev.link][0];
    TakeHead(net.chan, l, o);
    assert ev.stas[l.src] == m.cost(p.sn, l);
    NoOverflow(m, StateOf(net, o), l, 0, p, ev.stas[l.src]);
  }

  /** The state a storing reception leads to. */
  lemma StoredState(t: Topology, net: Net, ev: Event, net': Net, o: Mac)
    requires net.chan.Keys == t.links && o in net.nodes
    requires forall x <- net.nodes :: x != ZERO_MAC && net.nodes[x].addr == x
    requires ev.Deliver? && MeshNetwork.Step(net, ev, net') && ev.link.src in net.nodes
    requires net.chan[ev.link][0].orig == o
    requires Stores(net.nodes[ev.link.dst], ev.stas, ev.t0, ev.t1, ev.link.src, net.chan[ev.link][0])
    ensures var s, s', l, p := StateOf(net, o), StateOf(net', o), ev.link, net.chan[ev.link][0];
            var e := EntryOf(Learned(net.nodes[l.dst], p, l.src, ev.stas[l.src], ev.t1));
            && l in s.chan && |s.chan[l]| > 0 && s.chan[l][0] == NoteOf(p)
            && s' == State(s.sn, s.table[l.dst := e],
                           Push(s.chan[l := s.chan[l][1..]], StepFor(t, net, ev, o).out, Note(e.sn, e.metric, e.hops)))
  {
    var Deliver(l, stas, t0, t1) := ev;
    var p, n := net.chan[l][0], net.nodes[l.dst];
    TakeHead(net.chan, l, o);
    ReceiveShape(n, stas, t0, t1, l.src, p);
    StoredTable(net, l.dst, net'.nodes[l.dst], o);
    StoredFrames(t, net.chan[l := net.chan[l][1..]], n, stas, t0, t1, l.src, p);
  }

  /** The staleness test of the code is the acceptance test of the protocol while entries are fresh. */
  lemma StoredAcceptable(t: Topology, net: Net, ev: Event, o: Mac)
    requires Shape(t, net) && o in net.nodes
    requires ev.Deliver? && ev.link in t.links && |net.chan[ev.link]| > 0 && Benign(t, net, ev)
    requires net.chan[ev.link][0].orig == o
    requires net.clock <= ev.t0 < ev.t1
    requires ev.link.src in ev.stas
    ensures var n, p := net.nodes[ev.link.dst], net.chan[ev.link][0];
            var metric := AddMetric(p.metric, ev.stas[ev.link.src]);
            o != ev.link.dst ==>
              (Stale(Looked(n.paths, o, ev.t0)[o], ev.t1, ev.link.src, p.sn, metric)
               <==> !Acceptable(StateOf(net, o), ev.link, NoteOf(p), metric))
  {
    var n := net.nodes[ev.link.dst];
    assert TableOk(net.nodes, ev.link.dst, net.clock);
    var before := Looked(n.paths, o, ev.t0);
    if !before[o].Filled() { assert before[o].Expired(ev.t1); }
  }

  /** Of the frames only the first, if `replies`, is of originator `o`: it is numbered `sn` and goes to `sa`. */
  predicate RepliesWith(frames: seq<Frame>, replies: bool, o: Mac, sa: Mac, sn: nat) {
    if replies then
      && frames != [] && frames[0].da == sa && frames[0].pann.orig == o && NoteOf(frames[0].pann) == Note(sn, 0, 0)
      && forall f <- frames[1..] :: f.pann.orig != o
    else forall f <- frames :: f.pann.orig != o
  }

  /** The frames of a reception, seen from another originator. */
  lemma OtherFrames(n: Node, stas: map<Mac, nat>, t0: int, t1: int, sa: Mac, p: Pann, o: Mac)
    returns (frames: seq<Frame>)
    requires p.orig != o && n.sn < MAX_SN
    ensures frames == Receive(n, stas, t0, t1, sa, p).1
    ensures RepliesWith(frames, Stores(n, stas, t0, t1, sa, p) && p.replyRequested && n.addr == o, o, sa, n.sn + 1)
  {
    ReceiveShape(n, stas, t0, t1, sa, p);
    NoWrap(n.sn);
    frames := Receive(n, stas, t0, t1, sa, p).1;
  }

  lemma OtherSent(chan: map<Link, seq<Pann>>, x: Mac, frames: seq<Frame>, replies: bool, o: Mac, sa: Mac, sn: nat)
    requires RepliesWith(frames, replies, o, sa, sn)
    ensures replies ==> ChanOf(Send(chan, x, frames), o) == Push(ChanOf(chan, o), Out(chan.Keys, x, sa), Note(sn, 0, 0))
    ensures !replies ==> ChanOf(Send(chan, x, frames), o) == ChanOf(chan, o)
  {
    if replies {
      var f, rest := frames[0], frames[1..];
      assert frames == [f] + rest;
      SendAppend(chan, x, [f], rest);
      SendOne(chan, x, f, o);
      SendNone(Send(chan, x, [f]), x, rest, o);
    } else {
      SendNone(chan, x, frames, o);
    }
  }

  lemma NoWrap(sn: nat)
    requires sn < MAX_SN
    ensures U64(sn + 1) == sn + 1
  {
  }

  /** Node `o` answers somebody else's announcement: all that such an arrival can be to it. */
  predicate Replies(net: Net, ev: Event, o: Mac)
    requires ev.Deliver? && ev.link in net.chan && net.chan[ev.link] != [] && ev.link.dst in net.nodes
  {
    var p := net.chan[ev.link][0];
    ev.link.dst == o && Stores(net.nodes[ev.link.dst], ev.stas, ev.t0, ev.t1, ev.link.src, p) && p.replyRequested
  }

  lemma OtherTable(net: Net, ev: Event, net': Net, o: Mac)
    requires o in net.nodes && ev.Deliver? && MeshNetwork.Step(net, ev, net') && SnRoom(net, ev.link.dst)
    requires net.chan[ev.link][0].orig != o
    ensures o in net'.nodes && TableOf(net'.nodes, o) == TableOf(net.nodes, o)
    ensures net'.nodes[o].sn == if Replies(net, ev, o) then net.nodes[o].sn + 1 else net.nodes[o].sn
  {
    var Deliver(l, stas, t0, t1) := ev;
    ReceiveShape(net.nodes[l.dst], stas, t0, t1, l.src, net.chan[l][0]);
    TableUntouched(net, l.dst, net'.nodes[l.dst], o);
  }

  /** All that `o` sees of a reception of somebody else's: its own reply, if there is one. */
  predicate OnlyReply(chan: map<Link, seq<Pann>>, chan': map<Link, seq<Pann>>, replies: bool, o: Mac, sa: Mac, sn: nat)
  {
    ChanOf(chan', o) ==
    if replies then Push(ChanOf(chan, o), Out(chan.Keys, o, sa), Note(sn, 0, 0)) else ChanOf(chan, o)
  }

  lemma TakenAndSent(chan: map<Link, seq<Pann>>, chan': map<Link, seq<Pann>>, l: Link, frames: seq<Frame>,
                     replies: bool, o: Mac, sn: nat)
    requires l in chan && chan[l] != [] && chan[l][0].orig != o
    requires RepliesWith(frames, replies, o, l.src, sn) && (replies ==> l.dst == o)
    requires chan' == Send(chan[l := chan[l][1..]], l.dst, frames)
    ensures OnlyReply(chan, chan', replies, o, l.src, sn)
  {
    var rest := chan[l := chan[l][1..]];
    TakeHead(chan, l, o);
    OtherSent(rest, l.dst, frames, replies, o, l.src, sn);
    assert rest.Keys == chan.Keys;
  }

  lemma DeliveredChannels(net: Net, ev: Event, net': Net, frames: seq<Frame>)
    requires ev.Deliver? && MeshNetwork.Step(net, ev, net')
    requires frames == Receive(net.nodes[ev.link.dst], ev.stas, ev.t0, ev.t1, ev.link.src, net.chan[ev.link][0]).1
    ensures net'.chan == Send(net.chan[ev.link := net.chan[ev.link][1..]], ev.link.dst, frames)
  {
  }

  lemma OtherChannels(net: Net, ev: Event, net': Net, o: Mac)
    requires ev.Deliver? && MeshNetwork.Step(net, ev, net') && net.chan[ev.link][0].orig != o
    requires net.nodes[ev.link.dst].addr == ev.link.dst && SnRoom(net, ev.link.dst)
    ensures OnlyReply(net.chan, net'.chan, Replies(net, ev, o), o, ev.link.src, net.nodes[ev.link.dst].sn + 1)
  {
    var n := net.nodes[ev.link.dst];
    var frames := OtherFrames(n, ev.stas, ev.t0, ev.t1, ev.link.src, net.chan[ev.link][0], o);
    DeliveredChannels(net, ev, net', frames);
    TakenAndSent(net.chan, net'.chan, ev.link, frames, Replies(net, ev, o), o, n.sn + 1);
  }

  lemma OtherState(t: Topology, net: Net, ev: Event, net': Net, o: Mac)
    requires net.chan.Keys == t.links && o in net.nodes
    requires forall x <- net.nodes :: net.nodes[x].addr == x
    requires ev.Deliver? && MeshNetwork.Step(net, ev, net') && SnRoom(net, ev.link.dst)
    requires net.chan[ev.link][0].orig != o
    ensures StateOf(net', o) ==
            if Replies(net, ev, o)
            then State(net.nodes[o].sn + 1, TableOf(net.nodes, o),
                       Push(ChanOf(net.chan, o), Out(t.links, o, ev.link.src), Note(net.nodes[o].sn + 1, 0, 0)))
            else StateOf(net, o)
  {
    OtherTable(net, ev, net', o);
    OtherChannels(net, ev, net', o);
  }

  lemma OtherStep(t: Topology, net: Net, ev: Event, o: Mac)
    requires o in net.nodes && ev.Deliver?
    requires ev.link in net.chan && net.chan[ev.link] != [] && ev.link.dst in net.nodes
    requires net.chan[ev.link][0].orig != o
    ensures StepFor(t, net, ev, o) == if Replies(net, ev, o) then Emit(Out(t.links, o, ev.link.src)) else Idle
  {
  }

  lemma EmitOrIdle(m: Mesh, s: State, s': State, emits: bool, out: set<Link>)
    requires s' == if emits then State(s.sn + 1, s.table, Push(s.chan, out, Note(s.sn + 1, 0, 0))) else s
    requires emits ==> out <= From(m, m.origin)
    ensures Next(m, s, if emits then Emit(out) else Idle, s')
  {
  }

  /** An announcement of another originator arrives. */
  lemma DeliverOther(t: Topology, net: Net, ev: Event, net': Net, o: Mac)
    requires net.chan.Keys == t.links && o in net.nodes
    requires forall x <- net.nodes :: net.nodes[x].addr == x
    requires ev.Deliver? && MeshNetwork.Step(net, ev, net') && SnRoom(net, ev.link.dst)
    requires net.chan[ev.link][0].orig != o
    ensures Next(MeshFor(t, net, o), StateOf(net, o), StepFor(t, net, ev, o), StateOf(net', o))
  {
    OtherState(t, net, ev, net', o);
    OtherStep(t, net, ev, o);
    OutFrom(t, net, o, o, ev.link.src);
    EmitOrIdle(MeshFor(t, net, o), StateOf(net, o), StateOf(net', o), Replies(net, ev, o),
               Out(t.links, o, ev.link.src));
  }

  lemma HousekeepingSim(net: Net, x: Mac, now: int, o: Mac)
    requires x in net.nodes && NothingErased(net, x, now)
    ensures var n := net.nodes[x];
            TableOf(net.nodes[x := n.(paths := Housekeep(n.paths, now))], o) == TableOf(net.nodes, o)
  {
    var n := net.nodes[x];
    TableUntouched(net, x, n.(paths := Housekeep(n.paths, now)), o);
  }

  // ----- The refinement

  lemma Refines(t: Topology, net: Net, ev: Event, net': Net, o: Mac)
    requires Shape(t, net) && o in net.nodes && Inv(MeshFor(t, net, o), false, StateOf(net, o))
    requires MeshNetwork.Step(net, ev, net') && Benign(t, net, ev)
    ensures o in net'.nodes
    ensures Next(MeshFor(t, net, o), StateOf(net, o), StepFor(t, net, ev, o), StateOf(net', o))
  {
    match ev
    case RootTimer(x) => RootTimerRefines(t, net, x, net', o);
    case Status(x, gate) => StatusRefines(t, net, x, gate, net', o);
    case WithdrawTimer(x) =>
      TableUntouched(net, x, net'.nodes[x], o);
    case Housekeeping(x, now) =>
      HousekeepingSim(net, x, now, o);
    case Deliver(l, _, _, _) =>
      if net.chan[l][0].orig == o { DeliverOwn(t, net, ev, net', o); } else { DeliverOther(t, net, ev, net', o); }
    case Lose(l, i) => LoseRefines(t, net, ev, net', o);
  }

  lemma LoseRefines(t: Topology, net: Net, ev: Event, net': Net, o: Mac)
    requires o in net.nodes && ev.Lose? && MeshNetwork.Step(net, ev, net')
    ensures Next(MeshFor(t, net, o), StateOf(net, o), StepFor(t, net, ev, o), StateOf(net', o))
  {
    DropAt(net.chan, ev.link, ev.index, o);
  }

  /** The event makes `o` announce itself. */
  predicate Announcing(net: Net, ev: Event, o: Mac)
    requires o in net.nodes && (ev.RootTimer? || ev.Status?)
  {
    var n := net.nodes[o];
    ev.x == o && if ev.RootTimer? then n.isRoot else ev.gate && !n.isGate && !n.isRoot
  }

  lemma TimerStep(t: Topology, net: Net, ev: Event, o: Mac)
    requires o in net.nodes && (ev.RootTimer? || ev.Status?)
    ensures StepFor(t, net, ev, o) == if Announcing(net, ev, o) then Emit(Out(t.links, o, BROADCAST)) else Idle
  {
  }

  lemma RootTimerRefines(t: Topology, net: Net, x: Mac, net': Net, o: Mac)
    requires net.chan.Keys == t.links && o in net.nodes && x in net.nodes && net.nodes[x].addr == x && SnRoom(net, x)
    requires net' == After(net, x, Announce(net.nodes[x]), net.chan, net.clock)
    ensures o in net'.nodes
    ensures Next(MeshFor(t, net, o), StateOf(net, o), StepFor(t, net, RootTimer(x), o), StateOf(net', o))
  {
    OutFrom(t, net, o, o, BROADCAST);
    AnnounceSim(t, net, o, x, net.nodes[x], net');
    EmitOrIdle(MeshFor(t, net, o), StateOf(net, o), StateOf(net', o), x == o &&
       net.nodes[o].isRoot, Out(t.links, o, BROADCAST));
  }

  lemma StatusRefines(t: Topology, net: Net, x: Mac, gate: bool, net': Net, o: Mac)
    requires net.chan.Keys == t.links && o in net.nodes && x in net.nodes && net.nodes[x].addr == x && SnRoom(net, x)
    requires net' == After(net, x, SetStatus(net.nodes[x], gate), net.chan, net.clock)
    ensures o in net'.nodes
    ensures Next(MeshFor(t, net, o), StateOf(net, o), StepFor(t, net, Status(x, gate), o), StateOf(net', o))
  {
    OutFrom(t, net, o, o, BROADCAST);
    StatusSim(t, net, o, x, gate, net');
    EmitOrIdle(MeshFor(t, net, o), StateOf(net, o), StateOf(net', o),
               x == o && gate && !net.nodes[o].isGate && !net.nodes[o].isRoot, Out(t.links, o, BROADCAST));
  }

  lemma StatusSim(t: Topology, net: Net, o: Mac, x: Mac, gate: bool, net': Net)
    requires net.chan.Keys == t.links && o in net.nodes && x in net.nodes && SnRoom(net, x) && net.nodes[x].addr == x
    requires net' == After(net, x, SetStatus(net.nodes[x], gate), net.chan, net.clock)
    ensures StateOf(net', o) ==
            if x == o && gate && !net.nodes[o].isGate && !net.nodes[o].isRoot
            then State(net.nodes[o].sn + 1, TableOf(net.nodes, o),
                       Push(ChanOf(net.chan, o), Out(t.links, o, BROADCAST), Note(net.nodes[o].sn + 1, 0, 0)))
            else StateOf(net, o)
  {
    var n := net.nodes[x];
    if n.isGate != gate && gate && !n.isRoot {
      AnnounceSim(t, net, o, x, n.(isGate := true, isRoot := true), net');
    } else {
      SendNone(net.chan, x, [], o);
      TableUntouched(net, x, net'.nodes[x], o);
    }
  }
}
