/**
 Every flood dies out. Each announcement in flight carries a finite amount of work; a reception
 consumes more work than the reply and the forward it causes put back, and only the root timer
 and a gateway-status change create new work. Links are first-in first-out; nothing is assumed
 about expiry, loss, link metrics, routing loops or the interleaving of events.
 */
module FloodTermination {
  import opened MeshTypes
  import opened MeshNode
  import opened OriginProtocol
  import opened MeshNetwork
  import opened MeshRefinement

  // ----- Work carried by an announcement, on a mesh with `d` links

  /** An announcement nobody has to answer: itself, and `d` copies with a smaller TTL. */
  function Plain(ttl: nat, d: nat): nat {
    if ttl <= 1 then 1 else 1 + d * Plain(ttl - 1, d)
  }

  /** An announcement that also makes its receiver send a fresh, unanswered reply. */
  function Asking(ttl: nat, d: nat): nat {
    1 + d * Plain(255, d) + if ttl <= 1 then 0 else d * Asking(ttl - 1, d)
  }

  function Work(p: Pann, d: nat): nat {
    if p.replyRequested then Asking(p.ttl, d) else Plain(p.ttl, d)
  }

  function QueueWork(q: seq<Pann>, d: nat): nat {
    if q == [] then 0 else Work(q[0], d) + QueueWork(q[1..], d)
  }

  function FrameWork(frames: seq<Frame>, d: nat): nat {
    if frames == [] then 0 else Work(frames[0].pann, d) + FrameWork(frames[1..], d)
  }

  /** The work in flight on the links of `ls`. */
  function LinkWork(chan: map<Link, seq<Pann>>, ls: seq<Link>, d: nat): nat
    requires forall l <- ls :: l in chan
  {
    if ls == [] then 0 else QueueWork(chan[ls[0]], d) + LinkWork(chan, ls[1..], d)
  }

  /** `ls` lists every link exactly once. */
  predicate Lists(ls: seq<Link>, links: set<Link>) {
    && (forall l <- ls :: l in links) && (forall l <- links :: l in ls)
    && (forall i, j | 0 <= i < j < |ls| :: ls[i] != ls[j])
  }

  // ----- Arithmetic

  lemma {:induction false} PlainGrows(t: nat, u: nat, d: nat)
    requires t <= u
    ensures Plain(t, d) <= Plain(u, d)
  {
    if t < u {
      PlainGrows(t, u - 1, d);
      if u > 1 {
        if t <= 1 {
          PlainPositive(u, d);
        } else {
          PlainGrows(t - 1, u - 1, d);
          Scale(d, Plain(t - 1, d), Plain(u - 1, d));
        }
      }
    }
  }

  lemma PlainPositive(t: nat, d: nat)
    ensures Plain(t, d) >= 1
  {
  }

  lemma Scale(d: nat, a: nat, b: nat)
    requires a <= b
    ensures d * a <= d * b
  {
    assert d * b - d * a == d * (b - a);
  }

  lemma {:induction false} AskingGrows(t: nat, u: nat, d: nat)
    requires t <= u
    ensures Asking(t, d) <= Asking(u, d)
    decreases u
  {
    if t > 1 {
      AskingGrows(t - 1, u - 1, d);
      Scale(d, Asking(t - 1, d), Asking(u - 1, d));
    }
  }

  lemma {:induction false} QueueAppend(a: seq<Pann>, b: seq<Pann>, d: nat)
    ensures QueueWork(a + b, d) == QueueWork(a, d) + QueueWork(b, d)
  {
    if a == [] {
      assert a + b == b;
    } else {
      assert (a + b)[1..] == a[1..] + b;
      QueueAppend(a[1..], b, d);
    }
  }

  lemma {:induction false} HeardWork(frames: seq<Frame>, y: Mac, d: nat)
    ensures QueueWork(Heard(frames, y), d) <= FrameWork(frames, d)
  {
    if frames != [] {
      HeardWork(frames[1..], y, d);
      var first := if frames[0].da == BROADCAST || frames[0].da == y then [frames[0].pann] else [];
      QueueAppend(first, Heard(frames[1..], y), d);
      if first != [] { assert first[1..] == []; }
    }
  }

  // ----- Work moves only as the nodes move it

  lemma Distribute(k: nat, w: nat)
    ensures (k + 1) * w == k * w + w
  {
  }

  lemma LinkSendWork(chan: map<Link, seq<Pann>>, x: Mac, frames: seq<Frame>, l: Link, d: nat)
    requires l in chan
    ensures QueueWork(Send(chan, x, frames)[l], d) <= QueueWork(chan[l], d) + FrameWork(frames, d)
  {
    QueueAppend(chan[l], Heard(frames, l.dst), d);
    HeardWork(frames, l.dst, d);
  }

  /** Sending puts at most one copy of each frame on each link. */
  lemma {:induction false} SendWork(chan: map<Link, seq<Pann>>, x: Mac, frames: seq<Frame>, ls: seq<Link>, d: nat)
    requires forall l <- ls :: l in chan
    ensures LinkWork(Send(chan, x, frames), ls, d) <= LinkWork(chan, ls, d) + |ls| * FrameWork(frames, d)
  {
    if ls != [] {
      var rest := ls[1..];
      SendWork(chan, x, frames, rest, d);
      LinkSendWork(chan, x, frames, ls[0], d);
      Distribute(|rest|, FrameWork(frames, d));
    }
  }

  lemma {:induction false} RestWork(chan: map<Link, seq<Pann>>, l: Link, q: seq<Pann>, ls: seq<Link>, d: nat)
    requires (forall k <- ls :: k in chan) && (forall i, j | 0 <= i < j < |ls| :: ls[i] != ls[j])
    requires l in ls
    ensures LinkWork(chan[l := q], ls, d) + QueueWork(chan[l], d) == LinkWork(chan, ls, d) + QueueWork(q, d)
  {
    if ls[0] == l {
      assert l !in ls[1..];
      SameWork(chan, l, q, ls[1..], d);
    } else {
      assert l in ls[1..];
      RestWork(chan, l, q, ls[1..], d);
    }
  }

  lemma {:induction false} SameWork(chan: map<Link, seq<Pann>>, l: Link, q: seq<Pann>, ls: seq<Link>, d: nat)
    requires (forall k <- ls :: k in chan) && l !in ls
    ensures LinkWork(chan[l := q], ls, d) == LinkWork(chan, ls, d)
  {
    if ls != [] { SameWork(chan, l, q, ls[1..], d); }
  }

  /** The work of the reply and of the forward, if any. */
  lemma FramesOfReception(n: Node, stas: map<Mac, nat>, t0: int, t1: int, sa: Mac, p: Pann, d: nat)
    returns (rw: nat, fw: nat)
    ensures FrameWork(Receive(n, stas, t0, t1, sa, p).1, d) == rw + fw
    ensures rw <= if p.replyRequested then Plain(255, d) else 0
    ensures fw <= if p.ttl <= 1 then 0 else if p.replyRequested then Asking(p.ttl - 1, d) else Plain(p.ttl - 1, d)
  {
    ReceiveShape(n, stas, t0, t1, sa, p);
    var frames := Receive(n, stas, t0, t1, sa, p).1;
    rw, fw := 0, 0;
    if Stores(n, stas, t0, t1, sa, p) {
      var reply := if p.replyRequested then [Reply(n, p, sa)] else [];
      var forward := if ForwardsOn(n, stas, t0, t1, sa, p)
                     then [Forward(p, Relay(n, t0, p.target).value, Learned(n, p, sa, stas[sa], t1))] else [];
      assert frames == reply + forward;
      TwoFrames(reply, forward, d);
      PlainGrows(U8(n.elementTtl), 255, d);
      rw, fw := FrameWork(reply, d), FrameWork(forward, d);
    }
  }

  lemma SumScaled(d: nat, a: nat, b: nat, a': nat, b': nat)
    requires a <= a' && b <= b'
    ensures d * (a + b) <= d * a' + d * b'
  {
    Scale(d, a, a');
    Scale(d, b, b');
    assert d * (a + b) == d * a + d * b;
  }

  /** The reply and the forward together, on every link, are less work than what was received. */
  lemma ReceptionConsumesWork(n: Node, stas: map<Mac, nat>, t0: int, t1: int, sa: Mac, p: Pann, d: nat)
    ensures d * FrameWork(Receive(n, stas, t0, t1, sa, p).1, d) + 1 <= Work(p, d)
  {
    var rw, fw := FramesOfReception(n, stas, t0, t1, sa, p, d);
    SumScaled(d, rw, fw, if p.replyRequested then Plain(255, d) else 0,
              if p.ttl <= 1 then 0 else if p.replyRequested then Asking(p.ttl - 1, d) else Plain(p.ttl - 1, d));
  }

  lemma TwoFrames(a: seq<Frame>, b: seq<Frame>, d: nat)
    requires |a| <= 1 && |b| <= 1
    ensures FrameWork(a + b, d) == FrameWork(a, d) + FrameWork(b, d)
    ensures FrameWork(a, d) == if a == [] then 0 else Work(a[0].pann, d)
    ensures FrameWork(b, d) == if b == [] then 0 else Work(b[0].pann, d)
  {
    if a == [] { assert a + b == b; } else { assert a[1..] == [] && (a + b)[1..] == b; }
    if b != [] { assert b[1..] == []; }
  }

  // ----- Events

  /** The work in flight in the whole mesh. */
  function NetWork(net: Net, ls: seq<Link>): nat
    requires Lists(ls, net.chan.Keys)
  {
    LinkWork(net.chan, ls, |ls|)
  }

  /** The most one announcement can add. */
  function Flood(ls: seq<Link>): nat { |ls| * Asking(255, |ls|) }

  lemma SameLinks(net: Net, ev: Event, net': Net)
    requires MeshNetwork.Step(net, ev, net')
    ensures net'.chan.Keys == net.chan.Keys
  {
  }

  lemma DeliverWork(net: Net, ev: Event, net': Net, ls: seq<Link>)
    requires ev.Deliver? && MeshNetwork.Step(net, ev, net') && Lists(ls, net.chan.Keys)
    requires net'.chan.Keys == net.chan.Keys
    requires net.nodes[ev.link.dst].addr == ev.link.dst
    ensures NetWork(net', ls) < NetWork(net, ls)
  {
    var l, p, d := ev.link, net.chan[ev.link][0], |ls|;
    var r := Receive(net.nodes[l.dst], ev.stas, ev.t0, ev.t1, l.src, p);
    var rest := net.chan[l := net.chan[l][1..]];
    RestWork(net.chan, l, net.chan[l][1..], ls, d);
    SendWork(rest, l.dst, r.1, ls, d);
    ReceptionConsumesWork(net.nodes[l.dst], ev.stas, ev.t0, ev.t1, l.src, p, d);
  }

  lemma WorkPositive(p: Pann, d: nat)
    ensures Work(p, d) >= 1
  {
    PlainPositive(p.ttl, d);
  }

  lemma DropWork(q: seq<Pann>, i: nat, d: nat)
    requires i < |q|
    ensures QueueWork(Dropped(q, i), d) < QueueWork(q, d)
  {
    var a, b := q[..i], q[i..];
    assert q == a + b;
    QueueAppend(a, b, d);
    assert b[1..] == q[i + 1..];
    QueueAppend(a, b[1..], d);
    WorkPositive(b[0], d);
  }

  lemma LoseWork(net: Net, ev: Event, net': Net, ls: seq<Link>)
    requires ev.Lose? && MeshNetwork.Step(net, ev, net') && Lists(ls, net.chan.Keys) && net'.chan.Keys == net.chan.Keys
    ensures NetWork(net', ls) < NetWork(net, ls)
  {
    var l, d := ev.link, |ls|;
    RestWork(net.chan, l, Dropped(net.chan[l], ev.index), ls, d);
    DropWork(net.chan[l], ev.index, d);
  }

  lemma AnnounceWork(chan: map<Link, seq<Pann>>, n: Node, ls: seq<Link>)
    requires forall l <- ls :: l in chan
    ensures LinkWork(Send(chan, n.addr, Announce(n).1), ls, |ls|) <= LinkWork(chan, ls, |ls|) + Flood(ls)
  {
    var d, frames := |ls|, Announce(n).1;
    SendWork(chan, n.addr, frames, ls, d);
    if n.isRoot {
      assert frames[1..] == [];
      AskingGrows(U8(n.elementTtl), 255, d);
    }
    Scale(d, FrameWork(frames, d), Asking(255, d));
  }

  predicate Consumes(ev: Event) { ev.Deliver? || ev.Lose? }
  predicate Announces(ev: Event) { ev.RootTimer? || ev.Status? }

  ghost predicate Addressed(net: Net) { forall x <- net.nodes :: net.nodes[x].addr == x }

  lemma SilentWork(chan: map<Link, seq<Pann>>, x: Mac, ls: seq<Link>)
    requires forall l <- ls :: l in chan
    ensures LinkWork(Send(chan, x, []), ls, |ls|) <= LinkWork(chan, ls, |ls|)
  {
    SendWork(chan, x, [], ls, |ls|);
  }

  lemma SendStatusWork(chan: map<Link, seq<Pann>>, n: Node, gate: bool, ls: seq<Link>)
    requires forall l <- ls :: l in chan
    ensures LinkWork(Send(chan, n.addr, SetStatus(n, gate).1), ls, |ls|) <= LinkWork(chan, ls, |ls|) + Flood(ls)
  {
    var root := n.(isGate := true, isRoot := true);
    if n.isGate != gate && gate && !n.isRoot {
      assert SetStatus(n, gate).1 == Announce(root).1;
      AnnounceWork(chan, root, ls);
    } else {
      assert SetStatus(n, gate).1 == [];
      SilentWork(chan, n.addr, ls);
    }
  }

  lemma StatusWork(net: Net, x: Mac, gate: bool, net': Net, ls: seq<Link>)
    requires x in net.nodes && net.nodes[x].addr == x && Lists(ls, net.chan.Keys) && net'.chan.Keys == net.chan.Keys
    requires net' == After(net, x, SetStatus(net.nodes[x], gate), net.chan, net.clock)
    ensures NetWork(net', ls) <= NetWork(net, ls) + Flood(ls)
  {
    SendStatusWork(net.chan, net.nodes[x], gate, ls);
  }

  lemma StaysAddressed(net: Net, ev: Event, net': Net)
    requires MeshNetwork.Step(net, ev, net') && Addressed(net)
    ensures Addressed(net')
  {
    if ev.Deliver? {
      ReceiveShape(net.nodes[ev.link.dst], ev.stas, ev.t0, ev.t1, ev.link.src, net.chan[ev.link][0]);
    }
  }

  /** Receptions and losses consume work, announcements add a bounded amount, the rest is neutral. */
  lemma EventWork(net: Net, ev: Event, net': Net, ls: seq<Link>)
    requires MeshNetwork.Step(net, ev, net') && Lists(ls, net.chan.Keys) && Addressed(net)
    ensures net'.chan.Keys == net.chan.Keys && Addressed(net')
    ensures NetWork(net', ls) + (if Consumes(ev) then 1 else 0) <= NetWork(net,
          ls) + (if Announces(ev) then Flood(ls) else 0)
  {
    SameLinks(net, ev, net');
    StaysAddressed(net, ev, net');
    match ev
    case RootTimer(x) => AnnounceWork(net.chan, net.nodes[x], ls);
    case Status(x, gate) => StatusWork(net, x, gate, net', ls);
    case WithdrawTimer(x) =>
    case Housekeeping(x, now) =>
    case Deliver(l, stas, t0, t1) => DeliverWork(net, ev, net', ls);
    case Lose(l, i) => LoseWork(net, ev, net', ls);
  }

  // ----- Runs

  function CountConsumed(evs: seq<Event>): nat {
    if evs == [] then 0 else (if Consumes(evs[0]) then 1 else 0) + CountConsumed(evs[1..])
  }

  function CountAnnounced(evs: seq<Event>): nat {
    if evs == [] then 0 else (if Announces(evs[0]) then 1 else 0) + CountAnnounced(evs[1..])
  }

  lemma FirstEvent(nets: seq<Net>, evs: seq<Event>)
    requires Stretch(nets, evs) && evs != []
    ensures MeshNetwork.Step(nets[0], evs[0], nets[1]) && Stretch(nets[1..], evs[1..])
  {
    assert Follows(nets, evs, 0);
    forall i | 0 <= i < |evs[1..]| ensures Follows(nets[1..], evs[1..], i) {
      assert Follows(nets, evs, i + 1);
    }
  }

  lemma FirstShare(first: bool, n: nat, f: nat)
    ensures ((if first then 1 else 0) + n) * f == (if first then f else 0) + n * f
  {
  }

  /** However events interleave, the announcements received or lost, and the work still in flight at the
      end, are bounded by the work in flight at the start plus a fixed amount per announcement made. */
  lemma {:induction false} FloodsTerminate(nets: seq<Net>, evs: seq<Event>, ls: seq<Link>)
    requires Stretch(nets, evs) && Lists(ls, nets[0].chan.Keys) && Addressed(nets[0])
    ensures nets[|evs|].chan.Keys == nets[0].chan.Keys
    ensures CountConsumed(evs) + NetWork(nets[|evs|], ls) <= NetWork(nets[0], ls) + CountAnnounced(evs) * Flood(ls)
    decreases |evs|
  {
    if evs != [] {
      FirstEvent(nets, evs);
      EventWork(nets[0], evs[0], nets[1], ls);
      FloodsTerminate(nets[1..], evs[1..], ls);
      FirstShare(Announces(evs[0]), CountAnnounced(evs[1..]), Flood(ls));
    }
  }

  /** In particular, in a stretch without announcements no more are received or lost than there was work
      in flight, whatever timers fire in between. */
  lemma QuietAfterLastAnnouncement(nets: seq<Net>, evs: seq<Event>, ls: seq<Link>)
    requires Stretch(nets, evs) && Lists(ls, nets[0].chan.Keys) && Addressed(nets[0])
    requires forall ev <- evs :: !Announces(ev)
    ensures nets[|evs|].chan.Keys == nets[0].chan.Keys
    ensures CountConsumed(evs) + NetWork(nets[|evs|], ls) <= NetWork(nets[0], ls)
  {
    FloodsTerminate(nets, evs, ls);
    CountNone(evs);
  }

  lemma {:induction false} CountNone(evs: seq<Event>)
    requires forall ev <- evs :: !Announces(ev)
    ensures CountAnnounced(evs) == 0
  {
    if evs != [] { CountNone(evs[1..]); }
  }

  // ----- No work, no announcement

  lemma {:induction false} NoLinkWork(chan: map<Link, seq<Pann>>, ls: seq<Link>, d: nat, l: Link)
    requires (forall k <- ls :: k in chan) && LinkWork(chan, ls, d) == 0 && l in ls
    ensures chan[l] == []
    decreases |ls|
  {
    if l == ls[0] {
      if chan[l] != [] { WorkPositive(chan[l][0], d); }
    } else {
      assert l in ls[1..];
      NoLinkWork(chan, ls[1..], d, l);
    }
  }

  lemma {:induction false} EmptyLinks(chan: map<Link, seq<Pann>>, ls: seq<Link>, d: nat)
    requires (forall l <- ls :: l in chan) && forall l | l in chan :: chan[l] == []
    ensures LinkWork(chan, ls, d) == 0
  {
    if ls != [] { EmptyLinks(chan, ls[1..], d); }
  }

  /** A mesh without work has nothing in flight. */
  lemma NoWorkMeansEmpty(net: Net, ls: seq<Link>, l: Link)
    requires Lists(ls, net.chan.Keys) && NetWork(net, ls) == 0 && l in net.chan
    ensures net.chan[l] == []
  {
    assert l in ls;
    NoLinkWork(net.chan, ls, |ls|, l);
  }
}
