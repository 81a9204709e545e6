/**
 The routing component as the program has it: one object whose path table, counters, flags and
 timers its callbacks update in place. Every method is proved to compute the transition that
 `MeshNode` and `RootLifecycle` define, so the theorems about those hold of this object.
 */
module RoutingDaemon {
  import opened MeshTypes
  import opened MeshNode
  import TopGates
  import opened RootLifecycle

  lemma CountStep<T>(r: set<T>, todo: set<T>, a: T)
    requires a in todo
    ensures |r * (todo - {a})| + (if a in r then 1 else 0) == |r * todo|
  {
    if a in r {
      assert r * todo == r * (todo - {a}) + {a};
    } else {
      assert r * (todo - {a}) == r * todo;
    }
  }

  /** How many other live gates are at least as close. */
  method CountRivals(paths: Paths, now: int, orig: Mac, metric: nat) returns (count: nat)
    ensures count == |Rivals(paths, now, orig, metric)|
  {
    count := 0;
    var todo := paths.Keys;
    ghost var rivals := Rivals(paths, now, orig, metric);
    assert rivals * todo == rivals;
    while todo != {}
      invariant todo <= paths.Keys
      invariant count + |rivals * todo| == |rivals|
      decreases |todo|
    {
      var a :| a in todo;
      var e := paths[a];
      CountStep(rivals, todo, a);
      if e.dst != orig && !e.Expired(now) && e.isGate && e.metric <= metric {
        count := count + 1;
      }
      todo := todo - {a};
    }
  }

  lemma StoreIgnoresTable(n: Node, paths: Paths, before: Paths, p: Pann, e: MeshPath, da: Mac, now: int)
    ensures Store(n.(paths := paths), before, p, e, da, now) == Store(n, before, p, e, da, now)
  {
  }

  class Routing {
    const addr: Mac
    const elementTtl: nat
    const config: Config
    var meshPaths: Paths
    var sn: nat
    var isRoot: bool
    var isGate: bool
    var announceAt: Option<int>
    var withdrawAt: Option<int>

    ghost function Model(): Node
      reads this
    {
      Node(addr, elementTtl, config.timeout, sn, isRoot, isGate, meshPaths)
    }

    ghost function Timers(): Root
      reads this
    {
      Root(isRoot, isGate, announceAt, withdrawAt)
    }

    /** The table is keyed by destination and never about this node itself. */
    predicate Valid()
      reads this
    {
      TopGates.Keyed(meshPaths) && addr !in meshPaths
    }

    constructor (addr: Mac, elementTtl: nat, activePathTimeout: nat, rootPannInterval: nat)
      ensures Model() == Node(addr, elementTtl, activePathTimeout, 0, false, false, map[])
      ensures Valid() && Timers() == IDLE && config == Config(rootPannInterval, activePathTimeout)
    {
      this.addr, this.elementTtl := addr, elementTtl;
      config := Config(rootPannInterval, activePathTimeout);
      meshPaths, sn, isRoot, isGate, announceAt, withdrawAt := map[], 0, false, false, None, None;
    }

    /** The paths that have not expired and whose next hop has a link metric. */
    ghost function Live(now: int, stas: map<Mac, nat>): Paths
      reads this
    {
      map a | a in meshPaths && now <= meshPaths[a].expTime && meshPaths[a].nextHop in stas :: meshPaths[a]
    }

    /** The live paths through a current neighbour. */
    method GetMeshPaths(now: int, stas: map<Mac, nat>) returns (live: Paths)
      ensures live == Live(now, stas)
      ensures Valid() ==> TopGates.Keyed(live) && addr !in live
    {
      live := map[];
      var todo := meshPaths.Keys;
      while todo != {}
        invariant todo <= meshPaths.Keys
        invariant live == map a | a in meshPaths && a !in todo && !meshPaths[a].Expired(now) &&
                meshPaths[a].nextHop in stas
                              :: meshPaths[a]
        decreases |todo|
      {
        var a :| a in todo;
        if !meshPaths[a].Expired(now) && meshPaths[a].nextHop in stas {
          live := live[a := meshPaths[a]];
        }
        todo := todo - {a};
      }
    }

    method GetMeshPath(a: Mac, now: int) returns (e: MeshPath)
      requires Valid()
      modifies this`meshPaths
      ensures a != addr ==> Valid()
      ensures meshPaths == Looked(old(meshPaths), a, now) && a in meshPaths && e == meshPaths[a]
    {
      if a !in meshPaths { meshPaths := meshPaths[a := Placeholder(a, now)]; }
      e := meshPaths[a];
    }

    /** Forget entries long expired. */
    method DoMeshHousekeeping(now: int)
      requires Valid()
      modifies this`meshPaths
      ensures Valid()
      ensures meshPaths == Housekeep(old(meshPaths), now)
      ensures forall a :: a in meshPaths <==> a in old(meshPaths) && now - 60_000 <= old(meshPaths)[a].expTime
    {
      var todo := meshPaths.Keys;
      while todo != {}
        invariant todo <= meshPaths.Keys
        invariant meshPaths == map a | a in old(meshPaths) &&
                (a in todo || now <= old(meshPaths)[a].expTime + MESH_PATH_EXPIRE)
                                   :: old(meshPaths)[a]
        decreases |todo|
      {
        var a :| a in todo;
        todo := todo - {a};
        if now > meshPaths[a].expTime + MESH_PATH_EXPIRE { meshPaths := meshPaths - {a}; }
      }
    }

    method DoMeshPathRoot(now: int) returns (tx: seq<Frame>)
      modifies this`sn, this`announceAt
      ensures (Model(), tx) == Announce(old(Model()))
      ensures Timers() == Announced(config, old(Timers()), now)
    {
      tx := [];
      announceAt := None;
      if isRoot {
        sn := U64(sn + 1);
        tx := [Frame(BROADCAST, Pann(addr, sn, 0, U8(elementTtl), BROADCAST, 0, isGate, true))];
        announceAt := Some(now + config.interval);
      }
    }

    method NoLongerAGate()
      modifies this`isRoot, this`withdrawAt
      ensures Model() == old(Model()).(isRoot := false)
      ensures Timers() == Withdrawn(old(Timers()))
    {
      isRoot := false;
      withdrawAt := None;
    }

    method SetGatewayStatus(gate: bool, now: int) returns (tx: seq<Frame>)
      modifies this
      ensures (Model(), tx) == MeshNode.SetStatus(old(Model()), gate)
      ensures Timers() == StatusSet(config, old(Timers()), gate, now)
      ensures tx != [] <==> StatusAnnounces(old(Timers()), gate)
    {
      tx := [];
      if isGate == gate { return; }
      isGate := gate;
      if gate {
        withdrawAt := None;
        if !isRoot {
          isRoot := true;
          tx := DoMeshPathRoot(now);
        }
      } else {
        withdrawAt := Some(now + config.timeout);
      }
    }

    /** The neighbour a PANN for `target` goes to; none when this node has no live path to it. */
    method FindRelay(target: Mac, now: int) returns (da: Option<Mac>)
      ensures da == Relay(Model(), now, target)
    {
      da := Some(target);
      if IsUnicast(target) && target != addr {
        if target !in meshPaths { return None; }
        var targetMpath := meshPaths[target];
        if targetMpath.Expired(now) { return None; }
        da := Some(targetMpath.nextHop);
      }
    }

    /** Processing of a received PANN up to the staleness test, step by step as the program does it. */
    method HwmpPannFrameProcess(sa: Mac, pann: Pann, stas: map<Mac, nat>, t0: int, t1: int) returns (tx: seq<Frame>)
      requires Valid()
      modifies this`meshPaths, this`sn
      ensures Valid()
      ensures (Model(), tx) == Receive(old(Model()), stas, t0, t1, sa, pann)
      ensures Timers() == old(Timers())
    {
      tx := [];
      var hopCount := U8(pann.hopCount + 1);
      if pann.orig == addr { return; }
      if sa !in stas { return; }
      var da := FindRelay(pann.target, t0);
      if da.None? { return; }
      var lastHopMetric := stas[sa];
      var newMetric := U32(pann.metric + lastHopMetric);
      if newMetric < pann.metric { newMetric := MAX_METRIC; }

      var mpath := GetMeshPath(pann.orig, t0);
      if !mpath.Expired(t1) && (mpath.sn > pann.sn || (mpath.nextHop != sa && mpath.metric <= newMetric)) { return; }
      StoreIgnoresTable(old(Model()), meshPaths, meshPaths, pann,
                        Learned(old(Model()), pann, sa, lastHopMetric, t1), da.value, t1);
      tx := StorePann(sa, pann, lastHopMetric, newMetric, hopCount, da.value, t1);
    }

    /** The rest of the processing: the redundancy count, the update, the reply and the forward. */
    method StorePann(sa: Mac, pann: Pann, lastHopMetric: nat, newMetric: nat, hopCount: nat, da: Mac, now: int)
      returns (tx: seq<Frame>)
      requires Valid() && pann.orig in meshPaths
      requires hopCount == U8(pann.hopCount + 1) && newMetric == AddMetric(pann.metric, lastHopMetric)
      modifies this`meshPaths, this`sn
      ensures Valid()
      ensures Timers() == old(Timers())
      ensures var n, e := old(Model()), Learned(old(Model()), pann, sa, lastHopMetric, now);
              (Model(), tx) ==
              if pann.isGate && |Rivals(n.paths, now, pann.orig, e.metric)| >= GateLimit(n.isGate) then (n, [])
              else Store(n, n.paths, pann, e, da, now)
    {
      tx := [];
      var oldHasOrig := TopGates.IsStationInTopKGates(meshPaths, isGate, now, pann.orig);
      if pann.isGate {
        var count := CountRivals(meshPaths, now, pann.orig, newMetric);
        if count >= (if isGate then MIN_GATEWAY_REDUNDANCY - 1 else MIN_GATEWAY_REDUNDANCY) { return; }
      }

      var mpath := meshPaths[pann.orig];
      meshPaths := meshPaths[pann.orig :=
        mpath.(sn := pann.sn, metric := newMetric, nextHop := sa, nextHopMetric := lastHopMetric, hopCount := hopCount,
               isGate := pann.isGate, expTime := now + config.timeout)];
      ghost var n, e := old(Model()), Learned(old(Model()), pann, sa, lastHopMetric, now);
      assert meshPaths == n.paths[pann.orig := e];

      if pann.replyRequested {
        sn := U64(sn + 1);
        tx := tx + [Frame(sa, Pann(addr, sn, 0, U8(elementTtl), pann.orig, 0, isGate, false))];
      }
      ghost var reply := tx;
      assert reply == if pann.replyRequested then [Reply(n, pann, sa)] else [];
      assert reply + [] == reply;
      if pann.ttl <= 1 { return; }
      var ttl := pann.ttl - 1;
      var newHasOrig := TopGates.IsStationInTopKGates(meshPaths, isGate, now, pann.orig);
      if pann.target != addr && (!pann.isGate || oldHasOrig || newHasOrig) {
        tx := tx + [Frame(da, Pann(pann.orig, pann.sn, hopCount, ttl, pann.target, newMetric, pann.isGate,
              pann.replyRequested))];
      }
      assert tx == reply + if Forwards(n, pann, n.paths, meshPaths, now) then [Forward(pann, da, e)] else [];
    }
  }
}
