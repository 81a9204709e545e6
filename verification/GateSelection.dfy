/**
 The pass over the path table at the start of a route synchronisation: the wanted unicast routes,
 and the choice of the gate this node sends its traffic to.
 */
module GateSelection {
  import opened MeshTypes
  import opened MeshNode
  import opened RouteCodec
  import opened RouteCache
  import opened MeshAddress

  const FBMESHD_PROTOCOL := 98
  const RTN_UNICAST := 1

  type Gate = Option<(Mac, nat)>

  /** What one synchronisation reads: interfaces, gate status, the path table, and the clock as it
      stands when each path is looked at. */
  datatype Tick = Tick(meshIf: nat, taygaIf: nat, taygaUp: bool, isGate: bool, paths: Paths, clock: Mac -> int)
  {
    predicate TaygaUsable() { taygaIf != 0 && taygaUp }

    predicate Ok() { forall m <- paths :: m <= BROADCAST && paths[m].dst == m }

    predicate Filled(m: Mac) { m in paths && paths[m].Filled() }

    predicate Live(m: Mac) { Filled(m) && paths[m].isGate && paths[m].expTime > clock(m) }
  }

  function HopRoute(dst: Prefix, gateway: Ip, ifIndex: nat): Rt {
    var hop := NextHop(Some(ifIndex), Some(gateway), 0, None, None, None);
    Rt(dst, None, {hop}, RTN_UNICAST, RT_TABLE_MAIN, FBMESHD_PROTOCOL, RT_SCOPE_UNIVERSE, false,
       None, None, None, None, None, None, AF_INET6)
  }

  // ----- The wanted unicast routes

  type Net = (Family, Mac)

  /** The nets to have routes for: every filled path, in the tayga family only if its interface is up. */
  function NetsOf(t: Tick, seen: set<Mac>): set<Net> {
    set f: Family, m | m in seen && t.Filled(m) && (f == Tayga ==> t.TaygaUsable()) :: (f, m)
  }

  function PathRoute(a: Addressing, t: Tick, x: Net): Rt
    requires x.1 in t.paths
  {
    HopRoute(a.net(x.0, x.1), a.gateway(t.paths[x.1].nextHop), t.meshIf)
  }

  /** Exactly one route per net, through the path's next hop. */
  predicate PathRoutes(a: Addressing, t: Tick, nets: set<Net>, db: UnicastDb) {
    && (forall x <- nets :: x.1 in t.paths && a.net(x.0, x.1) in db && db[a.net(x.0, x.1)] == PathRoute(a, t, x))
    && db.Keys == (set x | x in nets :: a.net(x.0, x.1))
  }

  /** `emplace` keeps a route that is already there; no two nets have the same prefix, so none is. */
  method Emplace(a: Addressing, t: Tick, ghost nets: set<Net>, x: Net, db: UnicastDb) returns (db': UnicastDb)
    requires a.Apart() && t.Ok() && x.1 in t.paths && x !in nets && PathRoutes(a, t, nets, db)
    ensures PathRoutes(a, t, nets + {x}, db')
  {
    var d := a.net(x.0, x.1);
    if d in db {
      db' := db;
    } else {
      db' := db[d := PathRoute(a, t, x)];
    }
  }

  method AddPathRoutes(a: Addressing, t: Tick, ghost seen: set<Mac>, m: Mac, db: UnicastDb) returns (db': UnicastDb)
    requires a.Apart() && t.Ok() && m !in seen && t.Filled(m) && PathRoutes(a, t, NetsOf(t, seen), db)
    ensures PathRoutes(a, t, NetsOf(t, seen + {m}), db')
  {
    db' := db;
    ghost var nets := NetsOf(t, seen);
    NetsGrow(t, seen, m);
    if t.TaygaUsable() {
      db' := Emplace(a, t, nets, (Tayga, m), db');
      nets := nets + {(Tayga, m)};
    }
    db' := Emplace(a, t, nets, (Mesh, m), db');
  }

  lemma NetsGrow(t: Tick, seen: set<Mac>, m: Mac)
    requires m !in seen
    ensures t.Filled(m) ==>
              NetsOf(t, seen + {m}) == NetsOf(t, seen) + (if t.TaygaUsable() then {(Tayga, m)} else {}) + {(Mesh, m)}
    ensures !t.Filled(m) ==> NetsOf(t, seen + {m}) == NetsOf(t, seen)
    ensures (Mesh, m) !in NetsOf(t, seen) && (Tayga, m) !in NetsOf(t, seen)
  {
  }

  // ----- The gate

  /** `best` is a closest live gate among `seen`. */
  predicate Closest(t: Tick, seen: set<Mac>, best: Gate) {
    if best == None then forall m <- seen :: !t.Live(m)
    else
      && best.value.0 in seen && t.Live(best.value.0) && best.value.1 == t.paths[best.value.0].metric
      && forall m <- seen :: t.Live(m) ==> best.value.1 <= t.paths[m].metric
  }

  /** What a synchronisation may make of the gate it had before: a closest live gate, and the old one
      unless it is gone or strictly worse. */
  predicate Chosen(t: Tick, was: Gate, now: Gate) {
    && Closest(t, t.paths.Keys, now)
    && (was.Some? && t.Live(was.value.0) ==>
          now.Some? && (now.value.0 == was.value.0 || now.value.1 < t.paths[was.value.0].metric))
  }

  /** Among `seen`, whether the old gate is still live, and if so with its present metric. */
  predicate Tracks(t: Tick, seen: set<Mac>, was: Gate, current: Gate, alive: bool) {
    && (alive <==> was.Some? && was.value.0 in seen && t.Live(was.value.0))
    && current == if alive then Some((was.value.0, t.paths[was.value.0].metric)) else was
  }

  method NoteGate(t: Tick, ghost seen: set<Mac>, m: Mac, ghost was: Gate, current: Gate, alive: bool, best: Gate)
    returns (current': Gate, alive': bool, best': Gate)
    requires m in t.paths && t.paths[m].dst == m && t.Filled(m) && Closest(t, seen, best)
    requires Tracks(t, seen, was, current, alive)
    ensures Closest(t, seen + {m}, best')
    ensures Tracks(t, seen + {m}, was, current', alive')
  {
    current', alive', best' := current, alive, best;
    var path := t.paths[m];
    if path.expTime > t.clock(m) && path.isGate {
      if current'.Some? && current'.value.0 == path.dst {
        alive' := true;
        current' := Some((current'.value.0, path.metric));
      }
      if best'.None? || best'.value.1 > path.metric {
        best' := Some((path.dst, path.metric));
      }
    }
  }

  /** The loop over the path table, in any order. */
  method ScanPaths(a: Addressing, t: Tick, was: Gate) returns (db: UnicastDb, now: Gate)
    requires a.Apart() && t.Ok()
    ensures PathRoutes(a, t, NetsOf(t, t.paths.Keys), db)
    ensures Chosen(t, was, now)
  {
    db := map[];
    var best: Gate, current, alive := None, was, false;
    var todo := t.paths.Keys;
    ghost var seen: set<Mac> := {};
    while todo != {}
      invariant todo <= t.paths.Keys && seen == t.paths.Keys - todo
      invariant PathRoutes(a, t, NetsOf(t, seen), db)
      invariant Closest(t, seen, best)
      invariant Tracks(t, seen, was, current, alive)
      decreases |todo|
    {
      var m :| m in todo;
      todo := todo - {m};
      if t.paths[m].nextHop != ZERO_MAC {
        db := AddPathRoutes(a, t, seen, m, db);
        current, alive, best := NoteGate(t, seen, m, was, current, alive, best);
      } else {
        NetsGrow(t, seen, m);
      }
      seen := seen + {m};
    }
    assert seen == t.paths.Keys;
    now := Settle(t, was, current, alive, best);
  }

  /** A live incumbent goes only for a strictly closer gate. */
  method Settle(t: Tick, ghost was: Gate, current: Gate, alive: bool, best: Gate) returns (now: Gate)
    requires Closest(t, t.paths.Keys, best)
    requires Tracks(t, t.paths.Keys, was, current, alive)
    ensures Chosen(t, was, now)
  {
    now := current;
    if current.Some? && alive {
      if best.value.1 < current.value.1 { now := best; }
    } else {
      now := best;
    }
  }

  /** What the choice promises: a gate exactly when some live gate path exists, and then one that the
      table can be asked for, of least metric. */
  lemma ChoiceSound(t: Tick, was: Gate, now: Gate, g: Mac)
    requires Chosen(t, was, now) && t.Live(g)
    ensures now.Some? && now.value.0 in t.paths && now.value.1 == t.paths[now.value.0].metric <= t.paths[g].metric
    ensures was.Some? && was.value.0 == g && now.value.0 != g ==> now.value.1 < t.paths[g].metric
  {
    assert g in t.paths.Keys;
  }

  /** Reading the same state again changes nothing: a choice is its own only successor. */
  lemma ChoiceStable(t: Tick, was: Gate, now: Gate, again: Gate)
    requires Chosen(t, was, now) && Chosen(t, now, again)
    ensures again == now
  {
    if now.Some? {
      assert t.Live(now.value.0) && again.Some?;
      assert again.value.1 <= now.value.1 && now.value.1 <= again.value.1;
    }
  }
}
