/**
 The periodic synchronisation of the kernel with the path table. Both tables hold routes of one
 protocol, and the kernel deletes by prefix and protocol only, so no prefix may be in both at any
 moment.
 */
module SyncRoutes {
  import opened MeshTypes
  import opened MeshNode
  import opened RouteCodec
  import opened RouteCache
  import opened RouteSocket
  import opened LinkSync
  import opened NetlinkSocket
  import opened MeshAddress
  import opened GateSelection
  import RoutingDaemon

  const TAYGA_IF := "tayga"

  // ----- Which prefixes may be where

  predicate Disjoint(t: Table) { Dsts(t, Unicast, FBMESHD_PROTOCOL) !! Dsts(t, Link, FBMESHD_PROTOCOL) }

  /** Unicast routes go to hosts other than this node, and, for a node that is no gate, to the gate prefix. */
  predicate UnicastNets(s: set<Prefix>, own: Prefix, gate: bool) {
    forall d <- s :: d.ip.v6 && d != own && (d.len == 128 || (gate && d == GATE_NET))
  }

  /** Link routes go to this node, to IPv4 prefixes, and, for a gate, to the gate prefix. */
  predicate LinkNets(s: set<Prefix>, own: Prefix, gate: bool) {
    forall d <- s :: d == own || !d.ip.v6 || (gate && d == GATE_NET)
  }

  lemma NetsDisjoint(u: set<Prefix>, l: set<Prefix>, own: Prefix, gateU: bool, gateL: bool)
    requires UnicastNets(u, own, gateU) && LinkNets(l, own, gateL) && !(gateU && gateL)
    ensures u !! l
  {
    assert GATE_NET.len == 96;
    assert forall d | d in l && d in u :: d == GATE_NET;
  }

  /** Changes to one owner's routes leave the other owner's prefixes as they were. */
  lemma DstsSame(t0: Table, t: Table, o: Owner, o': Owner, p: nat)
    requires o != o' && Except(t, o, p) == Except(t0, o, p)
    ensures Dsts(t, o', p) == Dsts(t0, o', p)
  {
    forall d ensures d in Dsts(t, o', p) <==> d in Dsts(t0, o', p) {
      OtherSame(t0, t, o, o', p, p, d);
      NoRoutesAt(t, o', p, d);
      NoRoutesAt(t0, o', p, d);
    }
  }

  /** Every table logged while one owner's routes change within `s` is disjoint if `s` is from the other's. */
  lemma LoggedDisjoint(t0: Table, log: seq<Table>, from: nat, t: Table, o: Owner, s: set<Prefix>)
    requires LoggedWithin(t0, log, from, t, o, FBMESHD_PROTOCOL, s)
    requires s !! Dsts(t0, if o == Unicast then Link else Unicast, FBMESHD_PROTOCOL)
    ensures Disjoint(t) && forall i | from <= i < |log| :: Disjoint(log[i])
  {
    var o' := if o == Unicast then Link else Unicast;
    DstsSame(t0, t, o, o', FBMESHD_PROTOCOL);
    forall i | from <= i < |log| ensures Disjoint(log[i]) {
      assert Within(t0, log[i], o, FBMESHD_PROTOCOL, s);
      DstsSame(t0, log[i], o, o', FBMESHD_PROTOCOL);
    }
  }

  /** Where all unicast routes are IPv6, the kernel has exactly the cached prefixes. */
  lemma KernelIsCache(t: Table, p: nat, cache: UnicastDb)
    requires Kept(t, p, cache) && forall d <- Dsts(t, Unicast, p) :: d.ip.v6
    ensures Dsts(t, Unicast, p) == cache.Keys
  {
    CacheInKernel(t, p, cache);
    forall d | d in Dsts(t, Unicast, p) ensures d in cache {
      assert AgreesAt(t, p, cache, d);
      NoRoutesAt(t, Unicast, p, d);
    }
  }

  // ----- Synchronising both tables

  /** The socket's two tables, with the gate prefix allowed in at most one of them. */
  ghost predicate InStep(s: NetlinkSocket, own: Prefix, gateU: bool, gateL: bool)
    reads s, s.kernel
  {
    && s.Valid()
    && OnePer(CacheOf(s.links, FBMESHD_PROTOCOL).Keys)
    && (s.kernel.honest ==>
          && LinksAgree(s.kernel.table, FBMESHD_PROTOCOL, LinkDsts(CacheOf(s.links, FBMESHD_PROTOCOL).Keys))
          && UnicastNets(Dsts(s.kernel.table, Unicast, FBMESHD_PROTOCOL), own, gateU)
          && LinkNets(Dsts(s.kernel.table, Link, FBMESHD_PROTOCOL), own, gateL))
  }

  /** Every table since `from` is disjoint, unless an ignored error has mattered. */
  ghost predicate AllDisjoint(k: Kernel, from: nat)
    reads k
  {
    k.honest ==> forall i | from <= i < |k.log| :: Disjoint(k.log[i])
  }

  /** The unicast half. */
  method SyncFirst(s: NetlinkSocket, udb: UnicastDb, ghost own: Prefix, ghost gateU: bool, ghost gateL: bool)
    returns (ok: bool)
    requires InStep(s, own, gateU, gateL) && !(gateU && gateL)
    requires Keyed(FBMESHD_PROTOCOL, udb) && UnicastNets(udb.Keys, own, gateU)
    modifies s`unicast, s.kernel
    ensures InStep(s, own, gateU, gateL) && (s.kernel.honest ==> old(s.kernel.honest))
    ensures ok ==> CacheOf(s.unicast, FBMESHD_PROTOCOL) == FilledDb(udb)
    ensures ok && s.kernel.honest ==> Dsts(s.kernel.table, Unicast, FBMESHD_PROTOCOL) == udb.Keys
    ensures old(s.kernel.log) <= s.kernel.log && AllDisjoint(s.kernel, |old(s.kernel.log)|)
    ensures old(CacheOf(s.unicast, FBMESHD_PROTOCOL)) == FilledDb(udb) ==>
              ok && s.kernel.log == old(s.kernel.log) && s.kernel.table == old(s.kernel.table)
  {
    ghost var t0, from, p := s.kernel.table, |s.kernel.log|, FBMESHD_PROTOCOL;
    ghost var u, keys := Dsts(t0, Unicast, p) + udb.Keys, LinkDsts(CacheOf(s.links, p).Keys);
    assert KeptIf(s.kernel.honest, t0, p, CacheOf(s.unicast, p));
    if s.kernel.honest {
      CacheInKernel(t0, p, CacheOf(s.unicast, p));
      NetsDisjoint(u, Dsts(t0, Link, p), own, gateU, gateL);
    }
    var out := s.DoSyncUnicastRoutes(FBMESHD_PROTOCOL, udb);
    ok := out == Done;
    if s.kernel.honest {
      LoggedDisjoint(t0, s.kernel.log, from, s.kernel.table, Unicast, u);
      LinksElsewhere(t0, s.kernel.table, p, p, keys);
      DstsSame(t0, s.kernel.table, Unicast, Link, p);
      assert KeptIf(s.kernel.honest, s.kernel.table, p, CacheOf(s.unicast, p));
      KernelIsCache(s.kernel.table, p, CacheOf(s.unicast, p));
    }
  }

  /** The link half. */
  method SyncSecond(s: NetlinkSocket, ldb: LinkDb, ghost own: Prefix, ghost gateU: bool, ghost gateL: bool)
    returns (ok: bool)
    requires InStep(s, own, gateU, gateL) && !(gateU && gateL)
    requires LinkKeyed(FBMESHD_PROTOCOL, ldb) && OnePer(ldb.Keys) && LinkNets(LinkDsts(ldb.Keys), own, gateL)
    modifies s`links, s.kernel
    ensures (ok ==> InStep(s, own, gateU, gateL)) && (s.kernel.honest ==> old(s.kernel.honest))
    ensures ok ==> CacheOf(s.links, FBMESHD_PROTOCOL) == ldb
    ensures ok && s.kernel.honest ==> Dsts(s.kernel.table, Link, FBMESHD_PROTOCOL) == LinkDsts(ldb.Keys)
    ensures s.kernel.honest ==>
              Dsts(s.kernel.table, Unicast, FBMESHD_PROTOCOL) == old(Dsts(s.kernel.table, Unicast, FBMESHD_PROTOCOL))
    ensures old(s.kernel.log) <= s.kernel.log && AllDisjoint(s.kernel, |old(s.kernel.log)|)
    ensures old(CacheOf(s.links, FBMESHD_PROTOCOL)).Keys == ldb.Keys ==>
              ok && s.kernel.log == old(s.kernel.log) && s.kernel.table == old(s.kernel.table)
  {
    ghost var t0, from, p := s.kernel.table, |s.kernel.log|, FBMESHD_PROTOCOL;
    ghost var l := LinkDsts(CacheOf(s.links, p).Keys) + LinkDsts(ldb.Keys);
    if s.kernel.honest {
      LinksInKernel(t0, p, LinkDsts(CacheOf(s.links, p).Keys));
      NetsDisjoint(Dsts(t0, Unicast, p), l, own, gateU, gateL);
    }
    ok := s.DoSyncLinkRoutes(FBMESHD_PROTOCOL, ldb);
    if s.kernel.honest {
      LoggedDisjoint(t0, s.kernel.log, from, s.kernel.table, Link, l);
      DstsSame(t0, s.kernel.table, Link, Unicast, p);
      if ok { LinksInKernel(s.kernel.table, p, LinkDsts(ldb.Keys)); }
    }
  }

  // ----- The wanted tables

  /** A route to a prefix on the tayga interface. */
  function LinkRoute(dst: Prefix, ifIndex: nat): Rt {
    var hop := NextHop(Some(ifIndex), None, 0, None, None, None);
    Rt(dst, None, {hop}, RTN_UNICAST, RT_TABLE_MAIN, FBMESHD_PROTOCOL, RT_SCOPE_LINK, false,
       None, None, None, None, None, Some(TAYGA_IF), dst.ip.Family())
  }

  function LinkEntry(dst: Prefix, t: Tick): LinkDb { map[(dst, TAYGA_IF) := LinkRoute(dst, t.taygaIf)] }

  /** The link routes that do not depend on any gate. */
  function BaseLinks(own: Prefix, t: Tick): LinkDb {
    if t.TaygaUsable() then LinkEntry(own, t) + LinkEntry(TAYGA_V4_NET, t) else map[]
  }

  /** A gate takes the gate prefix itself; another node takes the IPv4 default route if it has a gate. */
  function GateLinks(t: Tick, gate: Gate): LinkDb {
    if !t.TaygaUsable() then map[]
    else if t.isGate then LinkEntry(GATE_NET, t)
    else if gate.Some? then LinkEntry(DEFAULT_V4_NET, t)
    else map[]
  }

  function AllLinks(own: Prefix, t: Tick, gate: Gate): LinkDb { BaseLinks(own, t) + GateLinks(t, gate) }

  /** Whether the gate prefix goes to another gate. */
  predicate ViaGate(t: Tick, gate: Gate) { t.TaygaUsable() && !t.isGate && gate.Some? }

  /** The unicast routes asked for: one per path and family, and the gate prefix through the gate's next hop. */
  predicate Wanted(a: Addressing, t: Tick, gate: Gate, db: UnicastDb) {
    && PathRoutes(a, t, NetsOf(t, t.paths.Keys), db - {GATE_NET})
    && (GATE_NET in db <==> ViaGate(t, gate))
    && (ViaGate(t, gate) ==>
          && gate.value.0 in t.paths
          && db[GATE_NET] == HopRoute(GATE_NET, a.gateway(t.paths[gate.value.0].nextHop), t.meshIf))
  }

  lemma WantedUnique(a: Addressing, t: Tick, gate: Gate, db: UnicastDb, db': UnicastDb)
    requires Wanted(a, t, gate, db) && Wanted(a, t, gate, db')
    ensures db == db'
  {
    var x, y, nets := db - {GATE_NET}, db' - {GATE_NET}, NetsOf(t, t.paths.Keys);
    forall d | d in x ensures x[d] == y[d] {
      var n :| n in nets && a.net(n.0, n.1) == d;
    }
    forall d | d in db + db' ensures d in db && d in db' && db[d] == db'[d] {
      if d != GATE_NET { assert d in x && d in y; }
    }
  }

  /** What the wanted unicast routes are keyed by. */
  lemma PathNetsOk(a: Addressing, t: Tick, own: Mac, db: UnicastDb)
    requires a.Apart() && a.Hosts() && t.Ok() && own <= BROADCAST && own !in t.paths
    requires PathRoutes(a, t, NetsOf(t, t.paths.Keys), db)
    ensures Keyed(FBMESHD_PROTOCOL, db) && UnicastNets(db.Keys, a.net(Tayga, own), false) && GATE_NET !in db
  {
    var nets := NetsOf(t, t.paths.Keys);
    assert GATE_NET.len == 96;
    forall d | d in db
      ensures db[d].dst == d && db[d].protocol == FBMESHD_PROTOCOL && d.ip.v6 && d.len == 128 && d != a.net(Tayga, own)
    {
      var n :| n in nets && a.net(n.0, n.1) == d;
    }
  }

  predicate LinkOk(key: LinkKey, r: Rt, own: Prefix, gate: bool) {
    && r.dst == key.0 && key.1 == TAYGA_IF && r.ifName == Some(TAYGA_IF) && r.protocol == FBMESHD_PROTOCOL
    && (key.0 == own || !key.0.ip.v6 || (gate && key.0 == GATE_NET))
  }

  predicate LinksOk(db: LinkDb, own: Prefix, gate: bool) { forall k <- db :: LinkOk(k, db[k], own, gate) }

  lemma LinksOkMeans(db: LinkDb, own: Prefix, gate: bool)
    requires LinksOk(db, own, gate)
    ensures LinkKeyed(FBMESHD_PROTOCOL, db) && OnePer(db.Keys) && LinkNets(LinkDsts(db.Keys), own, gate)
  {
    forall d | d in LinkDsts(db.Keys) ensures d == own || !d.ip.v6 || (gate && d == GATE_NET) {
      var k :| k in db.Keys && k.0 == d;
      assert LinkOk(k, db[k], own, gate);
    }
  }

  lemma TablesOk(own: Prefix, t: Tick, gate: Gate)
    ensures LinksOk(BaseLinks(own, t), own, false) && LinksOk(AllLinks(own, t, gate), own, t.isGate)
  {
    assert !TAYGA_V4_NET.ip.v6 && !DEFAULT_V4_NET.ip.v6;
    assert LinksOk(LinkEntry(own, t), own, false) && LinksOk(LinkEntry(TAYGA_V4_NET, t), own, false);
    assert LinksOk(GateLinks(t, gate), own, t.isGate);
  }

  /** The gate prefix is added to the routes of the paths. */
  method AddGateRoute(a: Addressing, t: Tick, own: Mac, gate: Gate, ghost was: Gate,
          db: UnicastDb) returns (db': UnicastDb)
    requires a.Apart() && a.Hosts() && t.Ok() && own <= BROADCAST && own !in t.paths && Chosen(t, was, gate)
    requires PathRoutes(a, t, NetsOf(t, t.paths.Keys), db)
    ensures Wanted(a, t, gate, db') && Keyed(FBMESHD_PROTOCOL, db')
    ensures UnicastNets(db'.Keys, a.net(Tayga, own), !t.isGate)
  {
    PathNetsOk(a, t, own, db);
    db' := db;
    if ViaGate(t, gate) {
      db' := db[GATE_NET := HopRoute(GATE_NET, a.gateway(t.paths[gate.value.0].nextHop), t.meshIf)];
      assert GATE_NET.len == 96 && GATE_NET.ip.v6 && a.net(Tayga, own).len == 128;
    }
    assert db' - {GATE_NET} == db;
  }

  /** What one synchronisation asks for: the routes of the paths, the wanted routes and the gate. */
  method Plan(a: Addressing, own: Mac, t: Tick, was: Gate) returns (base: UnicastDb, wanted: UnicastDb, gate: Gate)
    requires a.Apart() && a.Hosts() && t.Ok() && own <= BROADCAST && own !in t.paths
    ensures Keyed(FBMESHD_PROTOCOL, base) && UnicastNets(base.Keys, a.net(Tayga, own), false)
    ensures Keyed(FBMESHD_PROTOCOL, wanted) && UnicastNets(wanted.Keys, a.net(Tayga, own), !t.isGate)
    ensures Chosen(t, was, gate) && Wanted(a, t, gate, wanted) && forall db | Wanted(a, t, gate, db) :: db == wanted
  {
    base, gate := ScanPaths(a, t, was);
    PathNetsOk(a, t, own, base);
    wanted := AddGateRoute(a, t, own, gate, was, base);
    forall db | Wanted(a, t, gate, db) ensures db == wanted { WantedUnique(a, t, gate, db, wanted); }
  }

  // ----- What the tables mean

  /** The cached route of `d` has one next hop: neighbour `n`, at its link-local address on that interface. */
  predicate Through(cache: UnicastDb, d: Prefix, ifIndex: nat, n: Mac) {
    && d in cache && cache[d].dst == d && |cache[d].nextHops| == 1 && cache[d].protocol == 98
    && cache[d].priority == Some(255)
    && forall nh <- cache[d].nextHops ::
         nh.ifIndex == Some(ifIndex) && nh.gateway.Some? && Eui64(nh.gateway.value, 0xfe, 0x80, n) && nh.action == None
  }

  /** Traffic for a node the daemon has a path to goes to the next hop of that path, in every family in use;
      traffic for the gate prefix goes to the next hop of the path to the gate. There are no other routes. */
  ghost predicate FollowsPaths(t: Tick, gate: Gate, cache: UnicastDb) {
    && (forall m {:trigger t.Filled(m)} | t.Filled(m) ::
          && Through(cache, ADDRESSING.net(Mesh, m), t.meshIf, t.paths[m].nextHop)
          && (t.TaygaUsable() ==> Through(cache, ADDRESSING.net(Tayga, m), t.meshIf, t.paths[m].nextHop)))
    && (GATE_NET in cache <==> t.taygaIf != 0 && t.taygaUp && !t.isGate && gate.Some?)
    && (GATE_NET in cache ==>
          gate.value.0 in t.paths && Through(cache, GATE_NET, t.meshIf, t.paths[gate.value.0].nextHop))
    && (forall d | d in cache && d != GATE_NET :: OfPath(t, d))
  }

  /** `d` is the prefix of a node with a filled path. */
  ghost predicate OfPath(t: Tick, d: Prefix) {
    exists f, m :: t.Filled(m) && (f == Tayga ==> t.TaygaUsable()) && d == ADDRESSING.net(f, m)
  }

  lemma HopRouteIs(cache: UnicastDb, d: Prefix, ifIndex: nat, n: Mac)
    requires d in cache && cache[d] == Filled(HopRoute(d, ADDRESSING.gateway(n), ifIndex))
    ensures Through(cache, d, ifIndex, n)
  {
    GatewayOctets(n);
  }

  lemma PathIs(t: Tick, db: UnicastDb, f: Family, m: Mac)
    requires PathRoutes(ADDRESSING, t, NetsOf(t, t.paths.Keys), db - {GATE_NET})
    requires t.Filled(m) && (f == Tayga ==> t.TaygaUsable())
    ensures Through(FilledDb(db), ADDRESSING.net(f, m), t.meshIf, t.paths[m].nextHop)
  {
    assert (f, m) in NetsOf(t, t.paths.Keys);
    HopRouteIs(FilledDb(db), ADDRESSING.net(f, m), t.meshIf, t.paths[m].nextHop);
  }

  lemma WantedFollows(t: Tick, gate: Gate, db: UnicastDb)
    requires Wanted(ADDRESSING, t, gate, db)
    ensures FollowsPaths(t, gate, FilledDb(db))
  {
    forall m | t.Filled(m)
      ensures Through(FilledDb(db), ADDRESSING.net(Mesh, m), t.meshIf, t.paths[m].nextHop)
      ensures t.TaygaUsable() ==> Through(FilledDb(db), ADDRESSING.net(Tayga, m), t.meshIf, t.paths[m].nextHop)
    {
      PathIs(t, db, Mesh, m);
      if t.TaygaUsable() { PathIs(t, db, Tayga, m); }
    }
    if ViaGate(t, gate) { HopRouteIs(FilledDb(db), GATE_NET, t.meshIf, t.paths[gate.value.0].nextHop); }
    forall d | d in db && d != GATE_NET ensures OfPath(t, d) {
      assert d in (db - {GATE_NET}).Keys;
      var x :| x in NetsOf(t, t.paths.Keys) && ADDRESSING.net(x.0, x.1) == d;
      assert t.Filled(x.1);
    }
  }

  /** The prefixes handed to the tayga interface while it is up: this node's own, the IPv4 network of tayga, and for
      a gate the gate prefix, for any other node that has a gate all of IPv4. Each goes out on that
      interface, without a gateway. */
  ghost predicate HandsToTayga(own: Prefix, t: Tick, gate: Gate, links: LinkDb) {
    && (forall d, i ::
          (d, i) in links <==>
          && t.taygaIf != 0 && t.taygaUp && i == TAYGA_IF
          && (d == own || d == TAYGA_V4_NET || (t.isGate && d == GATE_NET)
              || (!t.isGate && gate.Some? && d == DEFAULT_V4_NET)))
    && forall k <- links ::
         links[k].dst == k.0 && links[k].nextHops == {NextHop(Some(t.taygaIf), None, 0, None, None, None)}
  }

  lemma LinksHandToTayga(own: Prefix, t: Tick, gate: Gate)
    ensures HandsToTayga(own, t, gate, AllLinks(own, t, gate))
  {
  }

  // ----- The synchroniser

  class SyncRoutes80211s {
    const addressing: Addressing
    const addr: Mac
    const socket: NetlinkSocket
    var currentGate: Gate
    var wasGate: bool

    ghost predicate Valid()
      reads this, socket, socket.kernel
    {
      && addressing == ADDRESSING && addressing.Apart() && addressing.Hosts() && addr <= BROADCAST
      && InStep(socket, addressing.net(Tayga, addr), !wasGate, wasGate)
    }

    constructor (socket: NetlinkSocket, addr: Mac)
      requires socket.Valid() && socket.kernel.table == {} && socket.links == map[] && addr <= BROADCAST
      ensures Valid() && this.socket == socket && this.addr == addr && addressing == ADDRESSING
      ensures currentGate == None && !wasGate
    {
      this.socket, this.addr, addressing, currentGate, wasGate := socket, addr, ADDRESSING, None, false;
      new;
      AddressingApart();
      forall d ensures Routes(socket.kernel.table, Link, FBMESHD_PROTOCOL, d) == {} {}
    }

    /** Both tables, unicast first. */
    method SyncBoth(udb: UnicastDb, ldb: LinkDb, ghost gateU: bool, ghost gateL: bool) returns (ok: bool)
      requires InStep(socket, addressing.net(Tayga, addr), gateU, gateL) && !(gateU && gateL)
      requires Keyed(FBMESHD_PROTOCOL, udb) && UnicastNets(udb.Keys, addressing.net(Tayga, addr), gateU)
      requires LinkKeyed(FBMESHD_PROTOCOL, ldb) && OnePer(ldb.Keys)
      requires LinkNets(LinkDsts(ldb.Keys), addressing.net(Tayga, addr), gateL)
      modifies socket`unicast, socket`links, socket.kernel
      ensures ok ==> InStep(socket, addressing.net(Tayga, addr), gateU, gateL)
      ensures ok ==>
                CacheOf(socket.unicast, FBMESHD_PROTOCOL) == FilledDb(udb) &&
                CacheOf(socket.links, FBMESHD_PROTOCOL) == ldb
      ensures ok && socket.kernel.honest ==> Dsts(socket.kernel.table, Unicast, FBMESHD_PROTOCOL) == udb.Keys
      ensures ok && socket.kernel.honest ==> Dsts(socket.kernel.table, Link, FBMESHD_PROTOCOL) == LinkDsts(ldb.Keys)
      ensures (socket.kernel.honest ==> old(socket.kernel.honest)) && old(socket.kernel.log) <= socket.kernel.log
      ensures AllDisjoint(socket.kernel, |old(socket.kernel.log)|)
      ensures (old(CacheOf(socket.unicast, FBMESHD_PROTOCOL)) == FilledDb(udb) &&
               old(CacheOf(socket.links, FBMESHD_PROTOCOL)).Keys == ldb.Keys) ==>
                ok && socket.kernel.log == old(socket.kernel.log)
    {
      ghost var own := addressing.net(Tayga, addr);
      ok := SyncFirst(socket, udb, own, gateU, gateL);
      if !ok { return; }
      ok := SyncSecond(socket, ldb, own, gateU, gateL);
    }

    /** On a change of the gate status both tables are first brought to a state without the gate prefix. */
    method PreSync(udb: UnicastDb, ldb: LinkDb, isGate: bool) returns (ok: bool)
      requires InStep(socket, addressing.net(Tayga, addr), !wasGate, wasGate)
      requires Keyed(FBMESHD_PROTOCOL, udb) && UnicastNets(udb.Keys, addressing.net(Tayga, addr), false)
      requires LinksOk(ldb, addressing.net(Tayga, addr), false)
      modifies socket`unicast, socket`links, socket.kernel
      ensures ok ==> InStep(socket, addressing.net(Tayga, addr), !isGate, isGate)
      ensures (socket.kernel.honest ==> old(socket.kernel.honest)) && old(socket.kernel.log) <= socket.kernel.log
      ensures AllDisjoint(socket.kernel, |old(socket.kernel.log)|)
      ensures isGate == wasGate ==>
                ok && socket.kernel.log == old(socket.kernel.log) &&
                socket.unicast == old(socket.unicast) && socket.links == old(socket.links)
    {
      ok := true;
      if wasGate != isGate {
        LinksOkMeans(ldb, addressing.net(Tayga, addr), false);
        ok := SyncBoth(udb, ldb, !wasGate, wasGate);
      }
    }

    /** The requests of one synchronisation: the pre-synchronisation, then the wanted tables. */
    method Program(base: UnicastDb, baseLinks: LinkDb, udb: UnicastDb, ldb: LinkDb, isGate: bool) returns (ok: bool)
      requires InStep(socket, addressing.net(Tayga, addr), !wasGate, wasGate)
      requires Keyed(FBMESHD_PROTOCOL, base) && UnicastNets(base.Keys, addressing.net(Tayga, addr), false)
      requires Keyed(FBMESHD_PROTOCOL, udb) && UnicastNets(udb.Keys, addressing.net(Tayga, addr), !isGate)
      requires LinksOk(baseLinks, addressing.net(Tayga, addr), false)
      requires LinksOk(ldb, addressing.net(Tayga, addr), isGate)
      modifies this`wasGate, socket`unicast, socket`links, socket.kernel
      ensures ok ==> wasGate == isGate && InStep(socket, addressing.net(Tayga, addr), !isGate, isGate)
      ensures (socket.kernel.honest ==> old(socket.kernel.honest)) && old(socket.kernel.log) <= socket.kernel.log
      ensures AllDisjoint(socket.kernel, |old(socket.kernel.log)|)
      ensures ok ==>
                CacheOf(socket.unicast, FBMESHD_PROTOCOL) == FilledDb(udb) &&
                CacheOf(socket.links, FBMESHD_PROTOCOL) == ldb
      ensures ok && socket.kernel.honest ==> Dsts(socket.kernel.table, Unicast, FBMESHD_PROTOCOL) == udb.Keys
      ensures ok && socket.kernel.honest ==> Dsts(socket.kernel.table, Link, FBMESHD_PROTOCOL) == LinkDsts(ldb.Keys)
      ensures (old(wasGate) == isGate && old(CacheOf(socket.unicast, FBMESHD_PROTOCOL)) == FilledDb(udb) &&
               old(CacheOf(socket.links, FBMESHD_PROTOCOL)).Keys == ldb.Keys) ==>
                ok && socket.kernel.log == old(socket.kernel.log)
    {
      ok := PreSync(base, baseLinks, isGate);
      if !ok { return; }
      LinksOkMeans(ldb, addressing.net(Tayga, addr), isGate);
      wasGate := isGate;
      ok := SyncBoth(udb, ldb, !isGate, isGate);
    }

    /** One synchronisation. A refused request ends the process: nothing is promised about what would
        follow, but every table the kernel has had is disjoint, unless an ignored error has mattered. */
    method DoSyncRoutes(t: Tick) returns (ok: bool)
      requires Valid() && t.Ok() && addr !in t.paths
      modifies this, socket`unicast, socket`links, socket.kernel
      ensures Chosen(t, old(currentGate), currentGate)
      ensures (socket.kernel.honest ==> old(socket.kernel.honest)) && old(socket.kernel.log) <= socket.kernel.log
      ensures AllDisjoint(socket.kernel, |old(socket.kernel.log)|)
      ensures ok ==> Valid() && wasGate == t.isGate
      ensures ok ==>
                exists db ::
                  && Wanted(addressing, t, currentGate, db) && CacheOf(socket.unicast, FBMESHD_PROTOCOL) == FilledDb(db)
                  && (socket.kernel.honest ==> Dsts(socket.kernel.table, Unicast, FBMESHD_PROTOCOL) == db.Keys)
      ensures ok ==> CacheOf(socket.links, FBMESHD_PROTOCOL) == AllLinks(addressing.net(Tayga, addr), t, currentGate)
      ensures ok ==> FollowsPaths(t, currentGate, CacheOf(socket.unicast, FBMESHD_PROTOCOL))
      ensures ok ==>
                HandsToTayga(ADDRESSING.net(Tayga, addr), t, currentGate, CacheOf(socket.links, FBMESHD_PROTOCOL))
      ensures ok && socket.kernel.honest ==>
                Dsts(socket.kernel.table, Link, FBMESHD_PROTOCOL)
                == LinkDsts(CacheOf(socket.links, FBMESHD_PROTOCOL).Keys)
      ensures forall db |
                && Wanted(addressing, t, currentGate, db)
                && old(CacheOf(socket.unicast, FBMESHD_PROTOCOL)) == FilledDb(db) ::
                old(wasGate) == t.isGate &&
                old(CacheOf(socket.links, FBMESHD_PROTOCOL)).Keys ==
                  AllLinks(addressing.net(Tayga, addr), t, currentGate).Keys ==>
                ok && socket.kernel.log == old(socket.kernel.log)
    {
      var base, wanted, gate := Plan(addressing, addr, t, currentGate);
      currentGate := gate;
      var own := addressing.net(Tayga, addr);
      TablesOk(own, t, gate);
      WantedFollows(t, gate, wanted);
      LinksHandToTayga(own, t, gate);
      ok := Program(base, BaseLinks(own, t), wanted, AllLinks(own, t, gate), t.isGate);
    }

    /** One timer tick, with the paths the routing component hands out: they are keyed by destination and
        never include this node. */
    method OnTimer(routing: RoutingDaemon.Routing, meshIf: nat, taygaIf: nat, taygaUp: bool, now: int,
                   stas: map<Mac, nat>, clock: Mac -> int) returns (ok: bool)
      requires Valid() && routing.Valid() && routing.addr == addr && forall a <- routing.meshPaths :: a <= BROADCAST
      modifies this, socket`unicast, socket`links, socket.kernel
      ensures (socket.kernel.honest ==> old(socket.kernel.honest)) && old(socket.kernel.log) <= socket.kernel.log
      ensures AllDisjoint(socket.kernel, |old(socket.kernel.log)|)
      ensures ok ==> Valid() && wasGate == routing.isGate
      ensures ok ==>
                var t := Tick(meshIf, taygaIf, taygaUp, routing.isGate, routing.Live(now, stas), clock);
                FollowsPaths(t, currentGate, CacheOf(socket.unicast, FBMESHD_PROTOCOL))
    {
      var isGate := routing.isGate;
      var paths := routing.GetMeshPaths(now, stas);
      ok := DoSyncRoutes(Tick(meshIf, taygaIf, taygaUp, isGate, paths, clock));
    }

    /** The timer: synchronisations follow each other until one of them fails. */
    method RunTimer(ticks: seq<Tick>) returns (ok: bool)
      requires Valid() && forall t <- ticks :: t.Ok() && addr !in t.paths
      modifies this, socket`unicast, socket`links, socket.kernel
      ensures ok ==> Valid()
      ensures (socket.kernel.honest ==> old(socket.kernel.honest)) && old(socket.kernel.log) <= socket.kernel.log
      ensures AllDisjoint(socket.kernel, |old(socket.kernel.log)|)
    {
      ok := true;
      var k := 0;
      while ok && k < |ticks|
        invariant 0 <= k <= |ticks| && (ok ==> Valid())
        invariant (socket.kernel.honest ==> old(socket.kernel.honest)) && old(socket.kernel.log) <= socket.kernel.log
        invariant AllDisjoint(socket.kernel, |old(socket.kernel.log)|)
        decreases |ticks| - k
      {
        ok := DoSyncRoutes(ticks[k]);
        k := k + 1;
      }
    }
  }
}
