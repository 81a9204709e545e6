/**
 The netlink socket: one unicast cache and one link cache per protocol, in front of the kernel.
 */
module NetlinkSocket {
  import opened RouteCache
  import opened RouteSocket
  import opened LinkSync

  function CacheOf<V>(caches: map<nat, map<V, Rt>>, p: nat): map<V, Rt> { if p in caches then caches[p] else map[] }

  /** Every unicast cache describes the kernel. */
  ghost predicate AllKept(honest: bool, t: Table, unicast: map<nat, UnicastDb>) {
    forall p {:trigger CacheOf(unicast, p)} :: KeptIf(honest, t, p, CacheOf(unicast, p))
  }

  /** Requests about other routes leave a cache in agreement. */
  lemma KeptElsewhere(t0: Table, t: Table, o: Owner, p: nat, q: nat, cache: UnicastDb)
    requires (o != Unicast || p != q) && Except(t, o, p) == Except(t0, o, p) && Kept(t0, q, cache)
    ensures Kept(t, q, cache)
  {
    forall d ensures AgreesAt(t, q, cache, d) {
      assert AgreesAt(t0, q, cache, d);
      OtherSame(t0, t, o, Unicast, p, q, d);
      if d in cache && !d.ip.v6 { assert Entry(Unicast, cache[d]) in Except(t0, o, p); }
    }
  }

  lemma AllKeptAfter(was: bool, honest: bool, t0: Table, t: Table, o: Owner, p: nat, caches: map<nat, UnicastDb>,
          cache': UnicastDb)
    requires AllKept(was, t0, caches) && (honest ==> was && Except(t, o, p) == Except(t0, o, p))
    requires KeptIf(honest, t, p, cache')
    ensures AllKept(honest, t, caches[p := cache'])
  {
    var caches' := caches[p := cache'];
    forall q ensures KeptIf(honest, t, q, CacheOf(caches', q)) {
      if q != p {
        assert KeptIf(was, t0, q, CacheOf(caches, q));
        if honest { KeptElsewhere(t0, t, o, p, q, CacheOf(caches, q)); }
      }
    }
  }

  lemma LocalExcept(t: Table, t': Table, o: Owner, p: nat, d: Prefix)
    requires Local(t, t', o, p, d)
    ensures Except(t', o, p) == Except(t, o, p)
  {
    forall e | e in t + t' && !(e.owner == o && e.route.protocol == p) ensures e in t && e in t' {
      assert e in Away(t, o, p, d) + Away(t', o, p, d);
    }
  }

  lemma LinksElsewhere(t0: Table, t: Table, p: nat, q: nat, dsts: set<Prefix>)
    requires Except(t, Unicast, p) == Except(t0, Unicast, p) && LinksAgree(t0, q, dsts)
    ensures LinksAgree(t, q, dsts)
  {
    forall d ensures if d in dsts then |Routes(t, Link, q, d)| == 1 else Routes(t, Link, q, d) == {} {
      OtherSame(t0, t, Unicast, Link, p, q, d);
    }
  }

  class NetlinkSocket {
    const kernel: Kernel
    var unicast: map<nat, UnicastDb>
    var links: map<nat, LinkDb>

    ghost predicate Valid()
      reads this, kernel
    {
      AllKept(kernel.honest, kernel.table, unicast)
    }

    constructor (kernel: Kernel)
      requires kernel.table == {}
      ensures this.kernel == kernel && Valid() && unicast == map[] && links == map[]
    {
      this.kernel, unicast, links := kernel, map[], map[];
      new;
      forall p ensures KeptIf(kernel.honest, kernel.table, p, CacheOf(unicast, p)) {
        forall d ensures AgreesAt(kernel.table, p, map[], d) { assert Routes({}, Unicast, p, d) == {}; }
      }
    }

    method DoAddUpdateUnicastRoute(r: Rt) returns (out: Outcome)
      requires Valid() && (kernel.honest ==> Routes(kernel.table, Link, r.protocol, r.dst) == {})
      modifies this`unicast, kernel
      ensures Valid()
      ensures out == InvalidRoute <==> Unroutable(r.dst)
      ensures unicast == old(unicast)[r.protocol := Updated(old(CacheOf(unicast, r.protocol)), Filled(r), out)]
      ensures (kernel.honest ==> old(kernel.honest)) && old(kernel.log) <= kernel.log
      ensures old(kernel.honest) ==> (kernel.honest <==> Agrees(kernel.table, r.protocol, CacheOf(unicast, r.protocol)))
      ensures kernel.honest ==> forall i | |old(kernel.log)| <= i < |kernel.log| ::
                Local(old(kernel.table), kernel.log[i], Unicast, r.protocol, r.dst)
    {
      ghost var t, was := kernel.table, kernel.honest;
      assert KeptIf(was, t, r.protocol, CacheOf(unicast, r.protocol));
      var cache;
      out, cache := AddUpdate(kernel, CacheOf(unicast, r.protocol), r);
      if kernel.honest { LocalExcept(t, kernel.table, Unicast, r.protocol, r.dst); }
      AllKeptAfter(was, kernel.honest, t, kernel.table, Unicast, r.protocol, unicast, cache);
      unicast := unicast[r.protocol := cache];
    }

    method DoDeleteUnicastRoute(p: nat, d: Prefix) returns (out: Outcome)
      requires Valid() && (kernel.honest ==> Routes(kernel.table, Link, p, d) == {})
      modifies this`unicast, kernel
      ensures Valid()
      ensures out == InvalidRoute <==> Unroutable(d)
      ensures var cache := old(CacheOf(unicast, p));
              unicast == old(unicast)[p := if out == Done then cache - {d} else cache]
      ensures (kernel.honest ==> old(kernel.honest)) && old(kernel.log) <= kernel.log
      ensures old(kernel.honest) && d.ip.v6 ==> (kernel.honest <==> Agrees(kernel.table, p, CacheOf(unicast, p)))
      ensures kernel.honest ==> forall i | |old(kernel.log)| <= i < |kernel.log| ::
                Local(old(kernel.table), kernel.log[i], Unicast, p, d)
      ensures d !in old(CacheOf(unicast, p)) ==>
                kernel.log == old(kernel.log) && kernel.table == old(kernel.table) &&
                kernel.honest == old(kernel.honest)
    {
      ghost var t, was := kernel.table, kernel.honest;
      assert KeptIf(was, t, p, CacheOf(unicast, p));
      var cache;
      out, cache := Delete(kernel, p, CacheOf(unicast, p), d);
      if kernel.honest { LocalExcept(t, kernel.table, Unicast, p, d); }
      AllKeptAfter(was, kernel.honest, t, kernel.table, Unicast, p, unicast, cache);
      unicast := unicast[p := cache];
    }

    method DoSyncUnicastRoutes(p: nat, db: UnicastDb) returns (out: Outcome)
      requires Valid() && Keyed(p, db)
      requires (kernel.honest ==> Dsts(kernel.table, Link, p) !! CacheOf(unicast, p).Keys + db.Keys)
      modifies this`unicast, kernel
      ensures Valid() && unicast == old(unicast)[p := CacheOf(unicast, p)]
      ensures out == Done ==> CacheOf(unicast, p) == FilledDb(db)
      ensures (kernel.honest ==> old(kernel.honest)) && old(kernel.log) <= kernel.log
      ensures LoggedIf(kernel.honest, old(kernel.table), kernel.log, |old(kernel.log)|, kernel.table, Unicast, p,
                           old(Dsts(kernel.table, Unicast, p)) + db.Keys)
      ensures old(CacheOf(unicast, p)) == FilledDb(db) ==>
                out == Done && kernel.log == old(kernel.log) && kernel.table == old(kernel.table) &&
                   kernel.honest == old(kernel.honest)
    {
      ghost var t, was := kernel.table, kernel.honest;
      assert KeptIf(was, t, p, CacheOf(unicast, p));
      var cache;
      out, cache := SyncUnicast(kernel, p, CacheOf(unicast, p), db);
      AllKeptAfter(was, kernel.honest, t, kernel.table, Unicast, p, unicast, cache);
      unicast := unicast[p := cache];
    }

    /** The link cache is replaced only if every request succeeded. */
    method DoSyncLinkRoutes(p: nat, db: LinkDb) returns (ok: bool)
      requires Valid() && OnePer(CacheOf(links, p).Keys) && OnePer(db.Keys) && LinkKeyed(p, db)
      requires LinksIf(kernel.honest, kernel.table, p, LinkDsts(CacheOf(links, p).Keys))
      requires kernel.honest ==> Dsts(kernel.table, Unicast, p) !! LinkDsts(CacheOf(links, p).Keys) + LinkDsts(db.Keys)
      modifies this`links, kernel
      ensures Valid() && links == if ok then old(links)[p := db] else old(links)
      ensures ok ==> LinksIf(kernel.honest, kernel.table, p, LinkDsts(db.Keys))
      ensures (kernel.honest ==> old(kernel.honest)) && old(kernel.log) <= kernel.log
      ensures LoggedIf(kernel.honest, old(kernel.table), kernel.log, |old(kernel.log)|, kernel.table, Link, p,
                           LinkDsts(old(CacheOf(links, p)).Keys) + LinkDsts(db.Keys))
      ensures old(CacheOf(links, p)).Keys == db.Keys ==>
                ok && kernel.log == old(kernel.log) && kernel.table == old(kernel.table) &&
                   kernel.honest == old(kernel.honest)
    {
      ghost var t, was := kernel.table, kernel.honest;
      ok := SyncLinks(kernel, p, CacheOf(links, p), db);
      forall q ensures KeptIf(kernel.honest, kernel.table, q, CacheOf(unicast, q)) {
        if kernel.honest { KeptElsewhere(t, kernel.table, Link, p, q, CacheOf(unicast, q)); }
      }
      if ok { links := links[p := db]; }
    }
  }
}
