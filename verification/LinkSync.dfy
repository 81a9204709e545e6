/**
 The synchronisation of link routes. The link cache is replaced only after every request has
 succeeded; until then it describes the kernel before the first request.
 */
module LinkSync {
  import opened MeshTypes
  import opened RouteCodec
  import opened RouteCache
  import opened RouteSocket

  type LinkKey = (Prefix, string)
  type LinkDb = map<LinkKey, Rt>

  function LinkDsts(keys: set<LinkKey>): set<Prefix> { set k | k in keys :: k.0 }

  predicate LinkKeyed(p: nat, db: LinkDb) {
    forall k <- db :: db[k].dst == k.0 && db[k].ifName == Some(k.1) && db[k].protocol == p
  }

  /** No prefix appears with two interfaces. */
  predicate OnePer(keys: set<LinkKey>) { forall i, j | i in keys && j in keys && i.0 == j.0 :: i == j }

  /** The kernel has exactly one link route for every prefix of the cache, and no other. */
  ghost predicate LinksAgree(t: Table, p: nat, dsts: set<Prefix>) {
    forall d {:trigger Routes(t, Link, p, d)} ::
        if d in dsts then |Routes(t, Link, p, d)| == 1 else Routes(t, Link, p, d) == {}
  }

  ghost predicate LinksIf(honest: bool, t: Table, p: nat, dsts: set<Prefix>) { honest ==> LinksAgree(t, p, dsts) }

  lemma LinksAgreeStep(t: Table, t': Table, p: nat, dsts: set<Prefix>, dsts': set<Prefix>, d: Prefix)
    requires LinksAgree(t, p, dsts) && SameElsewhere(t, t', p, d)
    requires dsts' == dsts + {d} || dsts' == dsts - {d}
    requires if d in dsts' then |Routes(t', Link, p, d)| == 1 else Routes(t', Link, p, d) == {}
    ensures LinksAgree(t', p, dsts')
  {
    forall x ensures if x in dsts' then |Routes(t', Link, p, x)| == 1 else Routes(t', Link, p, x) == {} {
      if x != d { assert Routes(t', Link, p, x) == Routes(t, Link, p, x); }
    }
  }

  lemma Singleton<T>(s: set<T>, x: T, y: T)
    requires |s| == 1 && x in s && y in s
    ensures x == y
  {
    assert |s - {x}| == 0;
    assert y in s - {x} || y == x;
  }

  lemma LinkDeleted(t: Table, t': Table, p: nat, d: Prefix)
    requires |Routes(t, Link, p, d)| == 1 && Routes(t, Unicast, p, d) == {}
    requires exists e :: e in t && At(e, p, d) && t' == t - {e}
    ensures Routes(t', Link, p, d) == {} && Routes(t', Unicast, p, d) == {} && SameElsewhere(t, t', p, d)
  {
    var e :| e in t && At(e, p, d) && t' == t - {e};
    assert e.owner == Unicast ==> e.route in Routes(t, Unicast, p, d);
    assert Routes(t', Unicast, p, d) <= Routes(t, Unicast, p, d);
    forall f | f in t && f.owner == Link && At(f, p, d) ensures f == e {
      Singleton(Routes(t, Link, p, d), e.route, f.route);
    }
  }

  lemma LinkAdded(t: Table, t': Table, p: nat, r: Rt)
    requires r.protocol == p && Routes(t, Link, p, r.dst) == {} && Routes(t, Unicast, p, r.dst) == {}
    requires Entry(Link, r) in t' && SameElsewhere(t, t', p, r.dst)
    requires forall e | e in t' && At(e, p, r.dst) :: e == Entry(Link, r) || e in t
    ensures Routes(t', Link, p, r.dst) == {r} && Routes(t', Unicast, p, r.dst) == {}
  {
    assert Routes(t', Unicast, p, r.dst) <= Routes(t, Unicast, p, r.dst);
    forall x | x in Routes(t', Link, p, r.dst) ensures x == r {
      var e :| e in t' && e.owner == Link && At(e, p, r.dst) && e.route == x;
      assert e in t ==> x in Routes(t, Link, p, r.dst);
    }
    assert At(Entry(Link, r), p, r.dst);
  }

  lemma LinkPresent(t: Table, p: nat, dsts: set<Prefix>, d: Prefix)
    requires LinksAgree(t, p, dsts) && d in dsts
    ensures exists e <- t :: At(e, p, d)
  {
    NoRoutesAt(t, Link, p, d);
    assert |Routes(t, Link, p, d)| == 1;
  }

  /** Delete one link route the kernel has. */
  method DeleteLink(k: Kernel, p: nat, d: Prefix, ghost dsts: set<Prefix>,
                    ghost t0: Table, ghost from: nat, ghost s: set<Prefix>) returns (ok: bool)
    requires LinksIf(k.honest, k.table, p, dsts) && d in dsts && (k.honest ==> d !in Dsts(t0, Unicast, p) && d in s)
    requires from <= |k.log| && LoggedIf(k.honest, t0, k.log, from, k.table, Link, p, s)
    modifies k
    ensures LinksIf(k.honest, k.table, p, if ok then dsts - {d} else dsts)
    ensures (k.honest ==> old(k.honest)) && old(k.log) <= k.log
    ensures LoggedIf(k.honest, t0, k.log, from, k.table, Link, p, s)
  {
    ghost var t := k.table;
    if k.honest {
      NoneOfOther(t0, t, Link, Unicast, p, d, s);
      LinkPresent(t, p, dsts, d);
    }
    ok := k.DeleteRoute(p, d);
    if ok && k.honest {
      assert |Routes(t, Link, p, d)| == 1;
      LinkDeleted(t, k.table, p, d);
      LinksAgreeStep(t, k.table, p, dsts, dsts - {d}, d);
      LocalIf(t, k.table, Link, Unicast, p, d);
    }
    if k.honest { Extend(t0, t, k.table, old(k.log), k.log, from, Link, p, d, s); }
  }

  /** Add one link route the kernel does not have. */
  method AddLink(k: Kernel, p: nat, r: Rt, ghost dsts: set<Prefix>,
                 ghost t0: Table, ghost from: nat, ghost s: set<Prefix>) returns (ok: bool)
    requires LinksIf(k.honest, k.table, p, dsts) && r.dst !in dsts && r.protocol == p
    requires k.honest ==> r.dst !in Dsts(t0, Unicast, p) && r.dst in s
    requires from <= |k.log| && LoggedIf(k.honest, t0, k.log, from, k.table, Link, p, s)
    modifies k
    ensures LinksIf(k.honest, k.table, p, if ok then dsts + {r.dst} else dsts)
    ensures (k.honest ==> old(k.honest)) && old(k.log) <= k.log
    ensures LoggedIf(k.honest, t0, k.log, from, k.table, Link, p, s)
  {
    ghost var t := k.table;
    if k.honest {
      NoneOfOther(t0, t, Link, Unicast, p, r.dst, s);
      assert Routes(t, Link, p, r.dst) == {};
    }
    ok := k.AddRoute(Link, r);
    if ok && k.honest {
      LinkAdded(t, k.table, p, r);
      LinksAgreeStep(t, k.table, p, dsts, dsts + {r.dst}, r.dst);
      LocalIf(t, k.table, Link, Unicast, p, r.dst);
    }
    if k.honest { Extend(t0, t, k.table, old(k.log), k.log, from, Link, p, r.dst, s); }
  }

  /** The first pass over the link table: delete the keys that are no longer wanted. */
  method DeleteLinks(k: Kernel, p: nat, keys: set<LinkKey>, ghost keep: set<LinkKey>,
                     ghost t0: Table, ghost from: nat, ghost s: set<Prefix>) returns (ok: bool)
    requires keep !! keys && OnePer(keep + keys)
    requires k.honest ==> LinkDsts(keys) !! Dsts(t0, Unicast, p) && LinkDsts(keys) <= s
    requires LinksIf(k.honest, k.table, p, LinkDsts(keep + keys))
    requires from <= |k.log| && LoggedIf(k.honest, t0, k.log, from, k.table, Link, p, s)
    modifies k
    ensures ok ==> LinksIf(k.honest, k.table, p, LinkDsts(keep))
    ensures (k.honest ==> old(k.honest)) && old(k.log) <= k.log
    ensures LoggedIf(k.honest, t0, k.log, from, k.table, Link, p, s)
    ensures keys == {} ==> ok && k.log == old(k.log) && k.table == old(k.table) && k.honest == old(k.honest)
  {
    var todo := keys;
    while todo != {}
      invariant todo <= keys
      invariant LinksIf(k.honest, k.table, p, LinkDsts(keep + todo))
      invariant (k.honest ==> old(k.honest)) && old(k.log) <= k.log &&
              LoggedIf(k.honest, t0, k.log, from, k.table, Link, p, s)
      invariant keys == {} ==> k.log == old(k.log) && k.table == old(k.table) && k.honest == old(k.honest)
      decreases |todo|
    {
      var key :| key in todo;
      assert key.0 in LinkDsts(keys) && key.0 in LinkDsts(keep + todo);
      ok := DeleteLink(k, p, key.0, LinkDsts(keep + todo), t0, from, s);
      if !ok { return; }
      PlusLess(keep, todo, key);
      DstsWithout(keep + todo, key);
      todo := todo - {key};
    }
    ok := true;
    assert keep + todo == keep;
  }

  lemma PlusLess<T>(keep: set<T>, todo: set<T>, x: T)
    requires keep !! todo && x in todo
    ensures (keep + todo) - {x} == keep + (todo - {x})
  {
  }

  lemma DstsWithout(keys: set<LinkKey>, key: LinkKey)
    requires key in keys && forall j <- keys :: j.0 == key.0 ==> j == key
    ensures LinkDsts(keys - {key}) == LinkDsts(keys) - {key.0}
  {
    forall d | d in LinkDsts(keys) - {key.0} ensures d in LinkDsts(keys - {key}) {
      var j :| j in keys && j.0 == d;
      assert j in keys - {key};
    }
  }

  lemma DstsWith(keys: set<LinkKey>, key: LinkKey)
    requires key !in keys && forall j <- keys :: j.0 == key.0 ==> j == key
    ensures key.0 !in LinkDsts(keys) && LinkDsts(keys + {key}) == LinkDsts(keys) + {key.0}
  {
    forall d | d in LinkDsts(keys) ensures d in LinkDsts(keys + {key}) {
      var j :| j in keys && j.0 == d;
      assert j in keys + {key};
    }
  }

  /** The second pass over the link table: add the keys that are not there yet. */
  method AddLinks(k: Kernel, p: nat, db: LinkDb, keys: set<LinkKey>, ghost there: set<LinkKey>,
                  ghost t0: Table, ghost from: nat, ghost s: set<Prefix>) returns (ok: bool)
    requires LinkKeyed(p, db) && keys <= db.Keys && there !! keys && OnePer(there + keys)
    requires k.honest ==> LinkDsts(keys) !! Dsts(t0, Unicast, p) && LinkDsts(keys) <= s
    requires LinksIf(k.honest, k.table, p, LinkDsts(there))
    requires from <= |k.log| && LoggedIf(k.honest, t0, k.log, from, k.table, Link, p, s)
    modifies k
    ensures ok ==> LinksIf(k.honest, k.table, p, LinkDsts(there + keys))
    ensures (k.honest ==> old(k.honest)) && old(k.log) <= k.log
    ensures LoggedIf(k.honest, t0, k.log, from, k.table, Link, p, s)
    ensures keys == {} ==> ok && k.log == old(k.log) && k.table == old(k.table) && k.honest == old(k.honest)
  {
    var todo := keys;
    ghost var now := there;
    while todo != {}
      invariant todo <= keys && now !! todo && now + todo == there + keys
      invariant LinksIf(k.honest, k.table, p, LinkDsts(now))
      invariant (k.honest ==> old(k.honest)) && old(k.log) <= k.log &&
              LoggedIf(k.honest, t0, k.log, from, k.table, Link, p, s)
      invariant keys == {} ==> k.log == old(k.log) && k.table == old(k.table) && k.honest == old(k.honest)
      decreases |todo|
    {
      var key :| key in todo;
      assert key.0 in LinkDsts(keys) && key in now + todo;
      assert forall j <- now :: j in now + todo;
      DstsWith(now, key);
      ok := AddLink(k, p, db[key], LinkDsts(now), t0, from, s);
      if !ok { return; }
      PlusMore(now, todo, key);
      todo, now := todo - {key}, now + {key};
    }
    ok := true;
    assert now + todo == now;
  }

  lemma PlusMore<T>(now: set<T>, todo: set<T>, x: T)
    requires now !! todo && x in todo
    ensures (now + {x}) + (todo - {x}) == now + todo && (now + {x}) !! (todo - {x})
  {
  }

  lemma LinksInKernel(t: Table, p: nat, dsts: set<Prefix>)
    requires LinksAgree(t, p, dsts)
    ensures Dsts(t, Link, p) == dsts
  {
    forall d ensures d in Dsts(t, Link, p) <==> d in dsts {
      NoRoutesAt(t, Link, p, d);
      assert d in dsts ==> |Routes(t, Link, p, d)| == 1;
    }
  }

  /** Bring the link routes of one protocol to the requested keys. */
  method SyncLinks(k: Kernel, p: nat, cache: LinkDb, db: LinkDb) returns (ok: bool)
    requires OnePer(cache.Keys) && OnePer(db.Keys) && LinkKeyed(p, db)
    requires LinksIf(k.honest, k.table, p, LinkDsts(cache.Keys))
    requires k.honest ==> Dsts(k.table, Unicast, p) !! LinkDsts(cache.Keys) + LinkDsts(db.Keys)
    modifies k
    ensures ok ==> LinksIf(k.honest, k.table, p, LinkDsts(db.Keys))
    ensures (k.honest ==> old(k.honest)) && old(k.log) <= k.log
    ensures LoggedIf(k.honest, old(k.table), k.log, |old(k.log)|, k.table, Link, p,
          LinkDsts(cache.Keys) + LinkDsts(db.Keys))
    ensures cache.Keys == db.Keys ==> ok && k.log == old(k.log) && k.table == old(k.table) && k.honest == old(k.honest)
  {
    ghost var t0, from, s := k.table, |k.log|, LinkDsts(cache.Keys) + LinkDsts(db.Keys);
    if k.honest { LinksInKernel(t0, p, LinkDsts(cache.Keys)); }
    var toDel, toAdd := cache.Keys - db.Keys, db.Keys - cache.Keys;
    ghost var both := cache.Keys * db.Keys;
    assert both + toDel == cache.Keys && both + toAdd == db.Keys;
    assert LinkDsts(toDel) <= LinkDsts(cache.Keys) && LinkDsts(toAdd) <= LinkDsts(db.Keys);
    ok := DeleteLinks(k, p, toDel, both, t0, from, s);
    if !ok { return; }
    ok := AddLinks(k, p, db, toAdd, both, t0, from, s);
  }
}
