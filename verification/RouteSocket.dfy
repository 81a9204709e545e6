/**
 The unicast operations of the netlink socket: single updates and deletions, and the two passes
 that bring the kernel to a requested table. In every state they leave behind, also after a
 refused request, cache and kernel agree, unless the kernel has answered with an error that the
 program ignores where it matters.
 */
module RouteSocket {
  import opened RouteCache

  datatype Outcome = Done | InvalidRoute | DeleteFailed | AddFailed

  // ----- What a stretch of requests may touch

  /** The entries other than those of owner `o` at prefix `d` of protocol `p`. */
  function Away(t: Table, o: Owner, p: nat, d: Prefix): Table { set e | e in t && !(e.owner == o && At(e, p, d)) }

  /** The entries other than those of owner `o` and protocol `p`. */
  function Except(t: Table, o: Owner, p: nat): Table { set e | e in t && !(e.owner == o && e.route.protocol == p) }

  predicate Local(t: Table, t': Table, o: Owner, p: nat, d: Prefix) { Away(t', o, p, d) == Away(t, o, p, d) }

  /** Only routes of `o` and `p` have changed since `t0`, and their prefixes are among `s`. */
  predicate Within(t0: Table, t: Table, o: Owner, p: nat, s: set<Prefix>) {
    Dsts(t, o, p) <= s && Except(t, o, p) == Except(t0, o, p)
  }

  /** `t` and everything logged since `from` stay within the given prefixes. */
  ghost predicate LoggedWithin(t0: Table, log: seq<Table>, from: nat, t: Table, o: Owner, p: nat, s: set<Prefix>) {
    && Within(t0, t, o, p, s)
    && forall i {:trigger Within(t0, log[i], o, p, s)} | from <= i < |log| :: Within(t0, log[i], o, p, s)
  }

  lemma NoRoutesAt(t: Table, o: Owner, p: nat, d: Prefix)
    ensures d !in Dsts(t, o, p) <==> Routes(t, o, p, d) == {}
  {
    if d in Dsts(t, o, p) {
      var e :| e in t && e.owner == o && e.route.protocol == p && e.route.dst == d;
      assert e.route in Routes(t, o, p, d);
    }
    if Routes(t, o, p, d) != {} {
      var r :| r in Routes(t, o, p, d);
      var e :| e in t && e.owner == o && At(e, p, d) && e.route == r;
      assert d in Dsts(t, o, p);
    }
  }

  /** Where the other owner has no route, a change at one prefix is a change of one owner's routes. */
  lemma LocalIf(t: Table, t': Table, o: Owner, o': Owner, p: nat, d: Prefix)
    requires o != o' && Routes(t, o', p, d) == {} && Routes(t', o', p, d) == {} && SameElsewhere(t, t', p, d)
    ensures Local(t, t', o, p, d)
  {
    forall e | e in t + t' && At(e, p, d) ensures e.owner == o {
      assert e.owner != o ==> e.route in Routes(t, o', p, d) + Routes(t', o', p, d);
    }
  }

  lemma LocalWithin(t0: Table, t: Table, t': Table, o: Owner, p: nat, d: Prefix, s: set<Prefix>)
    requires Within(t0, t, o, p, s) && Local(t, t', o, p, d) && d in s
    ensures Within(t0, t', o, p, s)
  {
    forall x | x in Dsts(t', o, p) ensures x in s {
      var e :| e in t' && e.owner == o && e.route.protocol == p && e.route.dst == x;
      if x != d { assert e in Away(t', o, p, d); assert x in Dsts(t, o, p); }
    }
    forall e | e in t + t' && !(e.owner == o && e.route.protocol == p) ensures e in t && e in t' {
      assert e in Away(t, o, p, d) + Away(t', o, p, d);
    }
    assert Except(t', o, p) == Except(t, o, p);
  }

  /** Requests for one owner's routes leave the other owner's routes as they were. */
  lemma OtherSame(t0: Table, t: Table, o: Owner, o': Owner, p: nat, q: nat, d: Prefix)
    requires (o != o' || p != q) && Except(t, o, p) == Except(t0, o, p)
    ensures Routes(t, o', q, d) == Routes(t0, o', q, d)
  {
    forall e | e in t + t0 && e.owner == o' && At(e, q, d) ensures e in t && e in t0 {
      assert e in Except(t, o, p) + Except(t0, o, p);
    }
  }

  lemma NoneOfOther(t0: Table, t: Table, o: Owner, o': Owner, p: nat, d: Prefix, s: set<Prefix>)
    requires o != o' && Within(t0, t, o, p, s) && d !in Dsts(t0, o', p)
    ensures Routes(t, o', p, d) == {}
  {
    OtherSame(t0, t, o, o', p, p, d);
    NoRoutesAt(t0, o', p, d);
  }

  /** A stretch of requests about one prefix keeps the log within bounds. */
  lemma Extend(t0: Table, t: Table, t': Table, log0: seq<Table>, log: seq<Table>, from: nat,
               o: Owner, p: nat, d: Prefix, s: set<Prefix>)
    requires from <= |log0| && log0 <= log && d in s && LoggedWithin(t0, log0, from, t, o, p, s)
    requires Local(t, t', o, p, d) && forall i | |log0| <= i < |log| :: Local(t, log[i], o, p, d)
    ensures LoggedWithin(t0, log, from, t', o, p, s)
  {
    LocalWithin(t0, t, t', o, p, d, s);
    forall i | from <= i < |log| ensures Within(t0, log[i], o, p, s) {
      if i >= |log0| { LocalWithin(t0, t, log[i], o, p, d, s); } else { assert log[i] == log0[i]; }
    }
  }

  lemma RoutesShrink(t: Table, t': Table, o: Owner, p: nat, d: Prefix)
    requires t' <= t && Routes(t, o, p, d) == {}
    ensures Routes(t', o, p, d) == {}
  {
    assert Routes(t', o, p, d) <= Routes(t, o, p, d);
  }

  predicate CacheOk(p: nat, cache: UnicastDb) { Keyed(p, cache) && forall d <- cache :: !Unroutable(d) }

  /** What every operation on one prefix keeps, step by step. */
  ghost predicate Kept(t: Table, p: nat, cache: UnicastDb) { CacheOk(p, cache) && Agrees(t, p, cache) }

  /** The same of a kernel whose ignored errors may have mattered. */
  ghost predicate KeptIf(honest: bool, t: Table, p: nat, cache: UnicastDb) {
    CacheOk(p, cache) && (honest ==> Agrees(t, p, cache))
  }

  ghost predicate LoggedIf(honest: bool, t0: Table, log: seq<Table>, from: nat, t: Table, o: Owner, p: nat,
          s: set<Prefix>) {
    honest ==> LoggedWithin(t0, log, from, t, o, p, s)
  }

  /** Once the kernel has no unicast route of `d` (or `d` is IPv4), forgetting `d` keeps agreement. */
  lemma Forgotten(t: Table, t': Table, p: nat, cache: UnicastDb, d: Prefix)
    requires Kept(t, p, cache) && SameElsewhere(t, t', p, d)
    requires d.ip.v6 ==> Routes(t', Unicast, p, d) == {}
    ensures Kept(t', p, cache - {d})
  {
    AgreesElsewhere(t, t', p, cache, cache - {d}, d);
  }

  /** A route newly added where the kernel had none (or an IPv4 one) may be cached. */
  lemma Remembered(t: Table, t': Table, p: nat, cache: UnicastDb, r: Rt)
    requires Kept(t, p, cache) && r.protocol == p && r.dst !in cache && !Unroutable(r.dst)
    requires Entry(Unicast, r) in t' && SameElsewhere(t, t', p, r.dst)
    requires forall e | e in t' && At(e, p, r.dst) :: e == Entry(Unicast, r) || e in t
    ensures Kept(t', p, cache[r.dst := r])
  {
    var d := r.dst;
    if d.ip.v6 {
      assert AgreesAt(t, p, cache, d);
      AddedOnly(t, t', p, d, r);
    }
    AgreesElsewhere(t, t', p, cache, cache[d := r], d);
  }

  lemma NoLinkAfterAdd(t: Table, t': Table, p: nat, d: Prefix, r: Rt)
    requires Routes(t, Link, p, d) == {}
    requires forall e | e in t' && At(e, p, d) :: e == Entry(Unicast, r) || e in t
    ensures Routes(t', Link, p, d) == {}
  {
    assert Routes(t', Link, p, d) <= Routes(t, Link, p, d);
  }

  /** Remove the cached IPv6 route of `d` from the kernel before it is replaced. */
  method DeleteCached(k: Kernel, p: nat, cache: UnicastDb, d: Prefix) returns (ok: bool)
    requires KeptIf(k.honest, k.table, p, cache) && d in cache && d.ip.v6
    requires (k.honest ==> Routes(k.table, Link, p, d) == {})
    modifies k
    ensures k.log == old(k.log) + [k.table]
    ensures k.honest ==>
              old(k.honest) && Local(old(k.table), k.table, Unicast, p, d) && SameElsewhere(old(k.table), k.table, p, d)
    ensures !ok ==> k.table == old(k.table) && k.honest == old(k.honest)
    ensures ok && k.honest ==> Routes(k.table, Unicast, p, d) == {}
    ensures old(k.honest) && !k.honest ==> k.table == old(k.table) && Routes(k.table, Unicast, p, d) == {cache[d]}
  {
    ghost var t := k.table;
    if k.honest {
      assert AgreesAt(t, p, cache, d);
      assert cache[d] in Routes(t, Unicast, p, d);
      assert exists e <- t :: At(e, p, d) by { var e :| e in t && e.owner == Unicast && At(e, p, d) &&
         e.route == cache[d]; }
    }
    ok := k.DeleteRoute(p, d);
    if ok && k.honest {
      DeletedOnly(t, k.table, p, d, cache[d]);
      RoutesShrink(t, k.table, Link, p, d);
      LocalIf(t, k.table, Unicast, Link, p, d);
    }
  }

  lemma LocalKeepsOther(t: Table, t': Table, p: nat, d: Prefix)
    requires Local(t, t', Unicast, p, d)
    ensures Routes(t', Link, p, d) == Routes(t, Link, p, d)
  {
    forall e | e in t + t' && e.owner == Link && At(e, p, d) ensures e in t && e in t' {
      assert e in Away(t', Unicast, p, d) + Away(t, Unicast, p, d);
    }
  }

  /** The cache an update leaves, by its outcome. */
  function Updated(cache: UnicastDb, r: Rt, out: Outcome): UnicastDb {
    match out
    case Done => cache[r.dst := r]
    case AddFailed => cache - {r.dst}
    case _ => cache
  }

  /** The kernel still has what the cache no longer says, or lacks what the cache says. */
  lemma Broken(t: Table, p: nat, cache: UnicastDb, d: Prefix, r: Rt)
    requires r in Routes(t, Unicast, p, d) && d.ip.v6 && (d in cache ==> cache[d] != r)
    ensures !Agrees(t, p, cache)
  {
    assert !AgreesAt(t, p, cache, d);
  }

  lemma Missing(t: Table, p: nat, cache: UnicastDb, d: Prefix)
    requires d in cache && cache[d].protocol == p && cache[d].dst == d && Entry(Unicast, cache[d]) !in t
    ensures !Agrees(t, p, cache)
  {
    assert cache[d] !in Routes(t, Unicast, p, d);
    assert !AgreesAt(t, p, cache, d);
  }

  lemma RoutesGrow(t: Table, t': Table, o: Owner, p: nat, d: Prefix)
    requires t <= t'
    ensures Routes(t, o, p, d) <= Routes(t', o, p, d)
  {
  }

  /** The second half of an update: the old route is gone, the new one is added. */
  method AddNew(k: Kernel, cache: UnicastDb, r: Rt) returns (ok: bool)
    requires KeptIf(k.honest, k.table, r.protocol, cache) && r.dst !in cache && !Unroutable(r.dst)
    requires k.honest ==> Routes(k.table, Link, r.protocol, r.dst) == {}
    modifies k
    ensures k.log == old(k.log) + [k.table] && (k.honest ==> old(k.honest))
    ensures KeptIf(k.honest, k.table, r.protocol, if ok then cache[r.dst := r] else cache)
    ensures !ok ==> k.table == old(k.table) && k.honest == old(k.honest)
    ensures k.honest ==> Local(old(k.table), k.table, Unicast, r.protocol, r.dst)
    ensures old(k.honest) && !k.honest ==> !Agrees(k.table, r.protocol, cache[r.dst := r])
    ensures r.dst.ip.v6 ==> old(k.table) <= k.table
  {
    var p, d := r.protocol, r.dst;
    ghost var t1 := k.table;
    ok := k.AddRoute(Unicast, r);
    if ok && k.honest {
      NoLinkAfterAdd(t1, k.table, p, d, r);
      LocalIf(t1, k.table, Unicast, Link, p, d);
      Remembered(t1, k.table, p, cache, r);
    }
    if ok && old(k.honest) && !k.honest { Missing(k.table, p, cache[d := r], d); }
  }

  /** The steps of an update once the new route is known to differ from the cached one. Cache and kernel
      agree afterwards if and only if no ignored error mattered. */
  method Replace(k: Kernel, cache: UnicastDb, r: Rt) returns (out: Outcome, cache': UnicastDb)
    requires KeptIf(k.honest, k.table, r.protocol, cache) && !Unroutable(r.dst)
    requires (r.dst in cache ==> cache[r.dst] != r)
    requires k.honest ==> Routes(k.table, Link, r.protocol, r.dst) == {}
    modifies k
    ensures KeptIf(k.honest, k.table, r.protocol, cache') && (k.honest ==> old(k.honest))
    ensures old(k.honest) && !k.honest ==> !Agrees(k.table, r.protocol, cache')
    ensures out != InvalidRoute && cache' == Updated(cache, r, out)
    ensures old(k.log) <= k.log
    ensures k.honest ==> Local(old(k.table), k.table, Unicast, r.protocol, r.dst)
    ensures k.honest ==> forall i | |old(k.log)| <= i < |k.log| ::
              Local(old(k.table), k.log[i], Unicast, r.protocol, r.dst)
  {
    var p, d := r.protocol, r.dst;
    ghost var t0 := k.table;
    if d.ip.v6 && d in cache {
      var ok := DeleteCached(k, p, cache, d);
      if !ok { return DeleteFailed, cache; }
    } else if k.honest {
      assert AgreesAt(t0, p, cache, d);
    }
    ghost var t1, honest1 := k.table, k.honest;
    if honest1 {
      LocalKeepsOther(t0, t1, p, d);
      Forgotten(t0, t1, p, cache, d);
    }
    cache' := cache - {d};
    var ok := AddNew(k, cache', r);
    if ok {
      cache' := cache'[d := r];
      assert cache' == cache[d := r];
    }
    if old(k.honest) && !honest1 {
      RoutesGrow(t1, k.table, Unicast, p, d);
      Broken(k.table, p, cache', d, cache[d]);
    }
    out := if ok then Done else AddFailed;
  }

  /** Add or update one unicast route. */
  method AddUpdate(k: Kernel, cache: UnicastDb, r: Rt) returns (out: Outcome, cache': UnicastDb)
    requires KeptIf(k.honest, k.table, r.protocol, cache)
    requires (k.honest ==> Routes(k.table, Link, r.protocol, r.dst) == {})
    modifies k
    ensures KeptIf(k.honest, k.table, r.protocol, cache') && (k.honest ==> old(k.honest))
    ensures old(k.honest) && !k.honest ==> !Agrees(k.table, r.protocol, cache')
    ensures out == InvalidRoute <==> Unroutable(r.dst)
    ensures cache' == Updated(cache, Filled(r), out)
    ensures old(k.log) <= k.log
    ensures k.honest ==> Local(old(k.table), k.table, Unicast, r.protocol, r.dst)
    ensures k.honest ==> forall i | |old(k.log)| <= i < |k.log| ::
              Local(old(k.table), k.log[i], Unicast, r.protocol, r.dst)
    ensures !Unroutable(r.dst) && r.dst in cache && cache[r.dst] == Filled(r) ==>
              out == Done && cache' == cache && k.log == old(k.log) && k.table == old(k.table) &&
                 k.honest == old(k.honest)
  {
    if Unroutable(r.dst) { return InvalidRoute, cache; }
    var route := Filled(r);
    if r.dst in cache {
      var same := SameRoute(cache[r.dst], route);
      if same {
        assert cache == cache[r.dst := route];
        return Done, cache;
      }
    }
    out, cache' := Replace(k, cache, route);
  }

  /** Delete one unicast route; a prefix that is not cached is left alone. */
  method Delete(k: Kernel, p: nat, cache: UnicastDb, d: Prefix) returns (out: Outcome, cache': UnicastDb)
    requires KeptIf(k.honest, k.table, p, cache) && (k.honest ==> Routes(k.table, Link, p, d) == {})
    modifies k
    ensures KeptIf(k.honest, k.table, p, cache') && (k.honest ==> old(k.honest))
    ensures old(k.honest) && !k.honest && d.ip.v6 ==> !Agrees(k.table, p, cache')
    ensures out == InvalidRoute <==> Unroutable(d)
    ensures out != AddFailed && (out == Done ==> cache' == cache - {d}) && (out != Done ==> cache' == cache)
    ensures old(k.log) <= k.log
    ensures k.honest ==> Local(old(k.table), k.table, Unicast, p, d)
    ensures k.honest ==> forall i | |old(k.log)| <= i < |k.log| :: Local(old(k.table), k.log[i], Unicast, p, d)
    ensures d !in cache ==> k.log == old(k.log) && k.table == old(k.table) && k.honest == old(k.honest)
  {
    if Unroutable(d) { return InvalidRoute, cache; }
    if d !in cache {
      assert cache - {d} == cache;
      return Done, cache;
    }
    ghost var t := k.table;
    if d.ip.v6 {
      var ok := DeleteCached(k, p, cache, d);
      if !ok { return DeleteFailed, cache; }
      if old(k.honest) && !k.honest { Broken(k.table, p, cache - {d}, d, cache[d]); }
    } else {
      var ok := k.DeleteRoute(p, d);
      if k.honest { DeletedV4(t, k.table, p, d, cache[d]); }
      if !ok { return DeleteFailed, cache; }
    }
    if k.honest { Forgotten(t, k.table, p, cache, d); }
    return Done, cache - {d};
  }

  lemma DeletedV4(t: Table, t': Table, p: nat, d: Prefix, r: Rt)
    requires Routes(t, Link, p, d) == {}
    requires t' == t || exists e :: e in t && At(e, p, d) && t' == t - {e}
    ensures Local(t, t', Unicast, p, d) && SameElsewhere(t, t', p, d)
  {
    RoutesShrink(t, t', Link, p, d);
    LocalIf(t, t', Unicast, Link, p, d);
  }

  // ----- Synchronisation of the unicast table

  /** One deletion of the first pass. */
  method DeleteOne(k: Kernel, p: nat, cache: UnicastDb, d: Prefix,
                   ghost t0: Table, ghost from: nat, ghost s: set<Prefix>) returns (out: Outcome, cache': UnicastDb)
    requires KeptIf(k.honest, k.table, p, cache) && (k.honest ==> d in s && d !in Dsts(t0, Link, p))
    requires from <= |k.log| && LoggedIf(k.honest, t0, k.log, from, k.table, Unicast, p, s)
    modifies k
    ensures KeptIf(k.honest, k.table, p, cache') && cache' == if out == Done then cache - {d} else cache
    ensures (k.honest ==> old(k.honest)) && old(k.log) <= k.log
    ensures LoggedIf(k.honest, t0, k.log, from, k.table, Unicast, p, s)
  {
    if k.honest { NoneOfOther(t0, k.table, Unicast, Link, p, d, s); }
    ghost var t := k.table;
    out, cache' := Delete(k, p, cache, d);
    if k.honest { Extend(t0, t, k.table, old(k.log), k.log, from, Unicast, p, d, s); }
  }

  /** The first pass: delete what is cached but not wanted. */
  method DeleteUnwanted(k: Kernel, p: nat, cache: UnicastDb, unwanted: set<Prefix>,
                        ghost t0: Table, ghost from: nat, ghost s: set<Prefix>)
    returns (out: Outcome, cache': UnicastDb)
    requires KeptIf(k.honest, k.table, p, cache) && (k.honest ==> unwanted <= s && unwanted !! Dsts(t0, Link, p))
    requires from <= |k.log| && LoggedIf(k.honest, t0, k.log, from, k.table, Unicast, p, s)
    modifies k
    ensures KeptIf(k.honest, k.table, p, cache') && (out == Done ==> cache' == cache - unwanted)
    ensures (k.honest ==> old(k.honest)) && old(k.log) <= k.log
    ensures LoggedIf(k.honest, t0, k.log, from, k.table, Unicast, p, s)
    ensures unwanted == {} ==>
              out == Done && k.log == old(k.log) && k.table == old(k.table) && k.honest == old(k.honest)
  {
    cache' := cache;
    var todo := unwanted;
    while todo != {}
      invariant todo <= unwanted && cache' == cache - (unwanted - todo)
      invariant KeptIf(k.honest, k.table, p, cache')
      invariant (k.honest ==> old(k.honest)) && old(k.log) <= k.log &&
              LoggedIf(k.honest, t0, k.log, from, k.table, Unicast, p, s)
      invariant unwanted == {} ==> k.log == old(k.log) && k.table == old(k.table) && k.honest == old(k.honest)
      decreases |todo|
    {
      var d :| d in todo;
      out, cache' := DeleteOne(k, p, cache', d, t0, from, s);
      if out != Done { return; }
      MinusMore(cache, unwanted, todo, d);
      todo := todo - {d};
    }
    out := Done;
    assert unwanted - todo == unwanted;
  }

  lemma MinusMore<K, V>(m: map<K, V>, all: set<K>, todo: set<K>, x: K)
    requires x in todo && todo <= all
    ensures (m - (all - todo)) - {x} == m - (all - (todo - {x}))
  {
    assert (all - todo) + {x} == all - (todo - {x});
  }

  /** One update of the second pass. */
  method AddOne(k: Kernel, cache: UnicastDb, r: Rt,
                ghost t0: Table, ghost from: nat, ghost s: set<Prefix>) returns (out: Outcome, cache': UnicastDb)
    requires KeptIf(k.honest, k.table, r.protocol, cache)
    requires (k.honest ==> r.dst in s && r.dst !in Dsts(t0, Link, r.protocol))
    requires from <= |k.log| && LoggedIf(k.honest, t0, k.log, from, k.table, Unicast, r.protocol, s)
    modifies k
    ensures KeptIf(k.honest, k.table, r.protocol, cache')
    ensures cache' == Updated(cache, Filled(r), out)
    ensures (k.honest ==> old(k.honest)) && old(k.log) <= k.log
    ensures LoggedIf(k.honest, t0, k.log, from, k.table, Unicast, r.protocol, s)
    ensures !Unroutable(r.dst) && r.dst in cache && cache[r.dst] == Filled(r) ==>
              out == Done && cache' == cache && k.log == old(k.log) && k.table == old(k.table) &&
                 k.honest == old(k.honest)
  {
    if k.honest { NoneOfOther(t0, k.table, Unicast, Link, r.protocol, r.dst, s); }
    ghost var t := k.table;
    out, cache' := AddUpdate(k, cache, r);
    if k.honest { Extend(t0, t, k.table, old(k.log), k.log, from, Unicast, r.protocol, r.dst, s); }
  }

  predicate AddedSoFar(db: UnicastDb, todo: set<Prefix>, cache: UnicastDb) {
    cache.Keys <= db.Keys && forall d | d in db && d !in todo :: d in cache && cache[d] == Filled(db[d])
  }

  lemma AddedStep(db: UnicastDb, todo: set<Prefix>, cache: UnicastDb, d: Prefix)
    requires AddedSoFar(db, todo, cache) && d in todo && d in db
    ensures AddedSoFar(db, todo - {d}, cache[d := Filled(db[d])])
  {
  }

  lemma AddedAll(db: UnicastDb, cache: UnicastDb)
    requires AddedSoFar(db, {}, cache)
    ensures cache == FilledDb(db)
  {
  }

  /** The second pass: add or update everything wanted. */
  method AddWanted(k: Kernel, p: nat, cache: UnicastDb, db: UnicastDb,
                   ghost t0: Table, ghost from: nat, ghost s: set<Prefix>) returns (out: Outcome, cache': UnicastDb)
    requires KeptIf(k.honest, k.table, p, cache) && Keyed(p, db) && cache.Keys <= db.Keys
    requires k.honest ==> db.Keys <= s && db.Keys !! Dsts(t0, Link, p)
    requires from <= |k.log| && LoggedIf(k.honest, t0, k.log, from, k.table, Unicast, p, s)
    modifies k
    ensures KeptIf(k.honest, k.table, p, cache') && (out == Done ==> cache' == FilledDb(db))
    ensures (k.honest ==> old(k.honest)) && old(k.log) <= k.log
    ensures LoggedIf(k.honest, t0, k.log, from, k.table, Unicast, p, s)
    ensures cache == FilledDb(db) ==>
              out == Done && k.log == old(k.log) && k.table == old(k.table) && k.honest == old(k.honest)
  {
    cache' := cache;
    var todo := db.Keys;
    while todo != {}
      invariant todo <= db.Keys && AddedSoFar(db, todo, cache')
      invariant KeptIf(k.honest, k.table, p, cache')
      invariant (k.honest ==> old(k.honest)) && old(k.log) <= k.log &&
              LoggedIf(k.honest, t0, k.log, from, k.table, Unicast, p, s)
      invariant cache == FilledDb(db) ==>
                cache' == cache && k.log == old(k.log) && k.table == old(k.table) && k.honest == old(k.honest)
      decreases |todo|
    {
      var d :| d in todo;
      assert cache == FilledDb(db) ==> !Unroutable(d) && cache[d] == Filled(db[d]);
      ghost var before := cache';
      out, cache' := AddOne(k, cache', db[d], t0, from, s);
      if out != Done { return; }
      AddedStep(db, todo, before, d);
      todo := todo - {d};
    }
    out := Done;
    AddedAll(db, cache');
  }

  lemma CacheInKernel(t: Table, p: nat, cache: UnicastDb)
    requires Kept(t, p, cache)
    ensures cache.Keys <= Dsts(t, Unicast, p)
  {
    forall d | d in cache ensures d in Dsts(t, Unicast, p) {
      assert AgreesAt(t, p, cache, d);
      if d.ip.v6 {
        assert cache[d] in Routes(t, Unicast, p, d);
        NoRoutesAt(t, Unicast, p, d);
      }
    }
  }

  /** Bring the unicast routes of one protocol to the requested table. */
  method SyncUnicast(k: Kernel, p: nat, cache: UnicastDb, db: UnicastDb) returns (out: Outcome, cache': UnicastDb)
    requires KeptIf(k.honest, k.table, p, cache) && Keyed(p, db)
    requires (k.honest ==> Dsts(k.table, Link, p) !! cache.Keys + db.Keys)
    modifies k
    ensures KeptIf(k.honest, k.table, p, cache') && (out == Done ==> cache' == FilledDb(db))
    ensures (k.honest ==> old(k.honest)) && old(k.log) <= k.log
    ensures LoggedIf(k.honest, old(k.table), k.log, |old(k.log)|, k.table, Unicast, p,
                     old(Dsts(k.table, Unicast, p)) + db.Keys)
    ensures cache == FilledDb(db) ==>
              out == Done && k.log == old(k.log) && k.table == old(k.table) && k.honest == old(k.honest)
  {
    ghost var t0, from, s := k.table, |k.log|, Dsts(k.table, Unicast, p) + db.Keys;
    if k.honest { CacheInKernel(t0, p, cache); }
    var unwanted := cache.Keys - db.Keys;
    assert cache == FilledDb(db) ==> unwanted == {};
    out, cache' := DeleteUnwanted(k, p, cache, unwanted, t0, from, s);
    if out != Done { return; }
    assert unwanted == {} ==> cache' == cache;
    assert cache'.Keys <= db.Keys;
    out, cache' := AddWanted(k, p, cache', db, t0, from, s);
  }
}
