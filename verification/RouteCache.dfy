/**
 The route cache of the netlink socket and the kernel table behind it.

 The kernel is a set of routes it was asked for. It may refuse any request, and then nothing
 changes; some refusals the program ignores and takes for success. A delete request names only
 the prefix and the protocol and removes one matching route; a new IPv4 route may replace routes
 of the same prefix and protocol. Every request is recorded with the table it leaves, so that
 intermediate states can be spoken about.
 */
module RouteCache {
  import opened MeshTypes
  import opened RouteCodec

  datatype Prefix = Prefix(ip: Ip, len: nat)

  datatype Rt = Rt(
    dst: Prefix, mplsLabel: Option<nat>, nextHops: set<NextHop>, kind: nat, table: nat, protocol: nat, scope: nat,
    valid: bool, flags: Option<nat>, priority: Option<nat>, tos: Option<nat>, mtu: Option<nat>, advMss: Option<nat>,
    ifName: Option<string>, family: nat)

  type UnicastDb = map<Prefix, Rt>

  // ----- Route equality

  lemma {:induction false} EqualByInclusion<T>(a: set<T>, b: set<T>)
    requires |a| == |b| && a <= b
    ensures a == b
  {
    if a != {} {
      var x :| x in a;
      EqualByInclusion(a - {x}, b - {x});
    }
  }

  /** The program compares the numbers of next hops and looks each one up in the other set: that is
      equality of routes. */
  method SameRoute(a: Rt, b: Rt) returns (same: bool)
    ensures same <==> a == b
  {
    if a.dst != b.dst || a.mplsLabel != b.mplsLabel || |a.nextHops| != |b.nextHops| || a.kind != b.kind ||
       a.table != b.table || a.protocol != b.protocol || a.scope != b.scope || a.valid != b.valid ||
       a.flags != b.flags || a.priority != b.priority || a.tos != b.tos || a.mtu != b.mtu ||
       a.advMss != b.advMss || a.ifName != b.ifName || a.family != b.family
    {
      return false;
    }
    var todo := a.nextHops;
    while todo != {}
      invariant todo <= a.nextHops && a.nextHops - todo <= b.nextHops
      decreases |todo|
    {
      var nh :| nh in todo;
      if nh !in b.nextHops { return false; }
      todo := todo - {nh};
    }
    EqualByInclusion(a.nextHops, b.nextHops);
    return true;
  }

  // ----- Default priorities

  function DefaultPriority(protocol: nat): nat {
    if protocol == 99 then 10 else if protocol == 253 then 20 else if protocol == 64 then 11 else 255
  }

  function Filled(r: Rt): Rt {
    if r.priority.Some? then r else r.(priority := Some(DefaultPriority(r.protocol)))
  }

  function FilledDb(db: UnicastDb): UnicastDb { map d | d in db :: Filled(db[d]) }

  /** Multicast and link-local destinations are not unicast routes. */
  predicate Unroutable(d: Prefix) {
    d.ip.Ok() &&
    if d.ip.v6 then d.ip.bytes[0] == 0xff || (d.ip.bytes[0] == 0xfe && d.ip.bytes[1] / 64 == 2)
    else d.ip.bytes[0] / 16 == 14 || (d.ip.bytes[0] == 169 && d.ip.bytes[1] == 254)
  }

  /** The destinations refused: of IPv6 those of ff00::/8 and fe80::/10, of IPv4 those of 224.0.0.0/4 and
      169.254.0.0/16. */
  lemma UnroutableIff(d: Prefix)
    requires d.ip.Ok()
    ensures var first: int, two: int := d.ip.bytes[0], 256 * d.ip.bytes[0] as int + d.ip.bytes[1] as int;
            Unroutable(d) <==> if d.ip.v6 then first == 255 || 0xfe80 <= two <= 0xfebf
                               else 224 <= first <= 239 || two == 0xa9fe
  {
  }

  /** A route keeps its priority; without one it gets that of its protocol. */
  lemma FilledIs(r: Rt)
    ensures Filled(r) == r.(priority := Filled(r).priority) && Filled(r).priority.Some?
    ensures r.priority.Some? ==> Filled(r) == r
    ensures r.priority.None? ==>
              && (r.protocol == 99 ==> Filled(r).priority == Some(10))
              && (r.protocol == 253 ==> Filled(r).priority == Some(20))
              && (r.protocol == 64 ==> Filled(r).priority == Some(11))
              && (r.protocol !in {64, 99, 253} ==> Filled(r).priority == Some(255))
  {
  }

  // ----- The kernel

  /** Which of the two caches a kernel route was added for. */
  datatype Owner = Unicast | Link

  datatype Entry = Entry(owner: Owner, route: Rt)

  type Table = set<Entry>

  predicate At(e: Entry, p: nat, d: Prefix) { e.route.protocol == p && e.route.dst == d }

  /** The routes of one owner, protocol and prefix. */
  function Routes(t: Table, o: Owner, p: nat, d: Prefix): set<Rt> {
    set e | e in t && e.owner == o && At(e, p, d) :: e.route
  }

  /** The prefixes one owner has routes for. */
  function Dsts(t: Table, o: Owner, p: nat): set<Prefix> {
    set e | e in t && e.owner == o && e.route.protocol == p :: e.route.dst
  }

  /** Nothing changes outside prefix `d` of protocol `p`. */
  predicate SameElsewhere(t: Table, t': Table, p: nat, d: Prefix) {
    && (forall e | e in t && !At(e, p, d) :: e in t')
    && (forall e | e in t' && !At(e, p, d) :: e in t)
  }

  /** An error may be an ignored one: the request then counts as a success. */
  datatype Answer = Applied | Ignored | Refused

  class Kernel {
    var table: Table
    /** The table after each request. */
    var log: seq<Table>
    /** Every ignored error so far was harmless: the route to add was there, or none was left to delete. */
    ghost var honest: bool

    constructor ()
      ensures table == {} && log == [] && honest
    {
      table, log, honest := {}, [], true;
    }

    method AddRoute(o: Owner, r: Rt) returns (ok: bool)
      modifies this
      ensures log == old(log) + [table]
      ensures !ok ==> table == old(table) && honest == old(honest)
      ensures honest ==> old(honest)
      ensures ok && honest ==> Entry(o, r) in table && SameElsewhere(old(table), table, r.protocol, r.dst)
      ensures ok && old(honest) && !honest ==> table == old(table) && Entry(o, r) !in table
      ensures forall e | e in table && At(e, r.protocol, r.dst) :: e == Entry(o, r) || e in old(table)
      ensures r.dst.ip.v6 ==> old(table) <= table
    {
      var answer: Answer := *;
      if answer == Applied {
        var replaced := set e | e in table && At(e, r.protocol, r.dst) && !r.dst.ip.v6 &&
           e.route.priority == r.priority;
        table := (table - replaced) + {Entry(o, r)};
      } else if answer == Ignored {
        honest := honest && Entry(o, r) in table;
      }
      ok := answer != Refused;
      log := log + [table];
    }

    /** Removes one route of the prefix and protocol, whichever owner it has. */
    method DeleteRoute(p: nat, d: Prefix) returns (ok: bool)
      modifies this
      ensures log == old(log) + [table]
      ensures !ok ==> table == old(table) && honest == old(honest)
      ensures honest ==> old(honest)
      ensures table == old(table) || exists e :: e in old(table) && At(e, p, d) && table == old(table) - {e}
      ensures ok && honest && (exists e <- old(table) :: At(e, p, d)) ==>
                exists e :: e in old(table) && At(e, p, d) && table == old(table) - {e}
      ensures ok && old(honest) && !honest ==> table == old(table)
    {
      var answer: Answer := *;
      var found := set e | e in table && At(e, p, d);
      if answer == Applied && found != {} {
        var e :| e in found;
        assert e in table && At(e, p, d);
        table := table - {e};
      } else if answer != Refused {
        honest := honest && found == {};
        assert (exists e <- table :: At(e, p, d)) ==> found != {} by {
          if e :| e in table && At(e, p, d) { assert e in found; }
        }
      }
      ok := answer != Refused;
      log := log + [table];
    }
  }

  // ----- Agreement

  /** The IPv6 part of the kernel's unicast routes is the cache; cached IPv4 routes are in the kernel. */
  ghost predicate AgreesAt(t: Table, p: nat, cache: UnicastDb, d: Prefix) {
    if d.ip.v6 then Routes(t, Unicast, p, d) == if d in cache then {cache[d]} else {}
    else d in cache ==> Entry(Unicast, cache[d]) in t
  }

  ghost predicate Agrees(t: Table, p: nat, cache: UnicastDb) {
    forall d {:trigger AgreesAt(t, p, cache, d)} :: AgreesAt(t, p, cache, d)
  }

  predicate Keyed(p: nat, db: UnicastDb) { forall d <- db :: db[d].dst == d && db[d].protocol == p }

  // ----- Ignored errors

  /** Agreement at every prefix but `d`. */
  ghost predicate AgreesBut(t: Table, p: nat, cache: UnicastDb, d: Prefix) {
    forall x {:trigger AgreesAt(t, p, cache, x)} | x != d :: AgreesAt(t, p, cache, x)
  }

  /** A deletion whose error is ignored keeps agreement if and only if no matching route was left: the
      prefix is dropped from the cache whatever the kernel still has. */
  lemma IgnoredDeleteIff(t: Table, p: nat, cache: UnicastDb, d: Prefix)
    requires AgreesBut(t, p, cache, d)
    ensures Agrees(t, p, cache - {d}) <==> (d.ip.v6 ==> Routes(t, Unicast, p, d) == {})
  {
    if d.ip.v6 ==> Routes(t, Unicast, p, d) == {} {
      forall x ensures AgreesAt(t, p, cache - {d}, x) { assert x != d ==> AgreesAt(t, p, cache, x); }
    }
    if Agrees(t, p, cache - {d}) { assert AgreesAt(t, p, cache - {d}, d); }
  }

  /** An addition whose error is ignored keeps agreement if and only if the route was there, for IPv6 as
      the only one of its prefix. */
  lemma IgnoredAddIff(t: Table, p: nat, cache: UnicastDb, r: Rt)
    requires AgreesBut(t, p, cache, r.dst)
    ensures Agrees(t, p, cache[r.dst := r]) <==>
            if r.dst.ip.v6 then Routes(t, Unicast, p, r.dst) == {r} else Entry(Unicast, r) in t
  {
    var d, cache' := r.dst, cache[r.dst := r];
    if AgreesAt(t, p, cache', d) {
      forall x ensures AgreesAt(t, p, cache', x) { assert x != d ==> AgreesAt(t, p, cache, x); }
    }
    if Agrees(t, p, cache') { assert AgreesAt(t, p, cache', d); }
  }

  /** For instance: one cached IPv6 route, in the kernel, whose deletion the kernel answers with an ignored
      error. Kernel and cache agreed before; afterwards the kernel still has what the cache has forgotten. */
  lemma IgnoredErrorBreaksAgreement(r: Rt)
    requires r.dst.ip.v6
    ensures Agrees({Entry(Unicast, r)}, r.protocol, map[r.dst := r])
    ensures !Agrees({Entry(Unicast, r)}, r.protocol, map[r.dst := r] - {r.dst})
  {
    var t, p, cache := {Entry(Unicast, r)}, r.protocol, map[r.dst := r];
    forall x ensures AgreesAt(t, p, cache, x) {
      if x == r.dst {
        assert Routes(t, Unicast, p, x) == {r};
      } else {
        assert Routes(t, Unicast, p, x) == {};
      }
    }
    assert AgreesAt(t, p, cache, r.dst);
    IgnoredDeleteIff(t, p, cache, r.dst);
  }

  // ----- Changes at one prefix

  /** What a change at one prefix does to agreement everywhere. */
  lemma AgreesElsewhere(t: Table, t': Table, p: nat, cache: UnicastDb, cache': UnicastDb, d: Prefix)
    requires Agrees(t, p, cache) && SameElsewhere(t, t', p, d) && Keyed(p, cache)
    requires forall x | x != d :: (x in cache <==> x in cache') && (x in cache ==> cache'[x] == cache[x])
    requires AgreesAt(t', p, cache', d)
    ensures Agrees(t', p, cache')
  {
    forall x ensures AgreesAt(t', p, cache', x) {
      if x != d {
        assert AgreesAt(t, p, cache, x);
        assert Routes(t', Unicast, p, x) == Routes(t, Unicast, p, x);
      }
    }
  }

  /** Deleting the only unicast route of a prefix that no link route shares. */
  lemma DeletedOnly(t: Table, t': Table, p: nat, d: Prefix, r: Rt)
    requires Routes(t, Unicast, p, d) == {r} && Routes(t, Link, p, d) == {}
    requires exists e :: e in t && At(e, p, d) && t' == t - {e}
    ensures Routes(t', Unicast, p, d) == {} && SameElsewhere(t, t', p, d)
  {
    var e :| e in t && At(e, p, d) && t' == t - {e};
    assert e.owner == Link ==> e.route in Routes(t, Link, p, d);
    forall f | f in t && f.owner == Unicast && At(f, p, d) ensures f == Entry(Unicast, r) {
      assert f.route in Routes(t, Unicast, p, d);
    }
  }

  lemma AddedOnly(t: Table, t': Table, p: nat, d: Prefix, r: Rt)
    requires Routes(t, Unicast, p, d) == {} && r.protocol == p && r.dst == d
    requires Entry(Unicast, r) in t' && forall e | e in t' && At(e, p, d) :: e == Entry(Unicast, r) || e in t
    ensures Routes(t', Unicast, p, d) == {r}
  {
    forall x | x in Routes(t', Unicast, p, d) ensures x == r {
      var e :| e in t' && e.owner == Unicast && At(e, p, d) && e.route == x;
      assert e in t ==> x in Routes(t, Unicast, p, d);
    }
    assert r in Routes(t', Unicast, p, d);
  }
}
