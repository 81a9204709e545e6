/**
 The ranking of mesh gates: the list-sort-scan of the source computes the top-K test of
 `MeshNode`, and an announcement that survives the redundancy count always ranks inside it.
 */
module TopGates {
  import opened MeshTypes
  import opened MeshNode

  type Ranked = (nat, Mac)

  predicate Before(a: Ranked, b: Ranked) { a.0 < b.0 || (a.0 == b.0 && a.1 < b.1) }

  predicate Sorted(r: seq<Ranked>) { forall i, j | 0 <= i < j < |r| :: r[i] == r[j] || Before(r[i], r[j]) }

  /** The live gates among `some`, each with its metric. */
  function GatesAmong(paths: Paths, now: int, some: set<Mac>): set<Ranked> {
    set a | a in some && a in LiveGates(paths, now) :: (paths[a].metric, a)
  }

  function GateSet(paths: Paths, now: int): set<Ranked> { GatesAmong(paths, now, paths.Keys) }

  lemma GatesGrow(paths: Paths, now: int, some: set<Mac>, a: Mac)
    requires a in paths && a !in some
    ensures paths[a].LiveGate(now) ==>
              multiset(GatesAmong(paths, now, some + {a}))
              == multiset(GatesAmong(paths, now, some)) + multiset{(paths[a].metric, a)}
    ensures !paths[a].LiveGate(now) ==> GatesAmong(paths, now, some + {a}) == GatesAmong(paths, now, some)
  {
    var was, is_ := GatesAmong(paths, now, some), GatesAmong(paths, now, some + {a});
    if paths[a].LiveGate(now) {
      var x := (paths[a].metric, a);
      assert is_ == was + {x} && x !in was;
    }
  }

  method GatherGates(paths: Paths, now: int) returns (ret: seq<Ranked>)
    ensures multiset(ret) == multiset(GateSet(paths, now))
  {
    ret := [];
    var todo := paths.Keys;
    ghost var seen: set<Mac> := {};
    while todo != {}
      invariant todo <= paths.Keys && seen == paths.Keys - todo
      invariant multiset(ret) == multiset(GatesAmong(paths, now, seen))
      decreases |todo|
    {
      var a :| a in todo;
      GatesGrow(paths, now, seen, a);
      if !paths[a].Expired(now) && paths[a].isGate {
        ret := ret + [(paths[a].metric, a)];
      }
      todo := todo - {a};
      seen := seen + {a};
    }
    assert seen == paths.Keys;
  }

  lemma InsertKeepsSorted(s: seq<Ranked>, x: Ranked, i: nat)
    requires Sorted(s) && i <= |s|
    requires i > 0 ==> !Before(x, s[i - 1])
    requires forall j | i <= j < |s| :: Before(x, s[j])
    ensures Sorted(s[..i] + [x] + s[i..])
  {
    var r := s[..i] + [x] + s[i..];
    forall j, k | 0 <= j < k < |r| ensures r[j] == r[k] || Before(r[j], r[k]) {
      if k == i {
        assert s[j] == s[i - 1] || Before(s[j], s[i - 1]);
      } else if j == i {
        assert r[k] == s[k - 1];
      } else {
        assert r[j] == s[if j < i then j else j - 1] && r[k] == s[if k < i then k else k - 1];
      }
    }
  }

  method InsertGate(s: seq<Ranked>, x: Ranked) returns (s': seq<Ranked>)
    requires Sorted(s)
    ensures Sorted(s') && multiset(s') == multiset(s) + multiset{x}
  {
    var i := |s|;
    while i > 0 && Before(x, s[i - 1])
      invariant 0 <= i <= |s|
      invariant forall j | i <= j < |s| :: Before(x, s[j])
    {
      i := i - 1;
    }
    InsertKeepsSorted(s, x, i);
    assert s == s[..i] + s[i..];
    s' := s[..i] + [x] + s[i..];
  }

  method SortGates(r: seq<Ranked>) returns (s: seq<Ranked>)
    ensures Sorted(s) && multiset(s) == multiset(r)
  {
    s := [];
    for n := 0 to |r|
      invariant Sorted(s) && multiset(s) == multiset(r[..n])
    {
      s := InsertGate(s, r[n]);
      assert r[..n + 1] == r[..n] + [r[n]];
    }
    assert r[..|r|] == r;
  }

  /** A listing of a set holds every element at exactly one place. */
  lemma ListingDistinct<T>(r: seq<T>, s: set<T>)
    requires multiset(r) == multiset(s)
    ensures forall i, j | 0 <= i < j < |r| :: r[i] != r[j]
    ensures forall x :: x in s <==> x in r
  {
    forall i, j | 0 <= i < j < |r| ensures r[i] != r[j] {
      assert r == r[..i] + [r[i]] + r[i + 1..];
      assert multiset(r)[r[i]] == multiset(s)[r[i]] <= 1;
      assert r[j] == r[i + 1..][j - i - 1];
    }
    forall x ensures x in s <==> x in r {
      assert x in s <==> x in multiset(s);
      assert x in r <==> x in multiset(r);
    }
  }

  /** Position in the sorted list is rank. */
  lemma PositionIsRank(paths: Paths, now: int, r: seq<Ranked>, i: nat)
    requires Sorted(r) && multiset(r) == multiset(GateSet(paths, now)) && i < |r|
    ensures r[i].1 in LiveGates(paths, now) && |RankedBefore(paths, now, r[i].1)| == i
  {
    ListingDistinct(r, GateSet(paths, now));
    assert r[i] in r && r[i] in GateSet(paths, now);
    var g := r[i].1;
    var firsts := set j | 0 <= j < i :: r[j].1;
    forall a ensures a in RankedBefore(paths, now, g) <==> a in firsts {
      if a in RankedBefore(paths, now, g) {
        var x := (paths[a].metric, a);
        assert x in GateSet(paths, now) && x in r;
        var j :| 0 <= j < |r| && r[j] == x;
        assert Before(x, r[i]);
        assert j < i;
      }
      if a in firsts {
        var j :| 0 <= j < i && r[j].1 == a;
        assert r[j] in r && r[j] in GateSet(paths, now);
      }
    }
    assert RankedBefore(paths, now, g) == firsts;
    forall j, k | 0 <= j < k < i ensures r[j].1 != r[k].1 {
      assert r[j] in r && r[j] in GateSet(paths, now) && r[k] in r && r[k] in GateSet(paths, now);
    }
    CountDistinct(r, i);
  }

  lemma {:induction false} CountDistinct(r: seq<Ranked>, i: nat)
    requires i <= |r| && forall j, k | 0 <= j < k < i :: r[j].1 != r[k].1
    ensures |set j | 0 <= j < i :: r[j].1| == i
  {
    if i > 0 {
      CountDistinct(r, i - 1);
      var rest := set j | 0 <= j < i - 1 :: r[j].1;
      assert (set j | 0 <= j < i :: r[j].1) == rest + {r[i - 1].1};
    }
  }

  predicate Alive(paths: Paths, now: int, a: Mac) { a in paths && paths[a].isGate && now <= paths[a].expTime }

  /** `a` is a live gate and comes before `g`: by its metric, or by its address where metrics are equal. */
  predicate Beats(paths: Paths, now: int, a: Mac, g: Mac) {
    && Alive(paths, now, a) && g in paths
    && (paths[a].metric < paths[g].metric || (paths[a].metric == paths[g].metric && a < g))
  }

  /** The top of one gate is the live gate that no other beats. */
  lemma TopOfOne(paths: Paths, now: int, g: Mac)
    ensures InTopGates(paths, now, 1, g) <==> Alive(paths, now, g) && forall a :: !Beats(paths, now, a, g)
  {
    if Alive(paths, now, g) {
      var s := RankedBefore(paths, now, g);
      forall a ensures a in s <==> Beats(paths, now, a, g) {}
      assert |s| < 1 <==> s == {};
    }
  }

  /** The top of two are the live gates that at most one other beats. */
  lemma TopOfTwo(paths: Paths, now: int, g: Mac)
    ensures InTopGates(paths, now, 2, g) <==>
            Alive(paths, now, g) && forall a, b | Beats(paths, now, a, g) && Beats(paths, now, b, g) :: a == b
  {
    if Alive(paths, now, g) {
      var s := RankedBefore(paths, now, g);
      forall a ensures a in s <==> Beats(paths, now, a, g) {}
      if |s| < 2 {
        forall a: Mac, b: Mac | Beats(paths, now, a, g) && Beats(paths, now, b, g) ensures a == b {
          if a != b { SubsetSize({a, b}, s); }
        }
      } else {
        var a :| a in s;
        assert |s - {a}| >= 1;
        var b :| b in s - {a};
        assert Beats(paths, now, a, g) && Beats(paths, now, b, g) && a != b;
      }
    }
  }

  /** The gate test: collect the live gates, sort them, look for `mac` among the first few. */
  method IsStationInTopKGates(paths: Paths, isGate: bool, now: int, mac: Mac) returns (found: bool)
    ensures found <==> InTopGates(paths, now, GateLimit(isGate), mac)
    ensures isGate ==> (found <==> Alive(paths, now, mac) && forall a :: !Beats(paths, now, a, mac))
    ensures !isGate ==>
              (found <==>
                 && Alive(paths, now, mac)
                 && forall a, b | Beats(paths, now, a, mac) && Beats(paths, now, b, mac) :: a == b)
  {
    TopOfOne(paths, now, mac);
    TopOfTwo(paths, now, mac);
    var gates := GatherGates(paths, now);
    gates := SortGates(gates);
    ListingDistinct(gates, GateSet(paths, now));
    var maxNoGates := if isGate then MIN_GATEWAY_REDUNDANCY - 1 else MIN_GATEWAY_REDUNDANCY;
    var i := 0;
    while i < maxNoGates && i < |gates|
      invariant 0 <= i <= |gates| && i <= maxNoGates
      invariant forall j | 0 <= j < i :: gates[j].1 != mac
    {
      PositionIsRank(paths, now, gates, i);
      if gates[i].1 == mac { return true; }
      i := i + 1;
    }
    if mac in LiveGates(paths, now) {
      assert (paths[mac].metric, mac) in GateSet(paths, now);
      var j :| 0 <= j < |gates| && gates[j] == (paths[mac].metric, mac);
      PositionIsRank(paths, now, gates, j);
    }
    return false;
  }

  // ----- Admission

  predicate Keyed(paths: Paths) { forall a <- paths :: paths[a].dst == a }

  /** A gate announcement that is not refused ranks inside the top gates once stored, whatever the
      table holds and however metrics tie. */
  lemma TopGateAdmission(n: Node, before: Paths, p: Pann, e: MeshPath, now: int)
    requires Keyed(before) && p.orig in before && p.isGate
    requires e.dst == p.orig && e.isGate && !e.Expired(now)
    requires !Refused(n, before, p, e, now)
    ensures InTopGates(before[p.orig := e], now, GateLimit(n.isGate), p.orig)
  {
    var after := before[p.orig := e];
    var ahead := RankedBefore(after, now, p.orig);
    assert ahead <= Rivals(before, now, p.orig, e.metric);
    SubsetSize(ahead, Rivals(before, now, p.orig, e.metric));
  }

  /** Hence the gate ranking never stops a stored announcement: past the TTL check it is forwarded
      exactly when it is not addressed to this node. */
  lemma ForwardingGuard(n: Node, before: Paths, p: Pann, e: MeshPath, now: int)
    requires Keyed(before) && p.orig in before
    requires e.dst == p.orig && e.isGate == p.isGate && !e.Expired(now)
    requires !Refused(n, before, p, e, now)
    ensures Forwards(n, p, before, before[p.orig := e], now) <==> p.ttl > 1 && p.target != n.addr
  {
    if p.isGate { TopGateAdmission(n, before, p, e, now); }
  }
}
