/**
 Convergence happens. Cut what follows the last announcement into rounds, each of which receives or
 loses something if anything is in flight: after as many rounds as there was work in flight the
 links are empty, and in a calm run every node then holds its shortest path to the root.
 */
module EventualConvergence {
  import opened MeshTypes
  import opened OriginProtocol
  import opened Convergence
  import opened MeshNetwork
  import opened MeshTheorems
  import opened MeshConvergence
  import opened FloodTermination

  // ----- Rounds

  predicate Empty(net: Net) { forall l | l in net.chan :: net.chan[l] == [] }

  /** If anything is in flight at `a`, something is received or lost from `a` to `b`. */
  predicate Progress(nets: seq<Net>, evs: seq<Event>, a: nat, b: nat)
    requires a <= b <= |evs| < |nets|
  {
    Empty(nets[a]) || exists i | a <= i < b :: Consumes(evs[i])
  }

  predicate RoundAt(nets: seq<Net>, evs: seq<Event>, cuts: seq<nat>, j: nat)
    requires |evs| < |nets| && j + 1 < |cuts|
  {
    cuts[j] <= cuts[j + 1] <= |evs| && Progress(nets, evs, cuts[j], cuts[j + 1])
  }

  /** `cuts` cuts the events from `cuts[0]` to the end into rounds. */
  predicate Rounds(nets: seq<Net>, evs: seq<Event>, cuts: seq<nat>) {
    && |evs| < |nets| && |cuts| >= 1 && cuts[|cuts| - 1] == |evs|
    && forall j {:trigger RoundAt(nets, evs, cuts, j)} | 0 <= j < |cuts| - 1 :: RoundAt(nets, evs, cuts, j)
  }

  // ----- A piece of a stretch

  lemma Piece(nets: seq<Net>, evs: seq<Event>, a: nat, b: nat)
    requires Stretch(nets, evs) && a <= b <= |evs|
    ensures Stretch(nets[a..b + 1], evs[a..b])
  {
    var piece, some := nets[a..b + 1], evs[a..b];
    forall i | 0 <= i < |some| ensures Follows(piece, some, i) { assert Follows(nets, evs, a + i); }
  }

  lemma {:induction false} CountSome(evs: seq<Event>, i: nat)
    requires i < |evs| && Consumes(evs[i])
    ensures CountConsumed(evs) >= 1
  {
    if i > 0 { CountSome(evs[1..], i - 1); }
  }

  /** A round leaves less work in flight, or none. */
  lemma RoundWork(nets: seq<Net>, evs: seq<Event>, a: nat, b: nat, ls: seq<Link>)
    requires Stretch(nets, evs) && a <= b <= |evs| && Progress(nets, evs, a, b)
    requires Lists(ls, nets[a].chan.Keys) && Addressed(nets[a]) && forall ev <- evs[a..] :: !Announces(ev)
    ensures nets[b].chan.Keys == nets[a].chan.Keys && Addressed(nets[b])
    ensures NetWork(nets[b], ls) == 0 || NetWork(nets[b], ls) < NetWork(nets[a], ls)
  {
    var piece, some := nets[a..b + 1], evs[a..b];
    Piece(nets, evs, a, b);
    forall ev | ev in some ensures !Announces(ev) { assert ev in evs[a..]; }
    QuietAfterLastAnnouncement(piece, some, ls);
    AddressedAfter(piece, some);
    if Empty(nets[a]) {
      EmptyLinks(nets[a].chan, ls, |ls|);
    } else {
      var i :| a <= i < b && Consumes(evs[i]);
      CountSome(some, i - a);
    }
  }

  lemma {:induction false} AddressedAfter(nets: seq<Net>, evs: seq<Event>)
    requires Stretch(nets, evs) && Addressed(nets[0])
    ensures Addressed(nets[|evs|])
    decreases |evs|
  {
    if evs != [] {
      FirstEvent(nets, evs);
      StaysAddressed(nets[0], evs[0], nets[1]);
      AddressedAfter(nets[1..], evs[1..]);
    }
  }

  // ----- All rounds

  /** After `j` rounds at least `j` units of the work are gone, or all of it. */
  lemma {:induction false} RoundsWork(nets: seq<Net>, evs: seq<Event>, cuts: seq<nat>, ls: seq<Link>, j: nat)
    requires Stretch(nets, evs) && Rounds(nets, evs, cuts) && j < |cuts| && cuts[0] <= |evs|
    requires Lists(ls, nets[cuts[0]].chan.Keys) && Addressed(nets[cuts[0]])
    requires forall ev <- evs[cuts[0]..] :: !Announces(ev)
    ensures cuts[0] <= cuts[j] <= |evs| && nets[cuts[j]].chan.Keys == nets[cuts[0]].chan.Keys
    ensures Addressed(nets[cuts[j]])
    ensures NetWork(nets[cuts[j]], ls) == 0 || NetWork(nets[cuts[j]], ls) + j <= NetWork(nets[cuts[0]], ls)
  {
    if j > 0 {
      RoundsWork(nets, evs, cuts, ls, j - 1);
      assert RoundAt(nets, evs, cuts, j - 1);
      var a, b := cuts[j - 1], cuts[j];
      forall ev | ev in evs[a..] ensures !Announces(ev) { assert ev in evs[cuts[0]..]; }
      RoundWork(nets, evs, a, b, ls);
    }
  }

  /** A stretch without announcements, in as many rounds as there is work in flight at its start, leaves
      every link empty. */
  lemma Drained(nets: seq<Net>, evs: seq<Event>, cuts: seq<nat>, ls: seq<Link>)
    requires Stretch(nets, evs) && Rounds(nets, evs, cuts) && cuts[0] <= |evs|
    requires Lists(ls, nets[cuts[0]].chan.Keys) && Addressed(nets[cuts[0]])
    requires forall ev <- evs[cuts[0]..] :: !Announces(ev)
    requires NetWork(nets[cuts[0]], ls) <= |cuts| - 1
    ensures Empty(nets[|evs|])
  {
    RoundsWork(nets, evs, cuts, ls, |cuts| - 1);
    var last := nets[|evs|];
    forall l | l in last.chan ensures last.chan[l] == [] { NoWorkMeansEmpty(last, ls, l); }
  }

  // ----- Convergence

  lemma CalmLinks(t: Topology, r: Mac, nets: seq<Net>, evs: seq<Event>, k: nat)
    requires CalmRun(t, r, nets, evs) && k < |nets|
    ensures nets[k].chan.Keys == t.links && Addressed(nets[k])
  {
    CalmRunInv(t, r, nets, evs, k);
  }

  /** If a calm run does not announce from `k` on and goes through as many rounds as there is work in flight
      at `k`, each other node ends with a path to the root exactly when the root reaches it, up to date
      and shortest. */
  lemma ConvergesAfterLastAnnouncement(
      t: Topology, r: Mac, nets: seq<Net>, evs: seq<Event>, cuts: seq<nat>, ls: seq<Link>, x: Mac)
    requires CalmRun(t, r, nets, evs) && Rounds(nets, evs, cuts) && cuts[0] <= |evs|
    requires Lists(ls, t.links) && nets[cuts[0]].chan.Keys == t.links && NetWork(nets[cuts[0]], ls) <= |cuts| - 1
    requires forall ev <- evs[cuts[0]..] :: !Announces(ev)
    requires var last := nets[|evs|]; r in last.nodes && last.nodes[r].sn >= 1 && x in last.nodes && x != r
    ensures Converged(t, nets[|evs|], r, x)
  {
    CalmLinks(t, r, nets, evs, cuts[0]);
    Drained(nets, evs, cuts, ls);
    ConvergesToShortestPaths(t, r, nets, evs, |evs|, x);
  }
}
