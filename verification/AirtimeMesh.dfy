/**
 The mesh with the link metrics the metric manager supplies: all of them airtimes.
 */
module AirtimeMesh {
  import opened MeshTypes
  import opened MeshNode
  import opened OriginProtocol
  import opened MeshNetwork
  import opened MeshTheorems
  import opened LinkMetrics

  ghost predicate Airtimes(t: Topology) { forall o: Mac, sn: nat, l: Link :: l in t.links ==>
      Airtime(t.cost(o, sn, l)) }

  /** Such a mesh may be taken to have the largest airtime as its largest link metric. */
  lemma CappedRun(t: Topology, nets: seq<Net>, evs: seq<Event>)
    requires BenignRun(t, nets, evs) && Airtimes(t)
    ensures BenignRun(t.(maxCost := MAX_AIRTIME), nets, evs)
  {
    var t' := t.(maxCost := MAX_AIRTIME);
    assert forall o: Mac, sn: nat, l: Link :: t'.cost(o, sn, l) == t.cost(o, sn, l);
    forall i | 0 <= i < |evs| ensures Follows(nets, evs, i) && BenignAt(t', nets, evs, i) {
      assert Follows(nets, evs, i) && BenignAt(t, nets, evs, i);
    }
  }

  /** A stored metric is at most 40961 per hop. */
  lemma StoredAirtime(t: Topology, nets: seq<Net>, evs: seq<Event>, i: nat, o: Mac, x: Mac)
    requires BenignRun(t, nets, evs) && Airtimes(t) && i < |nets| && o in nets[i].nodes && HasEntry(nets[i].nodes, x, o)
    ensures var e := nets[i].nodes[x].paths[o];
            1 <= e.hopCount <= 255 && e.metric <= 40961 * e.hopCount < MAX_METRIC
  {
    CappedRun(t, nets, evs);
    StoredMetricBound(t.(maxCost := MAX_AIRTIME), nets, evs, i, o, x);
  }

  /** No addition of a link metric to one in flight saturates or wraps. */
  lemma AirtimesNeverSaturate(t: Topology, nets: seq<Net>, evs: seq<Event>, i: nat, l: Link, k: nat)
    requires BenignRun(t, nets, evs) && Airtimes(t) && i < |nets| && l in t.links && l in nets[i].chan
    requires k < |nets[i].chan[l]|
    ensures var p := nets[i].chan[l][k];
            var link := t.cost(p.orig, p.sn, l);
            AddMetric(p.metric, link) == p.metric + link && U8(p.hopCount + 1) == p.hopCount + 1
  {
    CappedRun(t, nets, evs);
    var t' := t.(maxCost := MAX_AIRTIME);
    InFlightBound(t', nets, evs, i, l, k);
  }
}
