/**
 The gateway connectivity monitor on top of the route dampener: periodic probes decide whether
 the node is a gateway, a probe that succeeds after a failure is a flap, and the default route
 is advertised or withdrawn accordingly.
 */
module GatewayMonitor {
  import opened MeshTypes
  import RD = RouteDampener

  /** `advertised` is the gateway status handed to routing. */
  datatype Gateway = Gateway(damp: RD.Damp, active: bool, advertised: bool)

  const START := Gateway(RD.FRESH, false, false)

  /** The dampener's callbacks act on the route only while the gateway is active. */
  function Apply(g: Gateway, calls: seq<RD.Call>): Gateway {
    if calls == [] || !g.active then g
    else g.(advertised := calls[|calls| - 1].Undampen?)
  }

  /** A connectivity check. The flap is counted before the gateway is marked active, so a suppression
      that it triggers does not withdraw the route just advertised. */
  function Check(c: RD.Config, g: Gateway, success: bool, now: int): Gateway {
    if !success then g.(advertised := false, active := false)
    else
      var g1 := if g.damp.dampened then g else g.(advertised := true);
      var g2 := if g1.active then g1
                else var r := RD.Flap(c, g1.damp, now); Apply(g1.(damp := r.0), r.1);
      g2.(active := true)
  }

  datatype Event = Probe(success: bool) | HalfLifeTimer | MaxSuppressTimer | Wait(until: int)

  /** `failed`: some probe has failed since the current suppression began. */
  datatype Life = Life(gw: Gateway, now: int, since: int, failed: bool)

  predicate Enabled(c: RD.Config, s: Life, ev: Event) {
    var d := s.gw.damp;
    match ev
    case Probe(_) => true
    case HalfLifeTimer => d.halfLifeAt == Some(s.now)
    case MaxSuppressTimer => d.maxSuppressAt == Some(s.now)
    case Wait(until) => s.now <= until && !RD.Passed(d.halfLifeAt, until) && !RD.Passed(d.maxSuppressAt, until)
  }

  function GatewayNext(c: RD.Config, g: Gateway, ev: Event, now: int): Gateway {
    match ev
    case Probe(success) => Check(c, g, success, now)
    case HalfLifeTimer => var r := RD.HalfLife(c, g.damp, now); Apply(g.(damp := r.0), r.1)
    case MaxSuppressTimer => var r := RD.MaxSuppress(g.damp); Apply(g.(damp := r.0), r.1)
    case Wait(_) => g
  }

  function Next(c: RD.Config, s: Life, ev: Event): Life {
    var g := GatewayNext(c, s.gw, ev, s.now);
    var begins := g.damp.dampened && !s.gw.damp.dampened;
    Life(g, if ev.Wait? then ev.until else s.now, if begins then s.now else s.since,
         if begins then false else s.failed || ev == Probe(false))
  }

  function RunOf(c: RD.Config, s: Life, evs: seq<Event>): Life {
    if evs == [] then s else Next(c, RunOf(c, s, evs[..|evs| - 1]), evs[|evs| - 1])
  }

  predicate RunEnabled(c: RD.Config, s: Life, evs: seq<Event>) {
    evs == [] || (RunEnabled(c, s, evs[..|evs| - 1]) && Enabled(c, RunOf(c, s, evs[..|evs| - 1]), evs[|evs| - 1]))
  }

  predicate DampInv(c: RD.Config, d: RD.Damp, now: int, since: int) {
    && (d.maxSuppressAt.Some? <==> d.dampened)
    && (d.dampened ==> d.maxSuppressAt == Some(since + c.maxSuppress) && now <= since + c.maxSuppress)
  }

  predicate Inv(c: RD.Config, s: Life) {
    var g := s.gw;
    && DampInv(c, g.damp, s.now, s.since)
    && (!g.active ==> !g.advertised)
    && (g.active && !g.damp.dampened ==> g.advertised)
    && (g.damp.dampened ==> (g.advertised <==> !s.failed))
  }

  lemma NextInv(c: RD.Config, s: Life, ev: Event)
    requires Inv(c, s) && Enabled(c, s, ev)
    ensures Inv(c, Next(c, s, ev))
  {
  }

  lemma {:induction false} RunInv(c: RD.Config, now: int, evs: seq<Event>)
    requires RunEnabled(c, StartAt(now), evs)
    ensures Inv(c, RunOf(c, StartAt(now), evs))
  {
    if evs != [] {
      RunInv(c, now, evs[..|evs| - 1]);
      NextInv(c, RunOf(c, StartAt(now), evs[..|evs| - 1]), evs[|evs| - 1]);
    }
  }

  /** Over every run, whatever the limits and however the counter wraps: an inactive gateway is withdrawn, an
      active and unsuppressed one is advertised, and a suppressed one is advertised exactly if no probe
      has failed since the suppression began. */
  lemma GatewayStatus(c: RD.Config, now: int, evs: seq<Event>)
    requires RunEnabled(c, StartAt(now), evs)
    ensures var s := RunOf(c, StartAt(now), evs);
            && (!s.gw.active ==> !s.gw.advertised)
            && (s.gw.active && !s.gw.damp.dampened ==> s.gw.advertised)
            && (s.gw.damp.dampened ==> (s.gw.advertised <==> !s.failed))
            && (s.gw.damp.dampened ==> s.now <= s.since + c.maxSuppress)
  {
    RunInv(c, now, evs);
  }

  /** The result of the latest probe, none yet if there was none. */
  function LatestProbe(evs: seq<Event>): Option<bool> {
    if evs == [] then None
    else if evs[|evs| - 1].Probe? then Some(evs[|evs| - 1].success) else LatestProbe(evs[..|evs| - 1])
  }

  /** Over every run the gateway is active exactly if the latest probe succeeded. */
  lemma {:induction false} ActiveIsLatestProbe(c: RD.Config, now: int, evs: seq<Event>)
    ensures RunOf(c, StartAt(now), evs).gw.active <==> LatestProbe(evs) == Some(true)
  {
    if evs != [] { ActiveIsLatestProbe(c, now, evs[..|evs| - 1]); }
  }

  /** A probe counts as a flap exactly if it succeeds while the gateway is not active. */
  lemma FlapIff(c: RD.Config, g: Gateway, success: bool, now: int)
    ensures Check(c, g, success, now).damp == if success && !g.active then RD.Flap(c, g.damp, now).0 else g.damp
  {
  }

  // ----- Within one suppression

  /** The gateway is suppressed after every prefix of the events. */
  predicate SuppressedThroughout(c: RD.Config, s: Life, evs: seq<Event>) {
    forall k | 0 <= k <= |evs| :: RunOf(c, s, evs[..k]).gw.damp.dampened
  }

  /** While a suppression lasts a withdrawn route never comes back, so it is withdrawn at most once. */
  lemma {:induction false} NoEarlyReturn(c: RD.Config, s: Life, evs: seq<Event>, j: nat, k: nat)
    requires SuppressedThroughout(c, s, evs) && j <= k <= |evs|
    ensures RunOf(c, s, evs[..k]).gw.advertised ==> RunOf(c, s, evs[..j]).gw.advertised
    decreases k
  {
    if j < k {
      NoEarlyReturn(c, s, evs, j, k - 1);
      assert evs[..k][..k - 1] == evs[..k - 1];
      assert RunOf(c, s, evs[..k - 1]).gw.damp.dampened && RunOf(c, s, evs[..k]).gw.damp.dampened;
    }
  }

  function StartAt(now: int): Life { Life(START, now, now, false) }

  /** Connectivity comes and goes `k` times. */
  function Rounds(k: nat): seq<Event> { if k == 0 then [] else Rounds(k - 1) + [Probe(true), Probe(false)] }

  lemma RunTwo(c: RD.Config, s: Life, evs: seq<Event>, a: Event, b: Event)
    ensures RunOf(c, s, evs + [a, b]) == Next(c, Next(c, RunOf(c, s, evs), a), b)
    ensures RunEnabled(c, s, evs + [a, b]) <==>
            RunEnabled(c, s, evs) && Enabled(c, RunOf(c, s, evs), a) && Enabled(c, Next(c, RunOf(c, s, evs), a), b)
  {
    var two, one := evs + [a, b], evs + [a];
    assert two[..|two| - 1] == one && one[..|one| - 1] == evs;
  }

  lemma {:induction false} RoundsBelowLimit(c: RD.Config, now: int, k: nat)
    requires k * c.penalty < c.suppressLimit < 0x1_0000_0000
    ensures RunEnabled(c, StartAt(now), Rounds(k))
    ensures RunOf(c, StartAt(now), Rounds(k))
            == Life(Gateway(RD.Damp(k * c.penalty, false, None, None), false, false), now, now, k > 0)
  {
    if k > 0 {
      assert k * c.penalty == (k - 1) * c.penalty + c.penalty;
      RoundsBelowLimit(c, now, k - 1);
      RunTwo(c, StartAt(now), Rounds(k - 1), Probe(true), Probe(false));
    }
  }

  lemma LastRound(limit: nat, penalty: nat) returns (k: nat)
    requires 0 < penalty && 0 < limit
    ensures k * penalty < limit <= k * penalty + penalty
  {
    k := 0;
    while k * penalty + penalty < limit
      invariant k * penalty < limit
      decreases limit - k * penalty
    {
      assert (k + 1) * penalty == k * penalty + penalty;
      k := k + 1;
    }
  }

  /** A suppressed route can still be advertised, in every configuration whose limit can be reached without
      a wrap: enough changes of connectivity in a row start a suppression, and the flap that starts it
      leaves the advertisement just made in place. */
  lemma DampenedButAdvertised(c: RD.Config, now: int) returns (evs: seq<Event>)
    requires 0 < c.penalty && 0 < c.suppressLimit && c.suppressLimit + c.penalty <= 0x1_0000_0000
    ensures RunEnabled(c, StartAt(now), evs)
    ensures var g := RunOf(c, StartAt(now), evs).gw; g.damp.dampened && g.advertised
  {
    var k := LastRound(c.suppressLimit, c.penalty);
    RoundsBelowLimit(c, now, k);
    evs := Rounds(k) + [Probe(true)];
    assert evs[..|evs| - 1] == Rounds(k);
  }

  // ----- The monitor object

  class Monitor {
    const dampener: RD.Dampener
    var isGatewayActive: bool
    var advertised: bool

    ghost function Model(): Gateway
      reads this, dampener
    {
      Gateway(dampener.Model(), isGatewayActive, advertised)
    }

    constructor (config: RD.Config)
      requires config.halfLife > 0 && RD.IsValid(config)
      ensures Model() == START && fresh(dampener) && dampener.config == config
    {
      dampener := new RD.Dampener(config);
      isGatewayActive, advertised := false, false;
    }

    method HandleCalls(calls: seq<RD.Call>)
      requires |calls| <= 1
      modifies this`advertised
      ensures Model() == Apply(old(Model()), calls)
    {
      if |calls| == 1 {
        if isGatewayActive { advertised := calls[0].Undampen?; }
      }
    }

    method CheckRoutesAndAdvertise(probe: bool, now: int)
      modifies this, dampener
      ensures Model() == Check(dampener.config, old(Model()), probe, now)
    {
      if probe {
        if !dampener.dampened { advertised := true; }
        if !isGatewayActive {
          var calls := dampener.DoFlap(now);
          HandleCalls(calls);
        }
        isGatewayActive := true;
      } else {
        advertised := false;
        isGatewayActive := false;
      }
    }

    method OnHalfLifeTimer(now: int)
      modifies this, dampener
      ensures Model() == GatewayNext(dampener.config, old(Model()), HalfLifeTimer, now)
    {
      var calls := dampener.HalfLifeTimerExpired(now);
      HandleCalls(calls);
    }

    method OnMaxSuppressTimer(now: int)
      modifies this, dampener
      ensures Model() == GatewayNext(dampener.config, old(Model()), MaxSuppressTimer, now)
    {
      var calls := dampener.MaxSuppressLimitTimerExpired();
      HandleCalls(calls);
    }
  }
}
