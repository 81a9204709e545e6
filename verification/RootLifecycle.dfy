/**
 When a node announces itself: the gateway status, the root flag and the two timers that link
 them. A gate is a root; a node that stops being a gate stays root, announcing that it is no
 gate, until every path to it learned while it was one has timed out.
 */
module RootLifecycle {
  import opened MeshTypes

  /** The flags and the deadlines of the announcement and the withdrawal timer. */
  datatype Root = Root(isRoot: bool, isGate: bool, announceAt: Option<int>, withdrawAt: Option<int>)

  datatype Config = Config(interval: nat, timeout: nat)

  const IDLE := Root(false, false, None, None)

  /** An announcement is due or asked for: a root sends one and re-arms, anyone else lets it lapse. */
  function Announced(c: Config, r: Root, now: int): Root {
    r.(announceAt := if r.isRoot then Some(now + c.interval) else None)
  }

  function Withdrawn(r: Root): Root { r.(isRoot := false, withdrawAt := None) }

  function StatusSet(c: Config, r: Root, gate: bool, now: int): Root {
    if r.isGate == gate then r
    else if !gate then r.(isGate := false, withdrawAt := Some(now + c.timeout))
    else if r.isRoot then r.(isGate := true, withdrawAt := None)
    else Announced(c, r.(isGate := true, withdrawAt := None, isRoot := true), now)
  }

  /** Setting the status sends an announcement exactly when it makes the node a root. */
  predicate StatusAnnounces(r: Root, gate: bool) { gate && !r.isGate && !r.isRoot }

  // ----- Runs in time

  /** An announcement sent: when, and whether it claimed to be a gate. */
  datatype Sent = Sent(time: int, gate: bool)

  /** `rootSince`: when the node last became root; `fellAt` and `fellIndex`: when it last stopped being
      a gate and how many announcements it had sent by then. */
  datatype Life = Life(root: Root, now: int, log: seq<Sent>, rootSince: int, fellAt: int, fellIndex: nat)

  datatype Event = SetStatus(gate: bool) | AnnounceTimer | WithdrawTimer | Wait(until: int)

  predicate Due(deadline: Option<int>, until: int) { deadline.Some? && deadline.value < until }

  /** Time passes up to the next deadline; a timer fires at its deadline. */
  predicate Enabled(s: Life, ev: Event) {
    match ev
    case SetStatus(_) => true
    case AnnounceTimer => s.root.announceAt == Some(s.now)
    case WithdrawTimer => s.root.withdrawAt == Some(s.now)
    case Wait(until) => s.now <= until && !Due(s.root.announceAt, until) && !Due(s.root.withdrawAt, until)
  }

  function Next(c: Config, s: Life, ev: Event): Life {
    match ev
    case SetStatus(gate) =>
      var r := StatusSet(c, s.root, gate, s.now);
      var s1 := s.(root := r);
      if StatusAnnounces(s.root, gate) then s1.(log := s.log + [Sent(s.now, true)], rootSince := s.now)
      else if s.root.isGate && !gate then s1.(fellAt := s.now, fellIndex := |s.log|)
      else s1
    case AnnounceTimer =>
      s.(root := Announced(c, s.root, s.now),
         log := if s.root.isRoot then s.log + [Sent(s.now, s.root.isGate)] else s.log)
    case WithdrawTimer => s.(root := Withdrawn(s.root))
    case Wait(until) => s.(now := until)
  }

  function Start(now: int): Life { Life(IDLE, now, [], now, now, 0) }

  function RunOf(c: Config, s: Life, evs: seq<Event>): Life {
    if evs == [] then s else Next(c, RunOf(c, s, evs[..|evs| - 1]), evs[|evs| - 1])
  }

  predicate RunEnabled(c: Config, s: Life, evs: seq<Event>) {
    evs == [] || (RunEnabled(c, s, evs[..|evs| - 1]) && Enabled(RunOf(c, s, evs[..|evs| - 1]), evs[|evs| - 1]))
  }

  // ----- The invariant

  /** Announcement `i` is at most `interval` old at time `t`. */
  predicate Recent(log: seq<Sent>, i: int, t: int, interval: nat) {
    0 <= i < |log| && t - interval <= log[i].time <= t
  }

  ghost predicate CoveredAt(log: seq<Sent>, t: int, interval: nat) {
    exists i :: Recent(log, i, t, interval)
  }

  ghost predicate Covered(log: seq<Sent>, from: int, to: int, interval: nat) {
    forall t | from <= t <= to :: CoveredAt(log, t, interval)
  }

  ghost predicate Inv(c: Config, s: Life) {
    var r := s.root;
    && (r.isGate ==> r.isRoot)
    && (r.isRoot ==> r.announceAt.Some?)
    && (r.withdrawAt.Some? <==> r.isRoot && !r.isGate)
    && (r.announceAt.Some? ==> s.now <= r.announceAt.value)
    && (r.withdrawAt.Some? ==> s.now <= r.withdrawAt.value == s.fellAt + c.timeout)
    && (r.isRoot ==>
          && |s.log| > 0
          && r.announceAt == Some(s.log[|s.log| - 1].time + c.interval)
          && s.log[|s.log| - 1].time <= s.now
          && s.rootSince <= s.now
          && Covered(s.log, s.rootSince, s.now, c.interval))
    && (r.isRoot && !r.isGate ==> s.rootSince <= s.fellAt <= s.now)
    && s.fellIndex <= |s.log|
    && (r.isRoot && !r.isGate ==> forall i | s.fellIndex <= i < |s.log| :: !s.log[i].gate && s.log[i].time >= s.fellAt)
  }

  lemma CoverKept(log: seq<Sent>, more: seq<Sent>, from: int, to: int, interval: nat)
    requires Covered(log, from, to, interval)
    ensures Covered(log + more, from, to, interval)
  {
    forall t | from <= t <= to ensures CoveredAt(log + more, t, interval) {
      assert CoveredAt(log, t, interval);
      var i :| Recent(log, i, t, interval);
      assert Recent(log + more, i, t, interval);
    }
  }

  lemma CoverGrows(log: seq<Sent>, from: int, to: int, to': int, interval: nat)
    requires Covered(log, from, to, interval) && |log| > 0
    requires log[|log| - 1].time <= to && to' <= log[|log| - 1].time + interval
    ensures Covered(log, from, to', interval)
  {
    forall t | from <= t <= to' ensures CoveredAt(log, t, interval) {
      if t > to { assert Recent(log, |log| - 1, t, interval); }
    }
  }

  lemma NextInv(c: Config, s: Life, ev: Event)
    requires Inv(c, s) && Enabled(s, ev)
    ensures Inv(c, Next(c, s, ev))
  {
    var s' := Next(c, s, ev);
    match ev
    case SetStatus(gate) =>
      if StatusAnnounces(s.root, gate) {
        assert Recent(s'.log, |s.log|, s.now, c.interval);
      }
    case AnnounceTimer =>
      if s.root.isRoot { CoverKept(s.log, [Sent(s.now, s.root.isGate)], s.rootSince, s.now, c.interval); }
    case WithdrawTimer =>
    case Wait(until) =>
      if s.root.isRoot { CoverGrows(s.log, s.rootSince, s.now, until, c.interval); }
  }

  lemma {:induction false} RunInv(c: Config, now: int, evs: seq<Event>)
    requires RunEnabled(c, Start(now), evs)
    ensures Inv(c, RunOf(c, Start(now), evs))
  {
    if evs != [] {
      RunInv(c, now, evs[..|evs| - 1]);
      NextInv(c, RunOf(c, Start(now), evs[..|evs| - 1]), evs[|evs| - 1]);
    }
  }

  /** Over every run: a gate is a root, a root has its announcement timer armed, and the withdrawal
      timer is armed exactly while the node is root but no longer gate. */
  lemma Lifecycle(c: Config, now: int, evs: seq<Event>)
    requires RunEnabled(c, Start(now), evs)
    ensures var s := RunOf(c, Start(now), evs);
            var r := s.root;
            && (r.isGate ==> r.isRoot)
            && (r.isRoot ==> |s.log| > 0 && r.announceAt == Some(s.log[|s.log| - 1].time + c.interval))
            && (r.withdrawAt.Some? <==> r.isRoot && !r.isGate)
            && (r.withdrawAt.Some? ==> r.withdrawAt == Some(s.fellAt + c.timeout))
  {
    RunInv(c, now, evs);
  }

  // ----- The former gate

  predicate NoNewGate(evs: seq<Event>) { forall ev <- evs :: ev != SetStatus(true) }

  /** Between losing the status and the end of the timeout the node stays root. */
  lemma {:induction false} StaysRoot(c: Config, s: Life, evs: seq<Event>)
    requires Inv(c, s) && s.root.isRoot && !s.root.isGate && NoNewGate(evs) && RunEnabled(c, s, evs)
    ensures var e := RunOf(c, s, evs);
            && Inv(c, e) && e.fellAt == s.fellAt && e.fellIndex == s.fellIndex && e.rootSince == s.rootSince
            && !e.root.isGate
            && (e.now < s.fellAt + c.timeout ==> e.root.isRoot)
  {
    if evs != [] {
      var init, last := evs[..|evs| - 1], evs[|evs| - 1];
      assert NoNewGate(init) by { forall ev | ev in init ensures ev != SetStatus(true) { assert ev in evs; } }
      assert last in evs;
      StaysRoot(c, s, init);
      NextInv(c, RunOf(c, s, init), last);
    }
  }

  /** A gate loses its status at `s.now` and does not regain it: until the active-path timeout has
      passed it keeps announcing at least once per interval, and never again as a gate. */
  lemma FormerGateKeepsAnnouncing(c: Config, s: Life, evs: seq<Event>, t: int)
    requires Inv(c, s) && s.root.isGate && NoNewGate(evs)
    requires var s1 := Next(c, s, SetStatus(false)); RunEnabled(c, s1, evs)
    requires var e := RunOf(c, Next(c, s, SetStatus(false)), evs);
             e.now < s.now + c.timeout && s.now <= t <= e.now
    ensures var e := RunOf(c, Next(c, s, SetStatus(false)), evs);
            && e.root.isRoot
            && CoveredAt(e.log, t, c.interval)
            && |s.log| <= |e.log|
            && (forall i | |s.log| <= i < |e.log| :: !e.log[i].gate)
  {
    var s1 := Next(c, s, SetStatus(false));
    NextInv(c, s, SetStatus(false));
    StaysRoot(c, s1, evs);
  }
}
