/**
 Damping of a flapping default route, loosely after section 4.2 of RFC 2439: every flap adds a
 penalty to a history that halves at a fixed rate; the route is suppressed when the history
 reaches one limit and released when it has decayed to another, or after a maximum time.
 */
module RouteDampener {
  import opened MeshTypes

  datatype Config = Config(penalty: nat, suppressLimit: nat, reuseLimit: nat, halfLife: nat, maxSuppress: nat)

  /** The counter, the flag and the deadlines of the two timers. */
  datatype Damp = Damp(history: nat, dampened: bool, halfLifeAt: Option<int>, maxSuppressAt: Option<int>)

  /** The callbacks to the owner of the route. */
  datatype Call = Dampen | Undampen

  const FRESH := Damp(0, false, None, None)

  function Flap(c: Config, d: Damp, now: int): (Damp, seq<Call>) {
    var history := U32(d.history + c.penalty);
    if !d.dampened && history >= c.suppressLimit
    then (Damp(history, true, Some(now + c.halfLife), Some(now + c.maxSuppress)), [Dampen])
    else (d.(history := history), [])
  }

  /** The history after one half-life: halved, and forgotten once it is half the reuse limit. */
  function Decayed(c: Config, history: nat): nat {
    if history / 2 <= c.reuseLimit / 2 then 0 else history / 2
  }

  /** The half-life timer fires. It is armed again even when the history has just been forgotten. */
  function HalfLife(c: Config, d: Damp, now: int): (Damp, seq<Call>) {
    var history := Decayed(c, d.history);
    if d.dampened && history <= c.reuseLimit
    then (Damp(history, false, Some(now + c.halfLife), None), [Undampen])
    else (d.(history := history, halfLifeAt := Some(now + c.halfLife)), [])
  }

  function MaxSuppress(d: Damp): (Damp, seq<Call>) {
    if d.dampened then (Damp(0, false, None, None), [Undampen]) else (d.(maxSuppressAt := None), [])
  }

  // ----- Runs in time

  /** A dampener, the clock, the callbacks made so far and when the last suppression began. */
  datatype Life = Life(damp: Damp, now: int, calls: seq<Call>, since: int)

  datatype Event = FlapEvent | HalfLifeTimer | MaxSuppressTimer | Wait(until: int)

  predicate Passed(deadline: Option<int>, until: int) { deadline.Some? && deadline.value < until }

  /** Time stops at every deadline. */
  predicate Enabled(c: Config, s: Life, ev: Event) {
    match ev
    case FlapEvent => true
    case HalfLifeTimer => s.damp.halfLifeAt == Some(s.now)
    case MaxSuppressTimer => s.damp.maxSuppressAt == Some(s.now)
    case Wait(until) => s.now <= until && !Passed(s.damp.halfLifeAt, until) && !Passed(s.damp.maxSuppressAt, until)
  }

  function Outcome(c: Config, s: Life, ev: Event): (Damp, seq<Call>) {
    match ev
    case FlapEvent => Flap(c, s.damp, s.now)
    case HalfLifeTimer => HalfLife(c, s.damp, s.now)
    case MaxSuppressTimer => MaxSuppress(s.damp)
    case Wait(_) => (s.damp, [])
  }

  function Next(c: Config, s: Life, ev: Event): Life {
    var r := Outcome(c, s, ev);
    Life(r.0, if ev.Wait? then ev.until else s.now, s.calls + r.1, if Dampen in r.1 then s.now else s.since)
  }

  function RunOf(c: Config, s: Life, evs: seq<Event>): Life {
    if evs == [] then s else Next(c, RunOf(c, s, evs[..|evs| - 1]), evs[|evs| - 1])
  }

  predicate RunEnabled(c: Config, s: Life, evs: seq<Event>) {
    evs == [] || (RunEnabled(c, s, evs[..|evs| - 1]) && Enabled(c, RunOf(c, s, evs[..|evs| - 1]), evs[|evs| - 1]))
  }

  /** `dampen` first, then `undampen` and `dampen` in turn. */
  predicate Alternates(calls: seq<Call>) {
    forall i | 0 <= i < |calls| :: calls[i] == if i % 2 == 0 then Dampen else Undampen
  }

  predicate Inv(c: Config, s: Life) {
    var d := s.damp;
    && d.history < 0x1_0000_0000
    && (c.reuseLimit < c.suppressLimit && !d.dampened ==> d.history < c.suppressLimit)
    && (d.maxSuppressAt.Some? <==> d.dampened)
    && (d.dampened ==> d.halfLifeAt.Some? && d.maxSuppressAt == Some(s.since + c.maxSuppress))
    && (d.halfLifeAt.Some? ==> s.now <= d.halfLifeAt.value)
    && (d.maxSuppressAt.Some? ==> s.now <= d.maxSuppressAt.value)
    && Alternates(s.calls)
    && (d.dampened <==> |s.calls| % 2 == 1)
  }

  lemma NextInv(c: Config, s: Life, ev: Event)
    requires Inv(c, s) && Enabled(c, s, ev)
    ensures Inv(c, Next(c, s, ev))
  {
  }

  function StartAt(now: int): Life { Life(FRESH, now, [], now) }

  lemma {:induction false} RunInv(c: Config, now: int, evs: seq<Event>)
    requires RunEnabled(c, StartAt(now), evs)
    ensures Inv(c, RunOf(c, StartAt(now), evs))
  {
    if evs != [] {
      RunInv(c, now, evs[..|evs| - 1]);
      NextInv(c, RunOf(c, StartAt(now), evs[..|evs| - 1]), evs[|evs| - 1]);
    }
  }

  /** Over every run of every configuration, also when the counter wraps: the maximum-suppression timer is
      armed exactly during a suppression, the callbacks alternate, and no suppression outlasts the
      maximum. If the limits are in order, an unsuppressed route has a history below the suppress limit. */
  lemma Hysteresis(c: Config, now: int, evs: seq<Event>)
    requires RunEnabled(c, StartAt(now), evs)
    ensures var s := RunOf(c, StartAt(now), evs);
            && (c.reuseLimit < c.suppressLimit && !s.damp.dampened ==> s.damp.history < c.suppressLimit)
            && (s.damp.maxSuppressAt.Some? <==> s.damp.dampened)
            && Alternates(s.calls) && (s.damp.dampened <==> |s.calls| % 2 == 1)
            && (s.damp.dampened ==> s.now <= s.since + c.maxSuppress)
  {
    RunInv(c, now, evs);
  }

  // ----- A suppressed route above the reuse limit

  predicate AboveReuse(c: Config, d: Damp) { d.dampened ==> d.history > c.reuseLimit }

  /** A flap during a suppression does not wrap the counter, or wraps it to above the reuse limit. */
  predicate FlapSafe(c: Config, d: Damp) {
    d.dampened ==>
      d.history + c.penalty < 0x1_0000_0000 || d.history + c.penalty - 0x1_0000_0000 > c.reuseLimit
  }

  /** A flap outside a suppression does not start one at or below the reuse limit. That takes limits that
      are not in order. */
  predicate StartSafe(c: Config, d: Damp) {
    d.dampened || c.reuseLimit < c.suppressLimit || !(c.suppressLimit <= U32(d.history + c.penalty) <= c.reuseLimit)
  }

  predicate EventSafe(c: Config, s: Life, ev: Event) { ev.FlapEvent? ==> FlapSafe(c, s.damp) && StartSafe(c, s.damp) }

  /** An event leaves a suppressed route above the reuse limit if and only if it is no flap that wraps, or
      starts a suppression, to the limit or below. */
  lemma AboveNext(c: Config, s: Life, ev: Event)
    requires c.penalty < 0x1_0000_0000 && Inv(c, s) && Enabled(c, s, ev)
    requires AboveReuse(c, s.damp)
    ensures AboveReuse(c, Next(c, s, ev).damp) <==> EventSafe(c, s, ev)
  {
    if ev.FlapEvent? {
      var sum := s.damp.history + c.penalty;
      assert U32(sum) == if sum < 0x1_0000_0000 then sum else sum - 0x1_0000_0000;
    }
  }

  predicate AboveAfter(c: Config, now: int, evs: seq<Event>, k: nat)
    requires k <= |evs|
  {
    AboveReuse(c, RunOf(c, StartAt(now), evs[..k]).damp)
  }

  predicate SafeAt(c: Config, now: int, evs: seq<Event>, k: nat)
    requires k < |evs|
  {
    EventSafe(c, RunOf(c, StartAt(now), evs[..k]), evs[k])
  }

  lemma {:induction false} EnabledPrefix(c: Config, s: Life, evs: seq<Event>, k: nat)
    requires RunEnabled(c, s, evs) && k <= |evs|
    ensures RunEnabled(c, s, evs[..k])
    ensures k < |evs| ==> Enabled(c, RunOf(c, s, evs[..k]), evs[k])
    decreases |evs|
  {
    if k < |evs| {
      var most := evs[..|evs| - 1];
      assert most[..k] == evs[..k];
      EnabledPrefix(c, s, most, k);
    } else {
      assert evs[..k] == evs;
    }
  }

  lemma AboveStep(c: Config, now: int, evs: seq<Event>, k: nat)
    requires c.penalty < 0x1_0000_0000 && RunEnabled(c, StartAt(now), evs) && k < |evs|
    requires AboveAfter(c, now, evs, k)
    ensures AboveAfter(c, now, evs, k + 1) <==> SafeAt(c, now, evs, k)
  {
    EnabledPrefix(c, StartAt(now), evs, k);
    RunInv(c, now, evs[..k]);
    assert evs[..k + 1][..k] == evs[..k];
    AboveNext(c, RunOf(c, StartAt(now), evs[..k]), evs[k]);
  }

  lemma {:induction false} AboveUpTo(c: Config, now: int, evs: seq<Event>, k: nat)
    requires c.penalty < 0x1_0000_0000 && RunEnabled(c, StartAt(now), evs) && k <= |evs|
    requires forall j {:trigger SafeAt(c, now, evs, j)} | 0 <= j < k :: SafeAt(c, now, evs, j)
    ensures AboveAfter(c, now, evs, k)
  {
    if k > 0 {
      AboveUpTo(c, now, evs, k - 1);
      AboveStep(c, now, evs, k - 1);
    }
  }

  /** Over every run: a suppressed route is above the reuse limit throughout if and only if no flap during
      a suppression wraps the counter to the reuse limit or below, and none starts a suppression there. */
  lemma AboveReuseIff(c: Config, now: int, evs: seq<Event>)
    requires c.penalty < 0x1_0000_0000 && RunEnabled(c, StartAt(now), evs)
    ensures (forall k {:trigger AboveAfter(c, now, evs, k)} | 0 <= k <= |evs| :: AboveAfter(c, now, evs, k)) <==>
            (forall k {:trigger SafeAt(c, now, evs, k)} | 0 <= k < |evs| :: SafeAt(c, now, evs, k))
  {
    if forall k {:trigger SafeAt(c, now, evs, k)} | 0 <= k < |evs| :: SafeAt(c, now, evs, k) {
      forall k | 0 <= k <= |evs| ensures AboveAfter(c, now, evs, k) { AboveUpTo(c, now, evs, k); }
    }
    if forall k {:trigger AboveAfter(c, now, evs, k)} | 0 <= k <= |evs| :: AboveAfter(c, now, evs, k) {
      forall k | 0 <= k < |evs| ensures SafeAt(c, now, evs, k) {
        assert AboveAfter(c, now, evs, k) && AboveAfter(c, now, evs, k + 1);
        AboveStep(c, now, evs, k);
      }
    }
  }

  // ----- How a suppression ends

  /** After every run: an event that ends a suppression is the half-life timer, with the history down to the reuse
      limit, or the maximum timer, at its time, with the history forgotten. */
  lemma EndsOnlyThus(c: Config, now: int, evs: seq<Event>, ev: Event)
    requires RunEnabled(c, StartAt(now), evs) && Enabled(c, RunOf(c, StartAt(now), evs), ev)
    requires RunOf(c, StartAt(now), evs).damp.dampened
    ensures var s := RunOf(c, StartAt(now), evs);
            var d := Next(c, s, ev).damp;
            !d.dampened ==>
              || (ev == HalfLifeTimer && d.history <= c.reuseLimit)
              || (ev == MaxSuppressTimer && s.now == s.since + c.maxSuppress && d.history == 0 && d.halfLifeAt == None)
  {
    RunInv(c, now, evs);
  }

  /** `k` half-lives after `at`. */
  function Later(c: Config, at: int, k: nat): int { if k == 0 then at else Later(c, at, k - 1) + c.halfLife }

  lemma {:induction false} LaterIs(c: Config, at: int, k: nat)
    ensures Later(c, at, k) == at + k * c.halfLife
  {
    if k > 0 {
      LaterIs(c, at, k - 1);
      assert k * c.halfLife == (k - 1) * c.halfLife + c.halfLife;
    }
  }

  /** `k` half-lives without a flap, the first ending at `at`. */
  function Decay(c: Config, at: int, k: nat): seq<Event> {
    if k == 0 then [] else Decay(c, at, k - 1) + [Wait(Later(c, at, k - 1)), HalfLifeTimer]
  }

  lemma RunTwo(c: Config, s: Life, evs: seq<Event>, a: Event, b: Event)
    ensures RunOf(c, s, evs + [a, b]) == Next(c, Next(c, RunOf(c, s, evs), a), b)
    ensures RunEnabled(c, s, evs + [a, b]) <==>
            RunEnabled(c, s, evs) && Enabled(c, RunOf(c, s, evs), a) && Enabled(c, Next(c, RunOf(c, s, evs), a), b)
  {
    var two, one := evs + [a, b], evs + [a];
    assert two[..|two| - 1] == one && one[..|one| - 1] == evs;
  }

  lemma HalfOf(h: nat, p: nat)
    requires p >= 1
    ensures h / p / 2 == h / (2 * p)
  {
    var q := h / p;
    var half, d := q / 2, h / (2 * p);
    DivBounds(h, p);
    DivBounds(h, 2 * p);
    assert d * (2 * p) == 2 * d * p && (d + 1) * (2 * p) == (2 * d + 2) * p;
    if half < d { Monotone(q + 1, 2 * d, p); }
    if half > d { Monotone(2 * d + 2, q, p); }
  }

  /** What is left of a history after `k` half-lives. */
  function Halved(history: nat, k: nat): nat { if k == 0 then history else Halved(history, k - 1) / 2 }

  lemma {:induction false} HalvedIs(history: nat, k: nat)
    ensures Halved(history, k) == history / Pow2(k)
  {
    if k > 0 {
      HalvedIs(history, k - 1);
      HalfOf(history, Pow2(k - 1));
    }
  }

  /** A route is suppressed, its half-life timer fires next at `at`, and the maximum timer is not due for so long. */
  predicate Decaying(c: Config, s: Life, at: int, k: nat) {
    && s.damp.dampened && s.damp.halfLifeAt == Some(at) && s.now <= at
    && s.damp.maxSuppressAt.Some? && (k > 0 ==> Later(c, at, k - 1) <= s.damp.maxSuppressAt.value)
  }

  /** A suppression without further flaps goes on through every half-life after which the history, halved that often,
      is above the reuse limit. */
  lemma {:induction false} StillSuppressed(c: Config, s: Life, at: int, k: nat)
    requires Decaying(c, s, at, k) && Halved(s.damp.history, k) > c.reuseLimit
    ensures RunEnabled(c, s, Decay(c, at, k))
    ensures var e := RunOf(c, s, Decay(c, at, k));
            && e.damp == s.damp.(history := Halved(s.damp.history, k), halfLifeAt := Some(Later(c, at, k)))
            && e.calls == s.calls && e.now <= Later(c, at, k)
  {
    if k > 0 {
      StillSuppressed(c, s, at, k - 1);
      RunTwo(c, s, Decay(c, at, k - 1), Wait(Later(c, at, k - 1)), HalfLifeTimer);
    }
  }

  /** The half-life timer of a suppressed route fires at its time and takes the history to the reuse limit. */
  lemma Release(c: Config, e: Life, at: int)
    requires e.damp.dampened && e.damp.halfLifeAt == Some(at) && e.now <= at
    requires e.damp.maxSuppressAt.Some? && at <= e.damp.maxSuppressAt.value && e.damp.history / 2 <= c.reuseLimit
    ensures Enabled(c, e, Wait(at)) && Enabled(c, Next(c, e, Wait(at)), HalfLifeTimer)
    ensures var f, left := Next(c, Next(c, e, Wait(at)), HalfLifeTimer), e.damp.history / 2;
            && f.damp == Damp(if left <= c.reuseLimit / 2 then 0 else left, false, Some(at + c.halfLife), None)
            && f.calls == e.calls + [Undampen] && f.now == at
  {
    assert e.calls + [] == e.calls;
  }

  lemma ReleaseNext(c: Config, s: Life, evs: seq<Event>, at: int, h: nat)
    requires RunEnabled(c, s, evs) && h / 2 <= c.reuseLimit
    requires var e := RunOf(c, s, evs);
             && e.damp.dampened && e.damp.history == h && e.damp.halfLifeAt == Some(at) && e.now <= at
             && e.damp.maxSuppressAt.Some? && at <= e.damp.maxSuppressAt.value
    ensures RunEnabled(c, s, evs + [Wait(at), HalfLifeTimer])
    ensures var f := RunOf(c, s, evs + [Wait(at), HalfLifeTimer]);
            && f.damp == Damp(if h / 2 <= c.reuseLimit / 2 then 0 else h / 2, false, Some(at + c.halfLife), None)
            && f.calls == RunOf(c, s, evs).calls + [Undampen] && f.now == at
  {
    Release(c, RunOf(c, s, evs), at);
    RunTwo(c, s, evs, Wait(at), HalfLifeTimer);
  }

  predicate Released(c: Config, s: Life, at: int, k: nat, e: Life)
    requires k > 0
  {
    var left := Halved(s.damp.history, k);
    && e.damp == Damp(if left <= c.reuseLimit / 2 then 0 else left, false, Some(Later(c, at, k)), None)
    && e.calls == s.calls + [Undampen] && e.now == Later(c, at, k - 1)
  }

  /** It ends with the first half-life after which the history, halved that often, is not: the history is then what
      is left of it, or nothing if that is at most half the reuse limit. */
  lemma ReleasedByDecay(c: Config, s: Life, at: int, k: nat)
    requires k > 0 && Decaying(c, s, at, k)
    requires Halved(s.damp.history, k) <= c.reuseLimit < Halved(s.damp.history, k - 1)
    ensures RunEnabled(c, s, Decay(c, at, k))
    ensures Released(c, s, at, k, RunOf(c, s, Decay(c, at, k)))
  {
    var until, evs := Later(c, at, k - 1), Decay(c, at, k - 1);
    StillSuppressed(c, s, at, k - 1);
    ReleaseNext(c, s, evs, until, Halved(s.damp.history, k - 1));
    assert Decay(c, at, k) == evs + [Wait(until), HalfLifeTimer];
  }

  lemma {:induction false} RunBehind(c: Config, s: Life, first: Event, evs: seq<Event>)
    requires Enabled(c, s, first)
    ensures RunOf(c, s, [first] + evs) == RunOf(c, Next(c, s, first), evs)
    ensures RunEnabled(c, s, [first] + evs) <==> RunEnabled(c, Next(c, s, first), evs)
    decreases |evs|
  {
    var all := [first] + evs;
    if evs == [] {
      assert all[..|all| - 1] == [];
    } else {
      assert all[..|all| - 1] == [first] + evs[..|evs| - 1];
      RunBehind(c, s, first, evs[..|evs| - 1]);
    }
  }

  /** From the flap that starts a suppression, if no other follows: it lasts exactly the half-lives it takes to halve
      the history down to the reuse limit, provided the maximum time is not shorter. */
  lemma SuppressionLasts(c: Config, s: Life, h: nat, k: nat)
    requires !s.damp.dampened && h == U32(s.damp.history + c.penalty) >= c.suppressLimit
    requires k > 0 && h / Pow2(k) <= c.reuseLimit < h / Pow2(k - 1) && k * c.halfLife <= c.maxSuppress
    ensures var evs := [FlapEvent] + Decay(c, s.now + c.halfLife, k);
            var e := RunOf(c, s, evs);
            && RunEnabled(c, s, evs) && Next(c, s, FlapEvent).damp.dampened
            && !e.damp.dampened && e.now == s.now + k * c.halfLife && e.calls == s.calls + [Dampen] + [Undampen]
  {
    var s1, at := Next(c, s, FlapEvent), s.now + c.halfLife;
    LaterIs(c, at, k - 1);
    assert k * c.halfLife == (k - 1) * c.halfLife + c.halfLife;
    HalvedIs(h, k);
    HalvedIs(h, k - 1);
    ReleasedByDecay(c, s1, at, k);
    RunBehind(c, s, FlapEvent, Decay(c, at, k));
  }

  // ----- What a consistent configuration guarantees

  /** The number of half-lives in the maximum suppression time. */
  function HalfLives(c: Config): nat
    requires c.halfLife > 0
  {
    c.maxSuppress / c.halfLife
  }

  /** The constructor's consistency test, in 32-bit arithmetic. */
  predicate IsValid(c: Config)
    requires c.halfLife > 0
  {
    c.penalty <= U32(c.reuseLimit * Pow2(HalfLives(c)))
  }

  /** In a valid configuration the penalty of a flap alone decays to the reuse limit within the maximum
      suppression time. */
  lemma ValidPenaltyDecays(c: Config)
    requires c.halfLife > 0 && IsValid(c)
    ensures Halved(c.penalty, HalfLives(c)) <= c.reuseLimit
  {
    var n := HalfLives(c);
    assert U32(c.reuseLimit * Pow2(n)) <= c.reuseLimit * Pow2(n);
    HalvedIs(c.penalty, n);
    DivBounds(c.penalty, Pow2(n));
    if Halved(c.penalty, n) > c.reuseLimit { Monotone(c.reuseLimit + 1, Halved(c.penalty, n), Pow2(n)); }
  }

  /** The wrap happens in a valid configuration: with a penalty of half the counter's range the second flap
      takes the history of a suppressed route to 0. */
  lemma FlapsWrap(now: int)
    ensures var c := Config(0x8000_0000, 0x8000_0000, 0x4000_0000, 1, 1);
            var s := RunOf(c, StartAt(now), [FlapEvent, FlapEvent]);
            && IsValid(c) && RunEnabled(c, StartAt(now), [FlapEvent, FlapEvent])
            && s.damp.dampened && s.damp.history == 0 && !AboveReuse(c, s.damp)
  {
    var c, one, two := Config(0x8000_0000, 0x8000_0000, 0x4000_0000, 1, 1), [FlapEvent], [FlapEvent, FlapEvent];
    assert two[..|two| - 1] == one && one[..|one| - 1] == [];
    var s := Next(c, StartAt(now), FlapEvent);
    assert s.damp.dampened && s.damp.history == 0x8000_0000;
    assert RunOf(c, StartAt(now), one) == s && RunOf(c, StartAt(now), two) == Next(c, s, FlapEvent);
    assert Pow2(1) == 2;
  }

  // ----- The dampener object

  class Dampener {
    const config: Config
    var history: nat
    var dampened: bool
    var halfLifeAt: Option<int>
    var maxSuppressAt: Option<int>

    ghost function Model(): Damp
      reads this
    {
      Damp(history, dampened, halfLifeAt, maxSuppressAt)
    }

    constructor (config: Config)
      requires config.halfLife > 0 && IsValid(config)
      ensures Model() == FRESH && this.config == config
    {
      this.config := config;
      history, dampened, halfLifeAt, maxSuppressAt := 0, false, None, None;
    }

    /** Construction as the program does it: inconsistent values are refused. */
    static method Create(config: Config) returns (d: Dampener?)
      requires config.halfLife > 0
      ensures d == null <==> !IsValid(config)
      ensures d != null ==> fresh(d) && d.Model() == FRESH && d.config == config
    {
      d := null;
      if IsValid(config) { d := new Dampener(config); }
    }

    method DoFlap(now: int) returns (calls: seq<Call>)
      modifies this
      ensures (Model(), calls) == Flap(config, old(Model()), now)
    {
      calls := [];
      history := U32(history + config.penalty);
      if !dampened && history >= config.suppressLimit {
        dampened := true;
        halfLifeAt := Some(now + config.halfLife);
        maxSuppressAt := Some(now + config.maxSuppress);
        calls := [Dampen];
      }
    }

    /** Release the route; only ever reached while it is suppressed. */
    method UndampenImpl() returns (calls: seq<Call>)
      requires dampened
      modifies this`dampened, this`maxSuppressAt
      ensures !dampened && maxSuppressAt == None && calls == [Undampen]
    {
      dampened := false;
      maxSuppressAt := None;
      calls := [Undampen];
    }

    method HalfLifeTimerExpired(now: int) returns (calls: seq<Call>)
      modifies this
      ensures (Model(), calls) == HalfLife(config, old(Model()), now)
    {
      calls := [];
      history := history / 2;
      if history <= config.reuseLimit / 2 {
        history := 0;
        halfLifeAt := None;
      }
      if dampened && history <= config.reuseLimit {
        calls := UndampenImpl();
      }
      halfLifeAt := Some(now + config.halfLife);
    }

    method MaxSuppressLimitTimerExpired() returns (calls: seq<Call>)
      modifies this
      ensures (Model(), calls) == MaxSuppress(old(Model()))
    {
      calls := [];
      maxSuppressAt := None;
      if dampened {
        history := 0;
        halfLifeAt := None;
        calls := UndampenImpl();
      }
    }
  }
}
