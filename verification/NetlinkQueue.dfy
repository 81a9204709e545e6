/**
 The netlink request queue: requests are queued, sent in batches under increasing sequence
 numbers, matched with the kernel's acknowledgements and their promises completed; a timer
 keeps the queue moving when an acknowledgement is lost.
 */
module NetlinkQueue {
  import opened MeshTypes

  const MAX_QUEUE := 126001
  const MAX_BATCH := 500
  const TWO32 := 0x1_0000_0000

  /** A request as the client knows it. */
  type Request = nat

  /** Requests are also known by their position in the order of sending. `queue` holds what waits,
      `inflight` maps sequence numbers to positions in `sent`, `done` lists completed promises, and
      `lost` the requests whose sequence number was still in use when they were sent. */
  datatype Queue = Queue(
    queue: seq<Request>, inflight: map<nat, nat>, last: nat, counter: nat, armed: bool,
    accepted: seq<Request>, sent: seq<Request>, done: seq<(nat, int)>, lost: set<nat>)

  function Empty(last: nat): Queue { Queue([], map[], last, 0, false, [], [], [], {}) }

  // ----- Operations

  /** The 32-bit counter's increment. */
  function Increment(counter: nat): nat { if counter == TWO32 - 1 then 0 else counter + 1 }

  /** Take the first request off the queue and give it the next sequence number. */
  function SendOne(q: Queue): Queue
    requires q.queue != []
  {
    var number, i := Increment(q.counter), |q.sent|;
    var q1 := q.(queue := q.queue[1..], counter := number, sent := q.sent + [q.queue[0]]);
    if number in q.inflight then q1.(lost := q.lost + {i}) else q1.(inflight := q.inflight[number := i])
  }

  function SendMany(q: Queue, n: nat): (r: Queue)
    requires n <= |q.queue|
    ensures |r.queue| == |q.queue| - n
  {
    if n == 0 then q else SendOne(SendMany(q, n - 1))
  }

  function BatchSize(q: Queue): nat { if |q.queue| < MAX_BATCH then |q.queue| else MAX_BATCH }

  /** Send a batch and arm the timer; with nothing to send, do nothing. */
  function Send(q: Queue): Queue {
    if q.queue == [] then q
    else var q1 := SendMany(q, BatchSize(q)); q1.(last := q1.counter, armed := true)
  }

  /** Accept requests until the queue is full; the rest are discarded. */
  function Accept(q: Queue, msgs: seq<Request>): Queue
    decreases |msgs|
  {
    if msgs == [] || |q.queue| + 1 >= MAX_QUEUE then q
    else Accept(q.(queue := q.queue + [msgs[0]], accepted := q.accepted + [msgs[0]]), msgs[1..])
  }

  function Submit(q: Queue, msgs: seq<Request>): Queue {
    var q1 := Accept(q, msgs);
    if q1.armed then q1 else Send(q1)
  }

  /** Complete the promise of the request sent under `number`, if it is still in flight. */
  function Complete(q: Queue, number: nat, status: int): Queue {
    if number in q.inflight
    then q.(done := q.done + [(q.inflight[number], status)], inflight := q.inflight - {number})
    else q
  }

  /** The acknowledgement of the last request sent releases the next batch. */
  function Acked(q: Queue, number: nat): Queue {
    if number == q.last then Send(q.(armed := false)) else q
  }

  datatype Event =
    | Submitting(msgs: seq<Request>)
    | ErrorAck(number: nat, status: int)
    | MultipartDone(number: nat)
    | Timer

  predicate Enabled(q: Queue, ev: Event) { ev.Timer? ==> q.armed }

  function Next(q: Queue, ev: Event): Queue {
    match ev
    case Submitting(msgs) => Submit(q, msgs)
    case ErrorAck(number, status) => Acked(Complete(q, number, status), number)
    case MultipartDone(number) => Complete(Acked(q, number), number, 0)
    case Timer => Send(q.(armed := false))
  }

  function RunOf(q: Queue, evs: seq<Event>): Queue
    decreases |evs|
  {
    if evs == [] then q else RunOf(Next(q, evs[0]), evs[1..])
  }

  predicate RunEnabled(q: Queue, evs: seq<Event>)
    decreases |evs|
  {
    evs == [] || (Enabled(q, evs[0]) && RunEnabled(Next(q, evs[0]), evs[1..]))
  }

  // ----- The invariant

  /** The counter after `n` requests, and so the sequence number of the n-th. */
  function Number(n: nat): nat { if n == 0 then 0 else Increment(Number(n - 1)) }

  predicate InFlight(q: Queue, i: nat) {
    Number(i + 1) in q.inflight && q.inflight[Number(i + 1)] == i
  }

  predicate Done(q: Queue, i: nat) { exists j | 0 <= j < |q.done| :: q.done[j].0 == i }

  /** Request `i` is in exactly one of the three places a sent request can be. */
  predicate Placed(q: Queue, i: nat) {
    && (InFlight(q, i) || Done(q, i) || i in q.lost)
    && !(InFlight(q, i) && Done(q, i))
    && !(InFlight(q, i) && i in q.lost)
    && !(Done(q, i) && i in q.lost)
  }

  ghost predicate Books(q: Queue) {
    && q.accepted == q.sent + q.queue
    && |q.queue| < MAX_QUEUE
    && q.counter == Number(|q.sent|)
    && (forall k <- q.inflight :: q.inflight[k] < |q.sent| && k == Number(q.inflight[k] + 1))
    && (forall j | 0 <= j < |q.done| :: q.done[j].0 < |q.sent|)
    && (forall i <- q.lost :: TWO32 <= i < |q.sent|)
    && (forall j, k | 0 <= j < k < |q.done| :: q.done[j].0 != q.done[k].0)
  }

  /** What holds between any two statements of a callback. */
  ghost predicate Core(q: Queue) {
    Books(q) && forall i {:trigger Placed(q, i)} | 0 <= i < |q.sent| :: Placed(q, i)
  }

  /** What holds between callbacks: also, whatever waits has the timer to wake it. */
  ghost predicate Inv(q: Queue) { Core(q) && (q.queue != [] ==> q.armed) }

  lemma CounterStep(n: nat)
    ensures Increment(U32(n)) == U32(n + 1)
  {
  }

  lemma ModGap(i: nat, j: nat)
    requires j < i && U32(i + 1) == U32(j + 1)
    ensures i >= TWO32
  {
  }

  lemma {:induction false} NumberIsMod(n: nat)
    ensures Number(n) == U32(n)
  {
    if n > 0 {
      NumberIsMod(n - 1);
      CounterStep(n - 1);
    }
  }

  /** A sequence number comes round only after 2^32 requests. */
  lemma NumberGap(i: nat, j: nat)
    requires j < i && Number(i + 1) == Number(j + 1)
    ensures i >= TWO32
  {
    NumberIsMod(i + 1);
    NumberIsMod(j + 1);
    ModGap(i, j);
  }

  lemma SentPlaces(q: Queue, i: nat)
    requires Core(q) && q.queue != [] && i <= |q.sent|
    ensures Placed(SendOne(q), i)
  {
    var q', n := SendOne(q), |q.sent|;
    assert Done(q', i) <==> Done(q, i);
    if i < n {
      assert Placed(q, i);
    } else {
      assert !Done(q, n) && n !in q.lost;
    }
  }

  lemma SendOneBooks(q: Queue)
    requires Books(q) && q.queue != []
    ensures Books(SendOne(q))
  {
    var n := |q.sent|;
    var number := Number(n + 1);
    if number in q.inflight { NumberGap(n, q.inflight[number]); }
    assert q.queue == [q.queue[0]] + q.queue[1..];
    assert q.accepted == (q.sent + [q.queue[0]]) + q.queue[1..];
  }

  lemma SendOneCore(q: Queue)
    requires Core(q) && q.queue != []
    ensures Core(SendOne(q))
  {
    SendOneBooks(q);
    forall i | 0 <= i < |SendOne(q).sent| ensures Placed(SendOne(q), i) { SentPlaces(q, i); }
  }

  lemma {:induction false} SendManyMoves(q: Queue, n: nat)
    requires n <= |q.queue|
    ensures var q' := SendMany(q, n);
            && q'.sent == q.sent + q.queue[..n] && q'.queue == q.queue[n..] && q'.accepted == q.accepted
            && q'.armed == q.armed
  {
    if n > 0 {
      SendManyMoves(q, n - 1);
      MoveOne(q.sent, q.queue, n);
    }
  }

  lemma MoveOne<T>(sent: seq<T>, queue: seq<T>, n: nat)
    requires 0 < n <= |queue|
    ensures (sent + queue[..n - 1]) + [queue[n - 1]] == sent + queue[..n] && queue[n - 1..][1..] == queue[n..]
  {
  }

  lemma {:induction false} SendManyCore(q: Queue, n: nat)
    requires Core(q) && n <= |q.queue|
    ensures Core(SendMany(q, n))
  {
    if n > 0 {
      SendManyCore(q, n - 1);
      SendOneCore(SendMany(q, n - 1));
    }
  }

  lemma SendInv(q: Queue)
    requires Core(q)
    ensures Inv(Send(q))
    ensures Send(q).accepted == q.accepted
    ensures Send(q).sent == q.sent + q.queue[..BatchSize(q)]
  {
    SendManyCore(q, BatchSize(q));
    SendManyMoves(q, BatchSize(q));
    var q1 := SendMany(q, BatchSize(q));
    SameCore(q1, Send(q));
  }

  /** `last` and `armed` play no part in the bookkeeping. */
  lemma SameCore(q: Queue, q': Queue)
    requires Core(q) && q' == q.(last := q'.last, armed := q'.armed)
    ensures Core(q')
  {
    forall i | 0 <= i < |q'.sent| ensures Placed(q', i) {
      assert Placed(q, i);
      assert Done(q', i) <==> Done(q, i);
    }
  }

  lemma {:induction false} AcceptCore(q: Queue, msgs: seq<Request>)
    requires Core(q)
    ensures Core(Accept(q, msgs))
    ensures var q' := Accept(q, msgs);
            q'.sent == q.sent && q.accepted <= q'.accepted && q'.armed == q.armed
    decreases |msgs|
  {
    if msgs != [] && |q.queue| + 1 < MAX_QUEUE {
      var q1 := q.(queue := q.queue + [msgs[0]], accepted := q.accepted + [msgs[0]]);
      forall i | 0 <= i < |q1.sent| ensures Placed(q1, i) {
        assert Placed(q, i);
        assert Done(q1, i) <==> Done(q, i);
      }
      AcceptCore(q1, msgs[1..]);
    }
  }

  lemma CompleteCore(q: Queue, number: nat, status: int)
    requires Core(q)
    ensures Core(Complete(q, number, status))
  {
    if number in q.inflight {
      var q' := Complete(q, number, status);
      var n := q.inflight[number];
      assert InFlight(q, n);
      assert Placed(q, n);
      forall i ensures Done(q', i) <==> Done(q, i) || i == n {
        if Done(q, i) { var j :| 0 <= j < |q.done| && q.done[j].0 == i; assert q'.done[j].0 == i; }
        if i == n { assert q'.done[|q.done|].0 == n; }
      }
      forall i | 0 <= i < |q'.sent| ensures Placed(q', i) {
        assert Placed(q, i);
        if i != n && InFlight(q, i) { assert q.inflight[Number(i + 1)] == i; }
      }
    }
  }

  lemma AckedInv(q: Queue, number: nat)
    requires Inv(q)
    ensures Inv(Acked(q, number))
  {
    if number == q.last {
      SameCore(q, q.(armed := false));
      SendInv(q.(armed := false));
    }
  }

  lemma NextInv(q: Queue, ev: Event)
    requires Inv(q) && Enabled(q, ev)
    ensures Inv(Next(q, ev))
  {
    match ev
    case Submitting(msgs) =>
      AcceptCore(q, msgs);
      if !q.armed { SendInv(Accept(q, msgs)); }
    case ErrorAck(number, status) =>
      CompleteCore(q, number, status);
      AckedInv(Complete(q, number, status), number);
    case MultipartDone(number) =>
      AckedInv(q, number);
      CompleteCore(Acked(q, number), number, 0);
    case Timer =>
      SameCore(q, q.(armed := false));
      SendInv(q.(armed := false));
  }

  lemma {:induction false} RunInv(q: Queue, evs: seq<Event>)
    requires Inv(q) && RunEnabled(q, evs)
    ensures Inv(RunOf(q, evs))
    decreases |evs|
  {
    if evs != [] {
      NextInv(q, evs[0]);
      RunInv(Next(q, evs[0]), evs[1..]);
    }
  }

  // ----- Results over every run

  lemma EmptyInv(last: nat)
    ensures Inv(Empty(last))
  {
  }

  predicate InOrder(q: Queue) {
    && q.accepted == q.sent + q.queue
    && |q.queue| <= 126000
    && (q.queue != [] ==> q.armed)
  }

  predicate Numbered(q: Queue) { forall k <- q.inflight :: k == U32(q.inflight[k] + 1) }

  /** Requests are sent in the order they were accepted, the i-th under the i-th sequence number; each
      is waiting, in flight, completed or lost, and nothing is lost before 2^32 requests; the queue
      stays within its limit, and whatever waits has the timer armed. */
  lemma QueueDiscipline(last: nat, evs: seq<Event>)
    requires RunEnabled(Empty(last), evs)
    ensures var q := RunOf(Empty(last), evs);
            && InOrder(q) && Numbered(q)
            && (forall i {:trigger Placed(q, i)} | 0 <= i < |q.sent| :: Placed(q, i))
            && (|q.sent| <= TWO32 ==> q.lost == {})
  {
    EmptyInv(last);
    RunInv(Empty(last), evs);
    InvNumbered(RunOf(Empty(last), evs));
  }

  lemma InvNumbered(q: Queue)
    requires Inv(q)
    ensures Numbered(q) && (|q.sent| <= TWO32 ==> q.lost == {})
  {
    forall k | k in q.inflight ensures k == U32(q.inflight[k] + 1) { NumberIsMod(q.inflight[k] + 1); }
  }

  /** No promise is completed twice. */
  lemma PromiseSetOnce(last: nat, evs: seq<Event>, j: nat, k: nat)
    requires RunEnabled(Empty(last), evs)
    requires var q := RunOf(Empty(last), evs); j < k < |q.done|
    ensures var q := RunOf(Empty(last), evs); q.done[j].0 != q.done[k].0
  {
    EmptyInv(last);
    RunInv(Empty(last), evs);
  }

  // ----- Every promise gets the status of its own acknowledgement

  /** `ev` acknowledges request `i` with status `s`: an error message carries its status, the end of a multipart
      answer means success. */
  predicate Acknowledges(ev: Event, i: nat, s: int) {
    ev == ErrorAck(U32(i + 1), s) || (ev == MultipartDone(U32(i + 1)) && s == 0)
  }

  predicate AcknowledgedIn(evs: seq<Event>, i: nat, s: int) {
    exists k | 0 <= k < |evs| :: Acknowledges(evs[k], i, s)
  }

  /** Sending completes nothing and takes no number from a request in flight. */
  lemma {:induction false} SendManyKeeps(q: Queue, n: nat)
    requires n <= |q.queue|
    ensures var q' := SendMany(q, n);
            q'.done == q.done && forall k <- q.inflight :: k in q'.inflight && q'.inflight[k] == q.inflight[k]
  {
    if n > 0 { SendManyKeeps(q, n - 1); }
  }

  lemma AckedKeeps(q: Queue, number: nat)
    ensures var q' := Acked(q, number);
            q'.done == q.done && forall k <- q.inflight :: k in q'.inflight && q'.inflight[k] == q.inflight[k]
  {
    if number == q.last { SendManyKeeps(q.(armed := false), BatchSize(q)); }
  }

  lemma {:induction false} AcceptKeeps(q: Queue, msgs: seq<Request>)
    ensures Accept(q, msgs).done == q.done
    decreases |msgs|
  {
    if msgs != [] && |q.queue| + 1 < MAX_QUEUE {
      AcceptKeeps(q.(queue := q.queue + [msgs[0]], accepted := q.accepted + [msgs[0]]), msgs[1..]);
    }
  }

  /** An event completes nothing, or one request, which it acknowledges. */
  lemma NextCompletes(q: Queue, ev: Event) returns (some: Option<(nat, int)>)
    requires Inv(q) && Enabled(q, ev)
    ensures some.None? ==> Next(q, ev).done == q.done
    ensures some.Some? ==>
              Next(q, ev).done == q.done + [some.value] && Acknowledges(ev, some.value.0, some.value.1)
  {
    some := None;
    match ev
    case Submitting(msgs) =>
      AcceptKeeps(q, msgs);
      var q1 := Accept(q, msgs);
      if q1.queue != [] { SendManyKeeps(q1, BatchSize(q1)); }
    case ErrorAck(number, status) =>
      AckedKeeps(Complete(q, number, status), number);
      if number in q.inflight {
        NumberIsMod(q.inflight[number] + 1);
        some := Some((q.inflight[number], status));
      }
    case MultipartDone(number) =>
      AckedInv(q, number);
      AckedKeeps(q, number);
      var q1 := Acked(q, number);
      if number in q1.inflight {
        NumberIsMod(q1.inflight[number] + 1);
        some := Some((q1.inflight[number], 0));
      }
    case Timer =>
      if q.queue != [] { SendManyKeeps(q.(armed := false), BatchSize(q)); }
  }

  lemma {:induction false} RunCompletes(q: Queue, evs: seq<Event>, j: nat)
    requires Inv(q) && RunEnabled(q, evs) && j < |RunOf(q, evs).done|
    ensures var d := RunOf(q, evs).done[j];
            (j < |q.done| && q.done[j] == d) || AcknowledgedIn(evs, d.0, d.1)
    decreases |evs|
  {
    if evs != [] {
      var q1, d := Next(q, evs[0]), RunOf(q, evs).done[j];
      NextInv(q, evs[0]);
      RunCompletes(q1, evs[1..], j);
      var some := NextCompletes(q, evs[0]);
      if AcknowledgedIn(evs[1..], d.0, d.1) {
        var k :| 0 <= k < |evs[1..]| && Acknowledges(evs[1..][k], d.0, d.1);
        assert Acknowledges(evs[k + 1], d.0, d.1);
      } else if j >= |q.done| {
        assert Acknowledges(evs[0], d.0, d.1);
      }
    }
  }

  /** Over every run: a completed promise has the status of an acknowledgement that carried the sequence number of
      its own request. */
  lemma StatusFromAcknowledgement(last: nat, evs: seq<Event>, j: nat)
    requires RunEnabled(Empty(last), evs) && j < |RunOf(Empty(last), evs).done|
    ensures var d := RunOf(Empty(last), evs).done[j]; AcknowledgedIn(evs, d.0, d.1)
  {
    EmptyInv(last);
    RunCompletes(Empty(last), evs, j);
  }

  /** And conversely: an acknowledgement of a number in flight completes the request sent under it, with its
      status. */
  lemma AcknowledgementCompletes(q: Queue, ev: Event, i: nat, s: int)
    requires Inv(q) && Acknowledges(ev, i, s) && U32(i + 1) in q.inflight && q.inflight[U32(i + 1)] == i
    ensures Next(q, ev).done == q.done + [(i, s)]
  {
    if ev.ErrorAck? {
      AckedKeeps(Complete(q, ev.number, s), ev.number);
    } else {
      AckedKeeps(q, ev.number);
    }
  }

  // ----- Flow control

  /** Once something has been sent, `last` is the number of the latest request, and only then is the timer armed. */
  predicate Latest(q: Queue) {
    (q.sent != [] ==> q.last == Number(|q.sent|)) && (q.armed ==> q.sent != [])
  }

  lemma SendLatest(q: Queue)
    requires Core(q) && (q.sent != [] ==> q.last == Number(|q.sent|)) && (q.armed ==> q.sent != [])
    ensures Latest(Send(q))
  {
    SendInv(q);
    SendManyCore(q, BatchSize(q));
    SendManyMoves(q, BatchSize(q));
  }

  lemma AckedLatest(q: Queue, number: nat)
    requires Inv(q) && Latest(q)
    ensures Latest(Acked(q, number))
  {
    if number == q.last {
      SameCore(q, q.(armed := false));
      SendLatest(q.(armed := false));
    }
  }

  /** The event sends: the timer, the acknowledgement of the latest number, or a submission while no timer is
      armed. */
  predicate Sends(q: Queue, ev: Event) {
    match ev
    case Timer => true
    case Submitting(_) => !q.armed
    case ErrorAck(number, _) => q.sent != [] && number == U32(|q.sent|)
    case MultipartDone(number) => q.sent != [] && number == U32(|q.sent|)
  }

  function AtMost(n: int, limit: nat): nat { if n < 0 then 0 else if n < limit then n else limit }

  /** The requests of an event that find room among 126000. */
  function Room(q: Queue, ev: Event): seq<Request> {
    if ev.Submitting? then ev.msgs[..AtMost(126000 - |q.queue|, |ev.msgs|)] else []
  }

  lemma {:induction false} AcceptIs(q: Queue, msgs: seq<Request>)
    ensures var some := msgs[..AtMost(126000 - |q.queue|, |msgs|)];
            Accept(q, msgs) == q.(queue := q.queue + some, accepted := q.accepted + some)
    decreases |msgs|
  {
    var n := AtMost(126000 - |q.queue|, |msgs|);
    if msgs == [] || |q.queue| + 1 >= MAX_QUEUE {
      assert msgs[..n] == [] && q.queue + [] == q.queue && q.accepted + [] == q.accepted;
    } else {
      var q1 := q.(queue := q.queue + [msgs[0]], accepted := q.accepted + [msgs[0]]);
      AcceptIs(q1, msgs[1..]);
      assert [msgs[0]] + msgs[1..][..n - 1] == msgs[..n];
      Reassociate(q.queue, [msgs[0]], msgs[1..][..n - 1]);
      Reassociate(q.accepted, [msgs[0]], msgs[1..][..n - 1]);
    }
  }

  /** What is sent, what waits and whether the timer is armed after an event. */
  predicate Flows(q: Queue, ev: Event, q': Queue) {
    var waiting := q.queue + Room(q, ev);
    var n := if Sends(q, ev) then AtMost(|waiting|, 500) else 0;
    && q'.sent == q.sent + waiting[..n] && q'.queue == waiting[n..]
    && (q'.armed <==> if Sends(q, ev) then n > 0 else q.armed)
  }

  lemma SendFlows(q: Queue)
    ensures var n := AtMost(|q.queue|, 500);
            && Send(q).sent == q.sent + q.queue[..n] && Send(q).queue == q.queue[n..]
            && (Send(q).armed <==> n > 0 || q.armed)
  {
    SendManyMoves(q, BatchSize(q));
    if q.queue == [] { assert q.sent + [] == q.sent; }
  }

  lemma AckedFlows(q: Queue, number: nat)
    ensures number == q.last ==>
              var n := AtMost(|q.queue|, 500);
              && Acked(q, number).sent == q.sent + q.queue[..n] && Acked(q, number).queue == q.queue[n..]
              && (Acked(q, number).armed <==> n > 0)
    ensures number != q.last ==> Acked(q, number) == q
  {
    if number == q.last { SendFlows(q.(armed := false)); }
  }

  /** Nothing is sent. */
  lemma FlowsIdle(q: Queue, ev: Event, q': Queue)
    requires !Sends(q, ev) && q'.sent == q.sent && q'.queue == q.queue + Room(q, ev) && q'.armed == q.armed
    ensures Flows(q, ev, q')
  {
    var waiting := q.queue + Room(q, ev);
    assert q.sent + waiting[..0] == q.sent && waiting[0..] == waiting;
  }

  lemma AckFlows(q: Queue, ev: Event, number: nat, q': Queue)
    requires Inv(q) && Latest(q) && (ev.ErrorAck? || ev.MultipartDone?) && number == ev.number
    requires var a := Acked(q, number); q'.sent == a.sent && q'.queue == a.queue && q'.armed == a.armed
    ensures Flows(q, ev, q')
  {
    AckedFlows(q, number);
    NumberIsMod(|q.sent|);
    assert q.queue + [] == q.queue;
    if q.sent == [] {
      NothingWaits(q);
      assert q.sent + q.queue[..0] == q.sent;
    }
    if !Sends(q, ev) { FlowsIdle(q, ev, q'); }
  }

  lemma NextFlows(q: Queue, ev: Event)
    requires Inv(q) && Latest(q) && Enabled(q, ev)
    ensures Flows(q, ev, Next(q, ev))
  {
    match ev
    case Submitting(msgs) =>
      AcceptIs(q, msgs);
      if q.armed { FlowsIdle(q, ev, Next(q, ev)); } else { SendFlows(Accept(q, msgs)); }
    case ErrorAck(number, status) =>
      CompleteCore(q, number, status);
      AckFlows(Complete(q, number, status), ev, number, Next(q, ev));
    case MultipartDone(number) =>
      AckFlows(q, ev, number, Next(q, ev));
    case Timer =>
      SendFlows(q.(armed := false));
      assert q.queue + [] == q.queue;
  }

  lemma NextLatest(q: Queue, ev: Event)
    requires Inv(q) && Latest(q) && Enabled(q, ev)
    ensures Latest(Next(q, ev))
  {
    match ev
    case Submitting(msgs) =>
      AcceptCore(q, msgs);
      AcceptLast(q, msgs);
      if !q.armed { SendLatest(Accept(q, msgs)); }
    case ErrorAck(number, status) =>
      CompleteCore(q, number, status);
      AckedLatest(Complete(q, number, status), number);
    case MultipartDone(number) =>
      AckedLatest(q, number);
    case Timer =>
      SameCore(q, q.(armed := false));
      SendLatest(q.(armed := false));
  }

  lemma {:induction false} AcceptLast(q: Queue, msgs: seq<Request>)
    ensures Accept(q, msgs).last == q.last && Accept(q, msgs).armed == q.armed
    decreases |msgs|
  {
    if msgs != [] && |q.queue| + 1 < MAX_QUEUE {
      AcceptLast(q.(queue := q.queue + [msgs[0]], accepted := q.accepted + [msgs[0]]), msgs[1..]);
    }
  }

  /** Before anything is sent nothing waits. */
  lemma NothingWaits(q: Queue)
    requires Inv(q) && Latest(q)
    ensures q.sent == [] ==> q.queue == []
  {
  }

  lemma {:induction false} RunLatest(q: Queue, evs: seq<Event>)
    requires Inv(q) && Latest(q) && RunEnabled(q, evs)
    ensures Latest(RunOf(q, evs))
    decreases |evs|
  {
    if evs != [] {
      NextInv(q, evs[0]);
      NextLatest(q, evs[0]);
      RunLatest(Next(q, evs[0]), evs[1..]);
    }
  }

  /** After every run: the timer, the acknowledgement of the latest number sent and a submission while no timer is
      armed send the next batch, of at most 500; nothing else sends anything. A submission is accepted up to a
      queue of 126000. The timer is armed by sending a batch, and runs out when there is none to send. */
  lemma FlowControl(last: nat, evs: seq<Event>, ev: Event)
    requires RunEnabled(Empty(last), evs) && Enabled(RunOf(Empty(last), evs), ev)
    ensures var q := RunOf(Empty(last), evs); Flows(q, ev, Next(q, ev))
  {
    EmptyInv(last);
    RunInv(Empty(last), evs);
    RunLatest(Empty(last), evs);
    NextFlows(RunOf(Empty(last), evs), ev);
  }

  // ----- Nobody is stranded

  function Timers(evs: seq<Event>): nat {
    if evs == [] then 0 else (if evs[0].Timer? then 1 else 0) + Timers(evs[1..])
  }

  lemma NextProgress(q: Queue, ev: Event)
    requires Inv(q) && Enabled(q, ev)
    ensures var q' := Next(q, ev);
            q.sent <= q'.sent && q.accepted <= q'.accepted && (ev.Timer? ==> |q'.sent| >= |q.sent| + BatchSize(q))
  {
    match ev
    case Submitting(msgs) =>
      AcceptCore(q, msgs);
      if !q.armed { SendInv(Accept(q, msgs)); }
    case ErrorAck(number, status) =>
      CompleteCore(q, number, status);
      AckProgress(Complete(q, number, status), number);
    case MultipartDone(number) =>
      AckProgress(q, number);
    case Timer =>
      SameCore(q, q.(armed := false));
      SendInv(q.(armed := false));
  }

  lemma AckProgress(q: Queue, number: nat)
    requires Inv(q)
    ensures var q' := Acked(q, number); q.sent <= q'.sent && q.accepted <= q'.accepted
  {
    if number == q.last {
      SameCore(q, q.(armed := false));
      SendInv(q.(armed := false));
    }
  }

  /** An accepted request with `w` others before it is sent by the time the timer has fired w/500 + 1
      times, whatever else happens and whatever acknowledgements go missing. */
  lemma {:induction false} NoRequestStranded(q: Queue, evs: seq<Event>, p: nat)
    requires Inv(q) && RunEnabled(q, evs) && p < |q.accepted| && p < |q.sent| + MAX_BATCH * Timers(evs)
    ensures var e := RunOf(q, evs); p < |e.sent| && e.sent[p] == q.accepted[p]
    decreases |evs|
  {
    if p < |q.sent| { SentStays(q, evs); }
    else {
      assert evs != [];
      NextInv(q, evs[0]);
      NextProgress(q, evs[0]);
      var q1 := Next(q, evs[0]);
      assert q1.accepted[p] == q.accepted[p];
      NoRequestStranded(q1, evs[1..], p);
    }
  }

  lemma {:induction false} SentStays(q: Queue, evs: seq<Event>)
    requires Inv(q) && RunEnabled(q, evs)
    ensures q.sent <= RunOf(q, evs).sent
    decreases |evs|
  {
    if evs != [] {
      NextInv(q, evs[0]);
      NextProgress(q, evs[0]);
      SentStays(Next(q, evs[0]), evs[1..]);
    }
  }

  // ----- The socket object

  predicate Names(names: map<nat, Request>, positions: map<nat, nat>, sent: seq<Request>) {
    && names.Keys == positions.Keys
    && forall k <- positions :: positions[k] < |sent| && names[k] == sent[positions[k]]
  }

  predicate Records(results: seq<(Request, int)>, done: seq<(nat, int)>, sent: seq<Request>) {
    && |results| == |done|
    && forall j | 0 <= j < |done| :: done[j].0 < |sent| && results[j] == (sent[done[j].0], done[j].1)
  }

  predicate Extends(more: map<nat, Request>, names: map<nat, Request>) {
    forall k <- names :: k in more && more[k] == names[k]
  }

  lemma NamesGrow(names: map<nat, Request>, positions: map<nat, nat>, sent: seq<Request>, number: nat, m: Request)
    requires Names(names, positions, sent)
    ensures Names(names, positions, sent + [m])
    ensures Names(names[number := m], positions[number := |sent|], sent + [m])
  {
  }

  lemma RecordsGrow(results: seq<(Request, int)>, done: seq<(nat, int)>, sent: seq<Request>, m: Request)
    requires Records(results, done, sent)
    ensures Records(results, done, sent + [m])
  {
  }

  class ProtocolSocket {
    var msgQueue: seq<Request>
    var seqNoMap: map<nat, Request>
    var lastSeqNo: nat
    var sequenceNumber: nat
    var timerArmed: bool
    /** The promises completed, in order, each with its status. */
    var results: seq<(Request, int)>

    ghost var accepted: seq<Request>
    ghost var sent: seq<Request>
    ghost var positions: map<nat, nat>
    ghost var done: seq<(nat, int)>
    ghost var lost: set<nat>

    ghost function Model(): Queue
      reads this
    {
      Queue(msgQueue, positions, lastSeqNo, sequenceNumber, timerArmed, accepted, sent, done, lost)
    }

    /** The map and the results name the requests that the positions stand for. */
    ghost predicate Valid()
      reads this
    {
      Names(seqNoMap, positions, sent) && Records(results, done, sent)
    }

    /** `lastSeqNo` is not initialised by the program: it may start as anything. */
    constructor (garbage: nat)
      ensures Valid() && Model() == Empty(garbage)
    {
      msgQueue, seqNoMap, lastSeqNo, sequenceNumber, timerArmed, results := [], map[], garbage, 0, false, [];
      accepted, sent, positions, done, lost := [], [], map[], [], {};
    }

    method SendNetlinkMessage()
      requires Valid()
      modifies this
      ensures Valid() && Model() == Send(old(Model()))
      ensures results == old(results) && Extends(seqNoMap, old(seqNoMap))
    {
      var iovSize := if |msgQueue| < MAX_BATCH then |msgQueue| else MAX_BATCH;
      if iovSize == 0 { return; }
      FillBatch(iovSize);
      lastSeqNo := sequenceNumber;
      timerArmed := true;
    }

    /** The sending loop. */
    method FillBatch(iovSize: nat)
      requires Valid() && iovSize <= |msgQueue|
      modifies this
      ensures Valid() && Model() == SendMany(old(Model()), iovSize)
      ensures results == old(results) && Extends(seqNoMap, old(seqNoMap))
    {
      var count := 0;
      while count < iovSize
        invariant count <= iovSize && Valid()
        invariant Model() == SendMany(old(Model()), count)
        invariant results == old(results) && Extends(seqNoMap, old(seqNoMap))
      {
        Dequeue();
        count := count + 1;
      }
    }

    /** The body of the sending loop. Inserting under a number still in use leaves the map as it was. */
    method Dequeue()
      requires Valid() && msgQueue != []
      modifies this
      ensures Valid() && Model() == SendOne(old(Model()))
      ensures results == old(results) && Extends(seqNoMap, old(seqNoMap))
    {
      ghost var next := SendOne(Model());
      var m, number := msgQueue[0], Increment(sequenceNumber);
      NamesGrow(seqNoMap, positions, sent, number, m);
      RecordsGrow(results, done, sent, m);
      if number !in seqNoMap { seqNoMap := seqNoMap[number := m]; }
      msgQueue, sequenceNumber, positions, lost, sent := msgQueue[1..], number, next.inflight, next.lost, next.sent;
    }

    method AddNetlinkMessage(msgs: seq<Request>)
      requires Valid()
      modifies this
      ensures Valid() && Model() == Submit(old(Model()), msgs)
    {
      var queueSize := |msgQueue|;
      var i := 0;
      while i < |msgs|
        invariant i <= |msgs| && Valid() && queueSize == |msgQueue| && timerArmed == old(timerArmed)
        invariant Accept(Model(), msgs[i..]) == Accept(old(Model()), msgs)
        decreases |msgs| - i
      {
        assert msgs[i..][1..] == msgs[i + 1..];
        queueSize := queueSize + 1;
        if queueSize < MAX_QUEUE {
          msgQueue := msgQueue + [msgs[i]];
          accepted := accepted + [msgs[i]];
        } else {
          break;
        }
        i := i + 1;
      }
      assert Model() == Accept(old(Model()), msgs);
      if !timerArmed { SendNetlinkMessage(); }
    }

    method SetReturnStatusValue(seqNo: nat, status: int)
      requires Valid()
      modifies this
      ensures Valid() && Model() == Complete(old(Model()), seqNo, status)
      ensures results ==
              old(results) + if seqNo in old(seqNoMap) then [(old(seqNoMap)[seqNo], status)] else []
    {
      if seqNo in seqNoMap {
        results := results + [(seqNoMap[seqNo], status)];
        done := done + [(positions[seqNo], status)];
        seqNoMap := seqNoMap - {seqNo};
        positions := positions - {seqNo};
      }
    }

    method ProcessAck(ack: nat)
      requires Valid()
      modifies this
      ensures Valid() && Model() == Acked(old(Model()), ack)
      ensures results == old(results) && Extends(seqNoMap, old(seqNoMap))
    {
      if ack == lastSeqNo {
        timerArmed := false;
        SendNetlinkMessage();
      }
    }

    method OnErrorMessage(seqNo: nat, status: int)
      requires Valid()
      modifies this
      ensures Valid() && Model() == Next(old(Model()), ErrorAck(seqNo, status))
      ensures results ==
              old(results) + if seqNo in old(seqNoMap) then [(old(seqNoMap)[seqNo], status)] else []
    {
      SetReturnStatusValue(seqNo, status);
      ProcessAck(seqNo);
    }

    method OnDoneMessage(seqNo: nat)
      requires Valid()
      modifies this
      ensures Valid() && Model() == Next(old(Model()), MultipartDone(seqNo))
      ensures seqNo in old(seqNoMap) ==> results == old(results) + [(old(seqNoMap)[seqNo], 0)]
    {
      ProcessAck(seqNo);
      SetReturnStatusValue(seqNo, 0);
    }

    method OnTimer()
      requires Valid()
      modifies this
      ensures Valid() && Model() == Next(old(Model()), Timer)
    {
      timerArmed := false;
      SendNetlinkMessage();
    }
  }
}
