/**
 Event delivery in the tracker (apps/tracker/src/transport.ts): a memory buffer, the retry queue
 behind it, and posts whose answers arrive in any order.  The history logs record what became
 of every event that left the tracker.
 */
module Transports {
  import opened RetryQueues
  import opened Batches

  const BATCH_DELAY_MS := 1_000

  /** What the page gives the tracker to send with. */
  datatype Env = Env(hasFetch: bool, hasBeacon: bool)

  datatype Outcome = Status(code: nat) | NetworkError

  datatype State = State(
    buffer: Batch,
    flushScheduled: bool,
    timers: seq<int>,
    queue: seq<Queued>,
    inFlight: seq<Batch>,
    oldest: int,
    emitted: Batch,
    delivered: Batch,
    refused: Batch,
    evicted: Batch,
    expired: Batch)

  const START := State([], false, [], [], [], 0, [], [], [], [], [])

  function Dead(entries: seq<Queued>, now: int): seq<Queued> {
    if entries == [] then []
    else (if IsLive(entries[0], now) then [] else [entries[0]]) + Dead(entries[1..], now)
  }

  /** The entries a push drops because the queue is full. */
  function Overflow(entries: seq<Queued>): seq<Queued> {
    if |entries| <= RETRY_MAX_EVENTS then [] else entries[..|entries| - RETRY_MAX_EVENTS]
  }

  function Requeued(s: State, events: Batch, now: int): State {
    s.(queue := Push(s.queue, events, now),
       expired := s.expired + Events(Dead(s.queue, now)),
       evicted := s.evicted + Events(Overflow(Live(s.queue, now) + Stamp(events, now))))
  }

  function PostBatch(env: Env, s: State, batch: Batch, now: int): State {
    if !env.hasFetch then Requeued(s, batch, now) else s.(inFlight := s.inFlight + [batch])
  }

  /** `accepted` is what the browser answers when it is asked to take the batch as a beacon. */
  function BeaconBatch(env: Env, s: State, batch: Batch, now: int, accepted: bool): State {
    if !env.hasBeacon then PostBatch(env, s, batch, now)
    else if accepted then s.(delivered := s.delivered + batch)
    else Requeued(s, batch, now)
  }

  function SendBatch(env: Env, s: State, batch: Batch, now: int, beacon: bool, accepted: bool): State {
    if beacon then BeaconBatch(env, s, batch, now, accepted) else PostBatch(env, s, batch, now)
  }

  /** The flush loop; `i` counts the batches already handed over. */
  function SendBatches(
    env: Env, s: State, batches: seq<Batch>, i: nat, now: int, beacon: bool, accepts: nat -> bool): State
    decreases |batches|
  {
    if batches == [] then s
    else SendBatches(env, SendBatch(env, s, batches[0], now, beacon, accepts(i)), batches[1..], i + 1, now, beacon, accepts)
  }

  /** Queue first, then the buffer. */
  function Drained(s: State, now: int): State {
    s.(flushScheduled := false, buffer := [], queue := [],
       expired := s.expired + Events(Dead(s.queue, now)))
  }

  function Flush(env: Env, s: State, now: int, beacon: bool, accepts: nat -> bool, size: Batch -> nat): State {
    var pending := Events(Live(s.queue, now)) + s.buffer;
    if pending == [] then Drained(s, now)
    else SendBatches(env, Drained(s, now), Chunk(pending, size), 0, now, beacon, accepts)
  }

  function Never(): nat -> bool { n => false }

  function Enqueue(env: Env, s: State, e: TrackerEvent, immediate: bool, now: int, size: Batch -> nat): State {
    var s' := s.(buffer := s.buffer + [e], emitted := s.emitted + [e],
                 oldest := if s.buffer == [] then now else s.oldest);
    if immediate then Flush(env, s', now, false, Never(), size)
    else if !s.flushScheduled then s'.(flushScheduled := true, timers := s.timers + [now + BATCH_DELAY_MS])
    else s'
  }

  predicate Retryable(o: Outcome) { o.NetworkError? || o.code == 429 || o.code >= 500 }

  predicate Success(o: Outcome) { o.Status? && 200 <= o.code < 300 }

  function Without<T>(xs: seq<T>, k: nat): seq<T>
    requires k < |xs|
  {
    xs[..k] + xs[k+1..]
  }

  /** The answer to the `k`-th post in flight. */
  function Respond(s: State, k: nat, o: Outcome, now: int): State
    requires k < |s.inFlight|
  {
    var batch := s.inFlight[k];
    var s' := s.(inFlight := Without(s.inFlight, k));
    if Success(o) then s'.(delivered := s.delivered + batch)
    else if Retryable(o) then Requeued(s', batch, now)
    else s'.(refused := s.refused + batch)
  }

  datatype Event =
    | Emit(e: TrackerEvent, immediate: bool)
    | FlushCall(beacon: bool, accepts: nat -> bool)
    | TimerFires(timer: nat)
    | Answer(post: nat, outcome: Outcome)

  predicate Enabled(s: State, now: int, ev: Event) {
    match ev
    case TimerFires(k) => k < |s.timers| && s.timers[k] <= now
    case Answer(k, _) => k < |s.inFlight|
    case _ => true
  }

  function Step(env: Env, size: Batch -> nat, s: State, now: int, ev: Event): State
    requires Enabled(s, now, ev)
  {
    match ev
    case Emit(e, immediate) => Enqueue(env, s, e, immediate, now, size)
    case FlushCall(beacon, accepts) => Flush(env, s, now, beacon, accepts, size)
    case TimerFires(k) => Flush(env, s.(timers := Without(s.timers, k)), now, false, Never(), size)
    case Answer(k, o) => Respond(s, k, o, now)
  }

  datatype Timed = Timed(at: int, event: Event)

  /** The state after a run, in any interleaving; callbacks that cannot happen are skipped. */
  function After(env: Env, size: Batch -> nat, run: seq<Timed>): State {
    if run == [] then START
    else
      var s, last := After(env, size, run[..|run|-1]), run[|run|-1];
      if Enabled(s, last.at, last.event) then Step(env, size, s, last.at, last.event) else s
  }

  // ----- conservation -----

  function Count(xs: Batch, e: TrackerEvent): nat {
    if xs == [] then 0 else Count(xs[..|xs|-1], e) + (if xs[|xs|-1] == e then 1 else 0)
  }

  function Flying(batches: seq<Batch>, e: TrackerEvent): nat {
    if batches == [] then 0 else Flying(batches[..|batches|-1], e) + Count(batches[|batches|-1], e)
  }

  /** How often `e` occurs anywhere it can be. */
  function Places(s: State, e: TrackerEvent): nat {
    Count(s.buffer, e) + Count(Events(s.queue), e) + Flying(s.inFlight, e)
    + Count(s.delivered, e) + Count(s.refused, e) + Count(s.evicted, e) + Count(s.expired, e)
  }

  lemma {:induction false} CountAppend(a: Batch, b: Batch, e: TrackerEvent)
    ensures Count(a + b, e) == Count(a, e) + Count(b, e)
    decreases |b|
  {
    if b == [] {
      assert a + b == a;
    } else {
      assert (a + b)[..|a + b|-1] == a + b[..|b|-1];
      CountAppend(a, b[..|b|-1], e);
    }
  }

  lemma {:induction false} EventsAppend(a: seq<Queued>, b: seq<Queued>)
    ensures Events(a + b) == Events(a) + Events(b)
  {
    if a == [] {
      assert a + b == b;
    } else {
      assert (a + b)[1..] == a[1..] + b;
      EventsAppend(a[1..], b);
    }
  }

  lemma {:induction false} LiveAndDead(entries: seq<Queued>, now: int, e: TrackerEvent)
    ensures Count(Events(entries), e) == Count(Events(Live(entries, now)), e) + Count(Events(Dead(entries, now)), e)
  {
    if entries != [] {
      var head, rest := [entries[0]], entries[1..];
      LiveAndDead(rest, now, e);
      assert entries == head + rest;
      EventsAppend(head, rest);
      CountAppend(Events(head), Events(rest), e);
      assert [] + Dead(rest, now) == Dead(rest, now) && [] + Live(rest, now) == Live(rest, now);
      if IsLive(entries[0], now) {
        EventsAppend(head, Live(rest, now));
        CountAppend(Events(head), Events(Live(rest, now)), e);
      } else {
        EventsAppend(head, Dead(rest, now));
        CountAppend(Events(head), Events(Dead(rest, now)), e);
      }
    }
  }

  lemma {:induction false} StampEvents(events: Batch, now: int)
    ensures Events(Stamp(events, now)) == events
  {
    if events != [] {
      StampEvents(events[1..], now);
      assert Stamp(events, now)[1..] == Stamp(events[1..], now);
    }
  }

  lemma CapSplits(all: seq<Queued>, e: TrackerEvent)
    ensures Count(Events(all), e) == Count(Events(Overflow(all)), e) + Count(Events(Capped(all)), e)
  {
    assert all == Overflow(all) + Capped(all);
    EventsAppend(Overflow(all), Capped(all));
    CountAppend(Events(Overflow(all)), Events(Capped(all)), e);
  }

  /** A requeue moves its events into the queue; what the queue loses shows up as expired or evicted. */
  lemma RequeueBalances(s: State, events: Batch, now: int, e: TrackerEvent)
    ensures Places(Requeued(s, events, now), e) == Places(s, e) + Count(events, e)
  {
    var live, stamped := Live(s.queue, now), Stamp(events, now);
    LiveAndDead(s.queue, now, e);
    EventsAppend(live, stamped);
    StampEvents(events, now);
    CountAppend(Events(live), events, e);
    CapSplits(live + stamped, e);
    CountAppend(s.expired, Events(Dead(s.queue, now)), e);
    CountAppend(s.evicted, Events(Overflow(live + stamped)), e);
  }

  lemma FlyingSnoc(batches: seq<Batch>, batch: Batch, e: TrackerEvent)
    ensures Flying(batches + [batch], e) == Flying(batches, e) + Count(batch, e)
  {
    assert (batches + [batch])[..|batches|] == batches;
  }

  lemma SendOneBalances(env: Env, s: State, batch: Batch, now: int, beacon: bool, accepted: bool, e: TrackerEvent)
    ensures Places(SendBatch(env, s, batch, now, beacon, accepted), e) == Places(s, e) + Count(batch, e)
  {
    if beacon && env.hasBeacon {
      if accepted { CountAppend(s.delivered, batch, e); } else { RequeueBalances(s, batch, now, e); }
    } else {
      PostBalances(env, s, batch, now, e);
    }
  }

  lemma PostBalances(env: Env, s: State, batch: Batch, now: int, e: TrackerEvent)
    ensures Places(PostBatch(env, s, batch, now), e) == Places(s, e) + Count(batch, e)
  {
    if env.hasFetch { FlyingSnoc(s.inFlight, batch, e); } else { RequeueBalances(s, batch, now, e); }
  }

  /** What sending and requeuing never touch. */
  predicate SameFront(s: State, s': State) {
    && s'.buffer == s.buffer && s'.flushScheduled == s.flushScheduled && s'.timers == s.timers
    && s'.oldest == s.oldest && s'.emitted == s.emitted
  }

  lemma {:induction false} SendKeepsFront(
    env: Env, s: State, batches: seq<Batch>, i: nat, now: int, beacon: bool, accepts: nat -> bool)
    ensures SameFront(s, SendBatches(env, s, batches, i, now, beacon, accepts))
    decreases |batches|
  {
    if batches != [] {
      SendKeepsFront(env, SendBatch(env, s, batches[0], now, beacon, accepts(i)), batches[1..], i + 1, now, beacon, accepts);
    }
  }

  lemma {:induction false} SendBalances(
    env: Env, s: State, batches: seq<Batch>, i: nat, now: int, beacon: bool, accepts: nat -> bool, e: TrackerEvent)
    ensures Places(SendBatches(env, s, batches, i, now, beacon, accepts), e) == Places(s, e) + Count(Joined(batches), e)
    decreases |batches|
  {
    if batches != [] {
      var s1 := SendBatch(env, s, batches[0], now, beacon, accepts(i));
      SendOneBalances(env, s, batches[0], now, beacon, accepts(i), e);
      SendBalances(env, s1, batches[1..], i + 1, now, beacon, accepts, e);
      CountAppend(batches[0], Joined(batches[1..]), e);
    }
  }

  lemma DrainBalances(s: State, now: int, e: TrackerEvent)
    ensures Places(Drained(s, now), e) + Count(Events(Live(s.queue, now)) + s.buffer, e) == Places(s, e)
  {
    LiveAndDead(s.queue, now, e);
    CountAppend(Events(Live(s.queue, now)), s.buffer, e);
    CountAppend(s.expired, Events(Dead(s.queue, now)), e);
  }

  lemma FlushBalances(
    env: Env, s: State, now: int, beacon: bool, accepts: nat -> bool, size: Batch -> nat, e: TrackerEvent)
    ensures Places(Flush(env, s, now, beacon, accepts, size), e) == Places(s, e)
  {
    var pending := Events(Live(s.queue, now)) + s.buffer;
    DrainBalances(s, now, e);
    if pending != [] {
      ChunkSplits(pending, size);
      SendBalances(env, Drained(s, now), Chunk(pending, size), 0, now, beacon, accepts, e);
    }
  }

  lemma FlushEmpties(env: Env, s: State, now: int, beacon: bool, accepts: nat -> bool, size: Batch -> nat)
    ensures SameFront(Drained(s, now), Flush(env, s, now, beacon, accepts, size))
  {
    var pending := Events(Live(s.queue, now)) + s.buffer;
    if pending != [] {
      SendKeepsFront(env, Drained(s, now), Chunk(pending, size), 0, now, beacon, accepts);
    }
  }

  lemma {:induction false} FlyingWithout(batches: seq<Batch>, k: nat, e: TrackerEvent)
    requires k < |batches|
    ensures Flying(batches, e) == Flying(Without(batches, k), e) + Count(batches[k], e)
    decreases |batches|
  {
    var rest, last := batches[..|batches|-1], batches[|batches|-1];
    if k == |rest| {
      assert Without(batches, k) == rest;
    } else {
      FlyingWithout(rest, k, e);
      assert rest[..k] == batches[..k] && rest[k+1..] + [last] == batches[k+1..];
      assert Without(batches, k) == Without(rest, k) + [last];
      FlyingSnoc(Without(rest, k), last, e);
    }
  }

  lemma RespondBalances(s: State, k: nat, o: Outcome, now: int, e: TrackerEvent)
    requires k < |s.inFlight|
    ensures Places(Respond(s, k, o, now), e) == Places(s, e)
  {
    var s1 := s.(inFlight := Without(s.inFlight, k));
    TakeOffBalances(s, k, e);
    if Retryable(o) {
      RequeueBalances(s1, s.inFlight[k], now, e);
    } else {
      SettleBalances(s1, s.inFlight[k], e);
    }
  }

  lemma TakeOffBalances(s: State, k: nat, e: TrackerEvent)
    requires k < |s.inFlight|
    ensures Places(s.(inFlight := Without(s.inFlight, k)), e) + Count(s.inFlight[k], e) == Places(s, e)
  {
    FlyingWithout(s.inFlight, k, e);
  }

  lemma SettleBalances(s: State, batch: Batch, e: TrackerEvent)
    ensures Places(s.(delivered := s.delivered + batch), e) == Places(s, e) + Count(batch, e)
    ensures Places(s.(refused := s.refused + batch), e) == Places(s, e) + Count(batch, e)
  {
    CountAppend(s.delivered, batch, e);
    CountAppend(s.refused, batch, e);
  }

  // ----- every run -----

  /** A buffered event always has a timer that will flush it within the batch delay. */
  ghost predicate WillFlush(s: State) {
    && (s.flushScheduled <==> s.buffer != [])
    && (s.buffer != [] ==> exists k :: 0 <= k < |s.timers| && s.timers[k] <= s.oldest + BATCH_DELAY_MS)
  }

  function Buffered(s: State, e: TrackerEvent, now: int): State {
    s.(buffer := s.buffer + [e], emitted := s.emitted + [e], oldest := if s.buffer == [] then now else s.oldest)
  }

  lemma EnqueueBalances(env: Env, s: State, ev: TrackerEvent, immediate: bool, now: int, size: Batch -> nat, e: TrackerEvent)
    ensures
      var s' := Enqueue(env, s, ev, immediate, now, size);
      Places(s', e) - Count(s'.emitted, e) == Places(s, e) - Count(s.emitted, e)
  {
    var s1 := Buffered(s, ev, now);
    CountAppend(s.buffer, [ev], e);
    CountAppend(s.emitted, [ev], e);
    assert Places(s1, e) == Places(s, e) + Count([ev], e);
    if immediate {
      FlushBalances(env, s1, now, false, Never(), size, e);
      FlushEmpties(env, s1, now, false, Never(), size);
    }
  }

  lemma StepBalances(env: Env, size: Batch -> nat, s: State, now: int, ev: Event, e: TrackerEvent)
    requires Enabled(s, now, ev)
    ensures
      var s' := Step(env, size, s, now, ev);
      Places(s', e) - Count(s'.emitted, e) == Places(s, e) - Count(s.emitted, e)
  {
    match ev
    case Emit(x, immediate) => EnqueueBalances(env, s, x, immediate, now, size, e);
    case FlushCall(beacon, accepts) =>
      FlushBalances(env, s, now, beacon, accepts, size, e);
      FlushEmpties(env, s, now, beacon, accepts, size);
    case TimerFires(k) =>
      FlushBalances(env, s.(timers := Without(s.timers, k)), now, false, Never(), size, e);
      FlushEmpties(env, s.(timers := Without(s.timers, k)), now, false, Never(), size);
    case Answer(k, o) => RespondBalances(s, k, o, now, e);
  }

  lemma StepWillFlush(env: Env, size: Batch -> nat, s: State, now: int, ev: Event)
    requires WillFlush(s) && Enabled(s, now, ev)
    ensures WillFlush(Step(env, size, s, now, ev))
  {
    match ev
    case Emit(x, immediate) =>
      var s' := Enqueue(env, s, x, immediate, now, size);
      if immediate {
        FlushEmpties(env, Buffered(s, x, now), now, false, Never(), size);
      } else if !s.flushScheduled {
        assert s'.timers[|s.timers|] <= s'.oldest + BATCH_DELAY_MS;
      }
    case FlushCall(beacon, accepts) => FlushEmpties(env, s, now, beacon, accepts, size);
    case TimerFires(k) => FlushEmpties(env, s.(timers := Without(s.timers, k)), now, false, Never(), size);
    case Answer(k, o) =>
  }

  /**
   Conservation, over any interleaving of emits, flushes, beacons, timers and answers: each emitted event
   is in exactly one place (as often as it was emitted), and it leaves the tracker only by being taken,
   refused for good, evicted by the cap or expired.
   */
  lemma {:induction false} EveryEventInOnePlace(env: Env, size: Batch -> nat, run: seq<Timed>, e: TrackerEvent)
    ensures Places(After(env, size, run), e) == Count(After(env, size, run).emitted, e)
    decreases |run|
  {
    if run != [] {
      var s, last := After(env, size, run[..|run|-1]), run[|run|-1];
      EveryEventInOnePlace(env, size, run[..|run|-1], e);
      if Enabled(s, last.at, last.event) { StepBalances(env, size, s, last.at, last.event, e); }
    }
  }

  /** A non-empty buffer has a flush scheduled within the batch delay of its oldest event. */
  lemma {:induction false} BufferWillFlush(env: Env, size: Batch -> nat, run: seq<Timed>)
    ensures WillFlush(After(env, size, run))
    decreases |run|
  {
    if run != [] {
      var s, last := After(env, size, run[..|run|-1]), run[|run|-1];
      BufferWillFlush(env, size, run[..|run|-1]);
      if Enabled(s, last.at, last.event) { StepWillFlush(env, size, s, last.at, last.event); }
    }
  }

  // ----- where events go -----

  /** The last of the events, as many as the queue holds. */
  function Newest(events: Batch): Batch { if |events| <= 200 then events else events[|events| - 200..] }

  /** The queue ends in the newest of `events`, stamped `now`. */
  ghost predicate EndsIn(queue: seq<Queued>, events: Batch, now: int) {
    && |Newest(events)| <= |queue|
    && forall i :: 0 <= i < |Newest(events)| ==>
         queue[|queue| - |Newest(events)| + i] == Queued(now, Newest(events)[i])
  }

  /** The events of the batches that the browser takes as beacons, or of those that it does not. */
  function Chosen(batches: seq<Batch>, i: nat, accepts: nat -> bool, taken: bool): Batch {
    if batches == [] then []
    else (if accepts(i) == taken then batches[0] else []) + Chosen(batches[1..], i + 1, accepts, taken)
  }

  function Stored(events: Batch, now: int): seq<Queued> { Stamp(Newest(events), now) }

  lemma NewestTwice(a: Batch, b: Batch)
    ensures Newest(Newest(a) + b) == Newest(a + b)
  {
  }

  lemma StampAppend(a: Batch, b: Batch, now: int)
    ensures Stamp(a, now) + Stamp(b, now) == Stamp(a + b, now)
  {
    StampIs(a, now);
    StampIs(b, now);
    StampIs(a + b, now);
  }

  lemma StampNewest(a: Batch, now: int)
    ensures Capped(Stamp(a, now)) == Stored(a, now)
  {
    StampIs(a, now);
    StampIs(Newest(a), now);
  }

  lemma CappedEnds(live: seq<Queued>, added: seq<Queued>)
    ensures
      var all, last := Capped(live + added), Capped(added);
      |last| <= |all| && all[|all| - |last|..] == last
  {
  }

  lemma EndsWith(queue: seq<Queued>, last: seq<Queued>, i: nat)
    requires |last| <= |queue| && queue[|queue| - |last|..] == last && i < |last|
    ensures queue[|queue| - |last| + i] == last[i]
  {
  }

  lemma EndsInStored(queue: seq<Queued>, last: seq<Queued>, events: Batch, now: int)
    requires last == Stored(events, now) && |last| <= |queue| && queue[|queue| - |last|..] == last
    ensures EndsIn(queue, events, now)
  {
    var newest := Newest(events);
    StampIs(newest, now);
    forall i | 0 <= i < |newest| ensures queue[|queue| - |newest| + i] == Queued(now, newest[i]) {
      EndsWith(queue, last, i);
    }
  }

  lemma PushEndsIn(queue: seq<Queued>, events: Batch, now: int)
    ensures EndsIn(Push(queue, events, now), events, now)
  {
    CappedEnds(Live(queue, now), Stamp(events, now));
    StampNewest(events, now);
    EndsInStored(Push(queue, events, now), Stored(events, now), events, now);
  }

  /** Pushes of one instant add up. */
  lemma PushOnStored(a: Batch, b: Batch, now: int)
    ensures Push(Stored(a, now), b, now) == Stored(a + b, now)
  {
    StampIs(Newest(a), now);
    AllLive(Stored(a, now), now);
    StampAppend(Newest(a), b, now);
    StampNewest(Newest(a) + b, now);
    NewestTwice(a, b);
  }

  lemma Nothing(a: Batch)
    ensures a + [] == a
  {
  }

  lemma ThreeJoined<T>(a: seq<T>, b: seq<T>, c: seq<T>)
    ensures a + b + c == a + (b + c)
  {
  }

  lemma FirstBatch(batches: seq<Batch>)
    requires batches != []
    ensures [batches[0]] + batches[1..] == batches
  {
  }

  /** Batches that are posted are all in flight, in order, or with no way to post all stored. */
  lemma {:induction false} PostsGo(
    env: Env, s: State, batches: seq<Batch>, i: nat, now: int, beacon: bool, accepts: nat -> bool, stored: Batch)
    requires !(beacon && env.hasBeacon) && s.queue == Stored(stored, now)
    ensures
      var s' := SendBatches(env, s, batches, i, now, beacon, accepts);
      && s'.delivered == s.delivered && s'.refused == s.refused
      && s'.inFlight == (if env.hasFetch then s.inFlight + batches else s.inFlight)
      && s'.queue == Stored(if env.hasFetch then stored else stored + Joined(batches), now)
    decreases |batches|
  {
    if batches == [] {
      Nothing(stored);
    } else if env.hasFetch {
      var s1 := s.(inFlight := s.inFlight + [batches[0]]);
      PostsGo(env, s1, batches[1..], i + 1, now, beacon, accepts, stored);
      ThreeJoined(s.inFlight, [batches[0]], batches[1..]);
      FirstBatch(batches);
    } else {
      PushOnStored(stored, batches[0], now);
      PostsGo(env, Requeued(s, batches[0], now), batches[1..], i + 1, now, beacon, accepts, stored + batches[0]);
      ThreeJoined(stored, batches[0], Joined(batches[1..]));
    }
  }

  /** Beacons are taken or stored, each as the browser answers. */
  lemma {:induction false} BeaconsGo(
    env: Env, s: State, batches: seq<Batch>, i: nat, now: int, accepts: nat -> bool, stored: Batch)
    requires env.hasBeacon && s.queue == Stored(stored, now)
    ensures
      var s' := SendBatches(env, s, batches, i, now, true, accepts);
      && s'.delivered == s.delivered + Chosen(batches, i, accepts, true)
      && s'.refused == s.refused && s'.inFlight == s.inFlight
      && s'.queue == Stored(stored + Chosen(batches, i, accepts, false), now)
    decreases |batches|
  {
    if batches == [] {
      Nothing(s.delivered);
      Nothing(stored);
    } else if accepts(i) {
      BeaconsGo(env, s.(delivered := s.delivered + batches[0]), batches[1..], i + 1, now, accepts, stored);
      ThreeJoined(s.delivered, batches[0], Chosen(batches[1..], i + 1, accepts, true));
      NothingBefore(Chosen(batches[1..], i + 1, accepts, false));
    } else {
      PushOnStored(stored, batches[0], now);
      BeaconsGo(env, Requeued(s, batches[0], now), batches[1..], i + 1, now, accepts, stored + batches[0]);
      ThreeJoined(stored, batches[0], Chosen(batches[1..], i + 1, accepts, false));
      NothingBefore(Chosen(batches[1..], i + 1, accepts, true));
    }
  }

  /** Everything unsent left the buffer and the queue for one of four places. */
  ghost predicate Sent(
    env: Env, s: State, s': State, pending: Batch, now: int, beacon: bool, accepts: nat -> bool, batches: seq<Batch>)
  {
    && Joined(batches) == pending && s'.buffer == [] && s'.refused == s.refused
    && if beacon && env.hasBeacon then
         && s'.inFlight == s.inFlight && s'.delivered == s.delivered + Chosen(batches, 0, accepts, true)
         && s'.queue == Stored(Chosen(batches, 0, accepts, false), now)
       else if env.hasFetch then
         s'.inFlight == s.inFlight + batches && s'.delivered == s.delivered && s'.queue == []
       else
         s'.inFlight == s.inFlight && s'.delivered == s.delivered && s'.queue == Stored(pending, now)
  }

  lemma FlushGoes(env: Env, s: State, now: int, beacon: bool, accepts: nat -> bool, size: Batch -> nat)
    returns (batches: seq<Batch>)
    ensures
      var s', pending := Flush(env, s, now, beacon, accepts, size), Events(Live(s.queue, now)) + s.buffer;
      Sent(env, s, s', pending, now, beacon, accepts, batches)
    ensures forall b :: b in batches ==> Fits(b, size)
  {
    var pending := Events(Live(s.queue, now)) + s.buffer;
    var d := Drained(s, now);
    batches := if pending == [] then [] else Chunk(pending, size);
    FlushEmpties(env, s, now, beacon, accepts, size);
    if pending != [] { ChunkSplits(pending, size); }
    if beacon && env.hasBeacon {
      BeaconsGo(env, d, batches, 0, now, accepts, []);
      NothingBefore(Chosen(batches, 0, accepts, false));
    } else {
      PostsGo(env, d, batches, 0, now, beacon, accepts, []);
      NothingBefore(Joined(batches));
    }
  }

  /** A flush: the timer's, a caller's, or that of an event that may not wait. */
  predicate Flushes(ev: Event) { ev.FlushCall? || ev.TimerFires? || (ev.Emit? && ev.immediate) }

  function WithEvent(buffer: Batch, ev: Event): Batch { if ev.Emit? then buffer + [ev.e] else buffer }

  function ByBeacon(ev: Event): bool { ev.FlushCall? && ev.beacon }

  function Answers(ev: Event): nat -> bool { if ev.FlushCall? then ev.accepts else Never() }

  /**
   Where events go, in every run.  A flush empties the buffer and the queue: what was queued and alive comes
   first, then what was buffered, cut into batches that fit, and each batch is posted, taken as a beacon or stored
   again.  An answer of 2xx delivers its batch; 429, 5xx and no answer put it last in the queue, its newest 200
   events at least; any other refuses it for good.  An event that may wait is buffered, behind one timer.
   */
  lemma {:induction false} EventsGo(env: Env, size: Batch -> nat, run: seq<Timed>) returns (batches: seq<Batch>)
    requires run != []
    ensures
      var s, now, ev := After(env, size, run[..|run|-1]), run[|run|-1].at, run[|run|-1].event;
      var s' := After(env, size, run);
      && (forall b :: b in batches ==> Fits(b, size))
      && (Enabled(s, now, ev) && Flushes(ev) ==>
            var pending := Events(Live(s.queue, now)) + WithEvent(s.buffer, ev);
            Sent(env, s, s', pending, now, ByBeacon(ev), Answers(ev), batches))
      && (ev.Answer? && ev.post < |s.inFlight| ==>
            var batch, o := s.inFlight[ev.post], ev.outcome;
            && s'.inFlight == s.inFlight[..ev.post] + s.inFlight[ev.post+1..] && s'.buffer == s.buffer
            && if o.Status? && 200 <= o.code <= 299 then
                 s'.delivered == s.delivered + batch && s'.refused == s.refused && s'.queue == s.queue
               else if o.NetworkError? || o.code == 429 || o.code >= 500 then
                 s'.delivered == s.delivered && s'.refused == s.refused && EndsIn(s'.queue, batch, now)
               else
                 s'.delivered == s.delivered && s'.refused == s.refused + batch && s'.queue == s.queue)
      && (ev.Emit? && !ev.immediate ==>
            && s'.buffer == s.buffer + [ev.e] && s'.queue == s.queue && s'.inFlight == s.inFlight
            && s'.delivered == s.delivered && s'.refused == s.refused
            && s'.timers == if s.buffer == [] then s.timers + [now + 1_000] else s.timers)
  {
    var s, now, ev := After(env, size, run[..|run|-1]), run[|run|-1].at, run[|run|-1].event;
    BufferWillFlush(env, size, run[..|run|-1]);
    batches := [];
    match ev
    case Emit(e, immediate) =>
      if immediate { batches := FlushGoes(env, Buffered(s, e, now), now, false, Never(), size); }
    case FlushCall(beacon, accepts) => batches := FlushGoes(env, s, now, beacon, accepts, size);
    case TimerFires(k) =>
      if k < |s.timers| { batches := FlushGoes(env, s.(timers := Without(s.timers, k)), now, false, Never(), size); }
    case Answer(k, o) => if k < |s.inFlight| { PushEndsIn(s.queue, s.inFlight[k], now); }
  }

  // ----- the source's object -----

  /** The transport and the retry queue it drains and refills. */
  class Transport {
    const env: Env
    const queue: RetryQueue
    var buffer: Batch
    var flushScheduled: bool
    var timers: seq<int>
    var inFlight: seq<Batch>
    ghost var oldest: int
    ghost var emitted: Batch
    ghost var delivered: Batch
    ghost var refused: Batch
    ghost var evicted: Batch
    ghost var expired: Batch

    ghost function View(): State
      reads this, queue
    {
      State(buffer, flushScheduled, timers, queue.entries, inFlight, oldest,
            emitted, delivered, refused, evicted, expired)
    }

    ghost predicate Valid()
      reads queue
    {
      queue.Valid()
    }

    constructor (env: Env)
      ensures Valid() && View() == START && this.env == env
      ensures fresh(queue)
    {
      this.env := env;
      queue := new RetryQueue();
      buffer, flushScheduled, timers, inFlight := [], false, [], [];
      oldest, emitted, delivered, refused, evicted, expired := 0, [], [], [], [], [];
    }

    method Requeue(events: Batch, now: int)
      requires Valid()
      modifies this, queue
      ensures Valid() && View() == Requeued(old(View()), events, now)
    {
      expired := expired + Events(Dead(queue.entries, now));
      evicted := evicted + Events(Overflow(Live(queue.entries, now) + Stamp(events, now)));
      queue.PushAll(events, now);
    }

    method Post(batch: Batch, now: int)
      requires Valid()
      modifies this, queue
      ensures Valid() && View() == PostBatch(env, old(View()), batch, now)
    {
      if !env.hasFetch {
        Requeue(batch, now);
        return;
      }
      inFlight := inFlight + [batch];
    }

    method SendBeacon(batch: Batch, now: int, accepted: bool)
      requires Valid()
      modifies this, queue
      ensures Valid() && View() == BeaconBatch(env, old(View()), batch, now, accepted)
    {
      if !env.hasBeacon {
        Post(batch, now);
        return;
      }
      if accepted {
        delivered := delivered + batch;
      } else {
        Requeue(batch, now);
      }
    }

    method FlushNow(now: int, beacon: bool, accepts: nat -> bool, size: Batch -> nat)
      requires Valid()
      modifies this, queue
      ensures Valid() && View() == Flush(env, old(View()), now, beacon, accepts, size)
    {
      flushScheduled := false;
      expired := expired + Events(Dead(queue.entries, now));
      var taken := queue.Take(now);
      var pending := taken + buffer;
      buffer := [];
      if pending == [] { return; }
      var batches := ChunkEvents(pending, size);
      SendEach(batches, now, beacon, accepts);
    }

    method SendEach(batches: seq<Batch>, now: int, beacon: bool, accepts: nat -> bool)
      requires Valid()
      modifies this, queue
      ensures Valid() && View() == SendBatches(env, old(View()), batches, 0, now, beacon, accepts)
    {
      for i := 0 to |batches|
        invariant Valid()
        invariant SendBatches(env, View(), batches[i..], i, now, beacon, accepts)
               == SendBatches(env, old(View()), batches, 0, now, beacon, accepts)
      {
        assert batches[i..][1..] == batches[i+1..];
        if beacon {
          SendBeacon(batches[i], now, accepts(i));
        } else {
          Post(batches[i], now);
        }
      }
    }

    method EnqueueEvent(e: TrackerEvent, immediate: bool, now: int, size: Batch -> nat)
      requires Valid()
      modifies this, queue
      ensures Valid() && View() == Enqueue(env, old(View()), e, immediate, now, size)
    {
      if buffer == [] { oldest := now; }
      emitted := emitted + [e];
      buffer := buffer + [e];
      if immediate {
        FlushNow(now, false, Never(), size);
        return;
      }
      if !flushScheduled {
        flushScheduled := true;
        timers := timers + [now + BATCH_DELAY_MS];
      }
    }

    /** The answer to the `k`-th post in flight, or its failure. */
    method OnAnswer(k: nat, outcome: Outcome, now: int)
      requires Valid() && k < |inFlight|
      modifies this, queue
      ensures Valid() && View() == Respond(old(View()), k, outcome, now)
    {
      var batch := inFlight[k];
      inFlight := Without(inFlight, k);
      match outcome
      case NetworkError => Requeue(batch, now);
      case Status(code) =>
        if 200 <= code < 300 {
          delivered := delivered + batch;
          return;
        }
        if code == 429 || code >= 500 {
          Requeue(batch, now);
          return;
        }
        refused := refused + batch;
    }
  }
}
