/**
 The tracker's bounded, expiring retry queue (apps/tracker/src/storage.ts).  The stored JSON
 array is modelled by the sequence it encodes; storage writes are taken to succeed.
 */
module RetryQueues {

  const RETRY_TTL_MS := 86_400_000
  const RETRY_MAX_EVENTS := 200

  datatype TrackerEvent = TrackerEvent(id: nat)

  /** `q` is the time of the push that stored the entry. */
  datatype Queued = Queued(q: int, e: TrackerEvent)

  predicate IsLive(entry: Queued, now: int) { now - entry.q < RETRY_TTL_MS }

  function Live(entries: seq<Queued>, now: int): seq<Queued> {
    if entries == [] then []
    else (if IsLive(entries[0], now) then [entries[0]] else []) + Live(entries[1..], now)
  }

  function Stamp(events: seq<TrackerEvent>, now: int): seq<Queued> {
    if events == [] then [] else [Queued(now, events[0])] + Stamp(events[1..], now)
  }

  function Events(entries: seq<Queued>): seq<TrackerEvent> {
    if entries == [] then [] else [entries[0].e] + Events(entries[1..])
  }

  function Capped(entries: seq<Queued>): seq<Queued> {
    if |entries| <= RETRY_MAX_EVENTS then entries else entries[|entries| - RETRY_MAX_EVENTS..]
  }

  function Push(entries: seq<Queued>, events: seq<TrackerEvent>, now: int): seq<Queued> {
    Capped(Live(entries, now) + Stamp(events, now))
  }

  // ----- the queue is a suffix of what was pushed -----

  datatype PushCall = PushCall(events: seq<TrackerEvent>, at: int)

  /** Everything pushed since the last take, stamped, in order. */
  function History(calls: seq<PushCall>): seq<Queued> {
    if calls == [] then []
    else History(calls[..|calls|-1]) + Stamp(calls[|calls|-1].events, calls[|calls|-1].at)
  }

  function QueueAfter(calls: seq<PushCall>): seq<Queued> {
    if calls == [] then []
    else Push(QueueAfter(calls[..|calls|-1]), calls[|calls|-1].events, calls[|calls|-1].at)
  }

  ghost predicate ClockForward(calls: seq<PushCall>, now: int) {
    && (forall i, j :: 0 <= i < j < |calls| ==> calls[i].at <= calls[j].at)
    && (forall i :: 0 <= i < |calls| ==> calls[i].at <= now)
  }

  /** A suffix the queue may hold at `now`: within the cap, every entry pushed less than the TTL ago. */
  ghost predicate Admissible(h: seq<Queued>, start: nat, now: int)
    requires start <= |h|
  {
    && |h| - start <= RETRY_MAX_EVENTS
    && forall i :: start <= i < |h| ==> IsLive(h[i], now)
  }

  ghost predicate InOrder(h: seq<Queued>) {
    forall i, j :: 0 <= i < j < |h| ==> h[i].q <= h[j].q
  }

  function Stale(h: seq<Queued>, now: int): (n: nat)
    ensures n <= |h|
    ensures forall i :: 0 <= i < n ==> !IsLive(h[i], now)
    ensures n < |h| ==> IsLive(h[n], now)
  {
    if h == [] || IsLive(h[0], now) then 0 else
      var n := 1 + Stale(h[1..], now);
      assert forall i :: 1 <= i < n ==> h[i] == h[1..][i-1];
      n
  }

  function Start(h: seq<Queued>, now: int): (n: nat)
    ensures n <= |h|
  {
    var over := |h| - RETRY_MAX_EVENTS;
    if over > Stale(h, now) then over else Stale(h, now)
  }

  lemma FirstApart<T>(h: seq<T>, k: nat)
    requires h != [] && k < |h|
    ensures [h[0]] + h[1..] == h && h[1..][k..] == h[k+1..] && h[0..] == h
  {
  }

  lemma NothingBefore<T>(h: seq<T>)
    ensures [] + h == h
  {
  }

  lemma {:induction false} AllLive(h: seq<Queued>, now: int)
    requires forall i :: 0 <= i < |h| ==> IsLive(h[i], now)
    ensures Live(h, now) == h
  {
    if h != [] {
      AllLive(h[1..], now);
      FirstApart(h, 0);
    }
  }

  /** The filter drops exactly the stale prefix of an ordered history. */
  lemma {:induction false} LiveIsSuffix(h: seq<Queued>, now: int)
    requires InOrder(h)
    ensures Live(h, now) == h[Stale(h, now)..]
  {
    if h == [] {
    } else if IsLive(h[0], now) {
      forall i | 0 <= i < |h| ensures IsLive(h[i], now) { assert h[0].q <= h[i].q; }
      AllLive(h, now);
      FirstApart(h, 0);
    } else {
      var rest := h[1..];
      FirstApart(h, Stale(rest, now));
      LiveIsSuffix(rest, now);
      NothingBefore(Live(rest, now));
    }
  }

  /** The stale prefix is the only cut with nothing live before it and something live at it. */
  lemma StaleIs(h: seq<Queued>, n: nat, now: int)
    requires n <= |h|
    requires forall i :: 0 <= i < n ==> !IsLive(h[i], now)
    requires n < |h| ==> IsLive(h[n], now)
    ensures Stale(h, now) == n
  {
    var m := Stale(h, now);
    assert m < |h| ==> IsLive(h[m], now);
  }

  lemma StaleOfSuffix(h: seq<Queued>, k: nat, now: int)
    requires InOrder(h) && k <= |h|
    ensures InOrder(h[k..])
    ensures Stale(h[k..], now) == if Stale(h, now) > k then Stale(h, now) - k else 0
  {
    var n := Stale(h, now);
    var cut := if n > k then n - k else 0;
    assert k + cut < |h| ==> IsLive(h[k + cut], now) by {
      assert n < |h| ==> IsLive(h[n], now);
    }
    StaleIs(h[k..], cut, now);
  }

  lemma {:induction false} StampIs(events: seq<TrackerEvent>, now: int)
    ensures |Stamp(events, now)| == |events|
    ensures forall i :: 0 <= i < |events| ==> Stamp(events, now)[i] == Queued(now, events[i])
  {
    if events != [] { StampIs(events[1..], now); }
  }

  lemma {:induction false} HistoryInOrder(calls: seq<PushCall>, now: int)
    requires ClockForward(calls, now)
    ensures InOrder(History(calls))
    ensures forall i :: 0 <= i < |History(calls)| ==> History(calls)[i].q <= now
  {
    if calls != [] {
      var last := calls[|calls|-1];
      HistoryInOrder(calls[..|calls|-1], last.at);
      StampIs(last.events, last.at);
    }
  }

  /** Appending live entries leaves the stale prefix alone. */
  lemma StaleAfterPush(h: seq<Queued>, added: seq<Queued>, now: int)
    requires forall i :: 0 <= i < |added| ==> IsLive(added[i], now)
    ensures Stale(h + added, now) == Stale(h, now)
  {
    var n := Stale(h, now);
    assert n < |h + added| ==> IsLive((h + added)[n], now);
    StaleIs(h + added, n, now);
  }

  lemma {:induction false} StaleMonotone(h: seq<Queued>, t: int, now: int)
    requires t <= now
    ensures Stale(h, t) <= Stale(h, now)
  {
    if h != [] && !IsLive(h[0], t) { StaleMonotone(h[1..], t, now); }
  }

  /** One push: if the queue is the admissible suffix of `h`, it is the one of `h + added` afterwards. */
  lemma PushKeepsSuffix(h: seq<Queued>, added: seq<Queued>, now: int)
    requires forall i :: 0 <= i < |added| ==> IsLive(added[i], now)
    ensures Capped(h[Start(h, now)..] + added) == (h + added)[Start(h + added, now)..]
  {
    var b, all := Start(h, now), h + added;
    StaleAfterPush(h, added, now);
    SuffixAppend(h, b, added);
    CappedSuffix(all, b);
  }

  lemma SuffixAppend(h: seq<Queued>, b: nat, added: seq<Queued>)
    requires b <= |h|
    ensures h[b..] + added == (h + added)[b..]
  {
  }

  lemma CappedSuffix(all: seq<Queued>, b: nat)
    requires b <= |all|
    ensures
      var over := |all| - RETRY_MAX_EVENTS;
      Capped(all[b..]) == all[(if over > b then over else b)..]
  {
  }

  /** Time passing: what is still live of the suffix is the suffix of the later instant. */
  lemma LaterSuffix(h: seq<Queued>, t: int, now: int)
    requires InOrder(h) && t <= now
    ensures Live(h[Start(h, t)..], now) == h[Start(h, now)..]
  {
    var b := Start(h, t);
    StaleOfSuffix(h, b, now);
    LiveIsSuffix(h[b..], now);
    StaleMonotone(h, t, now);
  }

  lemma {:induction false} QueueIsSuffix(calls: seq<PushCall>, now: int)
    requires ClockForward(calls, now)
    ensures Live(QueueAfter(calls), now) == History(calls)[Start(History(calls), now)..]
    decreases |calls|
  {
    if calls != [] {
      var before, last := calls[..|calls|-1], calls[|calls|-1];
      QueueIsSuffix(before, last.at);
      StampIs(last.events, last.at);
      PushKeepsSuffix(History(before), Stamp(last.events, last.at), last.at);
      HistoryInOrder(calls, now);
      LaterSuffix(History(calls), last.at, now);
    }
  }

  lemma EventsOfSuffix(entries: seq<Queued>)
    ensures |Events(entries)| == |entries|
    ensures forall i :: 0 <= i < |entries| ==> Events(entries)[i] == entries[i].e
  {
  }

  lemma AdmissibleIs(h: seq<Queued>, k: nat, now: int)
    requires InOrder(h) && k <= |h|
    ensures Admissible(h, k, now) <==> Start(h, now) <= k
  {
    var s := Stale(h, now);
    if s <= k {
      forall i | k <= i < |h| ensures IsLive(h[i], now) { assert h[s].q <= h[i].q; }
    } else {
      assert !IsLive(h[k], now);
    }
  }

  /**
   What a take returns: with a clock that never goes back, exactly the longest suffix of everything pushed
   since the last take that fits the cap with every entry pushed less than the TTL ago.
   */
  lemma {:induction false} TakeIsLongestSuffix(calls: seq<PushCall>, now: int, k: nat)
    requires ClockForward(calls, now) && k <= |History(calls)|
    ensures
      var h := History(calls);
      var taken := Events(Live(QueueAfter(calls), now));
      && |taken| <= |h|
      && taken == Events(h[|h| - |taken|..])
      && (Admissible(h, k, now) <==> |h| - |taken| <= k)
  {
    var h := History(calls);
    HistoryInOrder(calls, now);
    QueueIsSuffix(calls, now);
    EventsOfSuffix(h[Start(h, now)..]);
    AdmissibleIs(h, k, now);
  }

  /**
   The TTL counts from the latest push, not from the first: an event taken and pushed again just before it
   would expire survives to nearly twice its TTL.
   */
  lemma {:induction false} RequeueRenewsLife(e: TrackerEvent, first: int)
    ensures
      var again := first + RETRY_TTL_MS - 1;
      && Events(Live(Push([], [e], first), again)) == [e]
      && Events(Live(Push([], [e], again), again + RETRY_TTL_MS - 1)) == [e]
  {
    forall t: int ensures Events(Live(Push([], [e], t), t + RETRY_TTL_MS - 1)) == [e] {
      StampIs([e], t);
      assert Push([], [e], t) == [Queued(t, e)];
      assert [Queued(t, e)][1..] == [];
    }
  }

  /** The limits in numbers: two hundred entries, each pushed less than a day ago. */
  lemma AdmissibleMeans(h: seq<Queued>, start: nat, now: int)
    requires start <= |h|
    ensures Admissible(h, start, now)
      <==> |h| - start <= 200 && forall i :: start <= i < |h| ==> now - h[i].q < 24 * 60 * 60 * 1000
  {
    if Admissible(h, start, now) {
      forall i | start <= i < |h| ensures now - h[i].q < 24 * 60 * 60 * 1000 { assert IsLive(h[i], now); }
    }
  }

  // ----- age since the first push -----

  predicate Holds(h: seq<Queued>, e: TrackerEvent) { exists i :: 0 <= i < |h| && h[i].e == e }

  function FirstPush(h: seq<Queued>, e: TrackerEvent): int {
    if h == [] then 0 else if h[0].e == e then h[0].q else FirstPush(h[1..], e)
  }

  function LatestPush(h: seq<Queued>, e: TrackerEvent): int {
    if h == [] then 0 else if h[|h|-1].e == e then h[|h|-1].q else LatestPush(h[..|h|-1], e)
  }

  lemma {:induction false} FirstPushIs(h: seq<Queued>, e: TrackerEvent)
    requires InOrder(h) && Holds(h, e)
    ensures forall i :: 0 <= i < |h| && h[i].e == e ==> FirstPush(h, e) <= h[i].q
  {
    if h[0].e != e {
      var rest := h[1..];
      assert forall i :: 0 <= i < |rest| ==> rest[i] == h[i+1];
      var k :| 0 <= k < |h| && h[k].e == e;
      assert rest[k-1].e == e;
      FirstPushIs(rest, e);
      assert forall i :: 1 <= i < |h| ==> h[i] == rest[i-1];
    }
  }

  lemma {:induction false} LatestPushIs(h: seq<Queued>, e: TrackerEvent) returns (j: nat)
    requires Holds(h, e)
    ensures j < |h| && h[j].e == e && LatestPush(h, e) == h[j].q && forall i :: j < i < |h| ==> h[i].e != e
  {
    j := |h| - 1;
    if h[j].e != e { j := LatestPushIs(h[..|h|-1], e); }
  }

  function Taken(calls: seq<PushCall>, now: int): seq<TrackerEvent> { Events(Live(QueueAfter(calls), now)) }

  lemma {:induction false} LatestPushOfLater(a: seq<Queued>, h: seq<Queued>, e: TrackerEvent)
    requires Holds(h, e)
    ensures LatestPush(a + h, e) == LatestPush(h, e)
  {
    if h[|h|-1].e != e {
      LastApart(a, h);
      LatestPushOfLater(a, h[..|h|-1], e);
    }
  }

  lemma LastApart<T>(a: seq<T>, b: seq<T>)
    requires b != []
    ensures (a + b)[..|a + b|-1] == a + b[..|b|-1] && (a + b)[|a + b|-1] == b[|b|-1]
  {
  }

  lemma Grouped<T>(a: seq<T>, b: seq<T>, c: seq<T>)
    ensures a + b + c == a + (b + c)
  {
  }

  lemma {:induction false} HistoryAppend(a: seq<PushCall>, b: seq<PushCall>)
    ensures History(a + b) == History(a) + History(b)
    decreases |b|
  {
    if b == [] {
      assert a + b == a;
    } else {
      var last := b[|b|-1];
      LastApart(a, b);
      HistoryAppend(a, b[..|b|-1]);
      Grouped(History(a), History(b[..|b|-1]), Stamp(last.events, last.at));
    }
  }

  lemma ClockForwardSuffix(a: seq<PushCall>, b: seq<PushCall>, now: int)
    requires ClockForward(a + b, now)
    ensures ClockForward(b, now)
  {
    assert forall i :: 0 <= i < |b| ==> b[i] == (a + b)[|a| + i];
  }

  /** A take hands `e` out exactly when the longest admissible suffix reaches back to its latest push. */
  lemma TakenExactly(calls: seq<PushCall>, now: int, e: TrackerEvent, j: nat)
    requires ClockForward(calls, now)
    requires var h := History(calls); j < |h| && h[j].e == e && forall i :: j < i < |h| ==> h[i].e != e
    ensures e in Taken(calls, now) <==> Admissible(History(calls), j, now)
  {
    var h, taken := History(calls), Taken(calls, now);
    TakeIsLongestSuffix(calls, now, j);
    var s := |h| - |taken|;
    EventsOfSuffix(h[s..]);
    if e in taken {
      var i :| 0 <= i < |taken| && taken[i] == e;
      assert h[s..][i] == h[s + i];
    } else if s <= j {
      assert taken[j - s] == h[s..][j - s].e;
    }
  }

  lemma TakenIsHeld(calls: seq<PushCall>, now: int, e: TrackerEvent)
    requires ClockForward(calls, now) && e in Taken(calls, now)
    ensures Holds(History(calls), e)
  {
    var h, taken := History(calls), Taken(calls, now);
    TakeIsLongestSuffix(calls, now, |h|);
    EventsOfSuffix(h[|h| - |taken|..]);
    var i :| 0 <= i < |taken| && taken[i] == e;
    assert h[|h| - |taken| + i].e == e;
  }

  /** With `earlier` pushed before the last take and `calls` since, a take at `t` hands `e` out. */
  ghost predicate HandedOut(earlier: seq<PushCall>, calls: seq<PushCall>, e: TrackerEvent, t: int) {
    ClockForward(earlier + calls, t) && e in Taken(calls, t)
  }

  lemma HandedOutIs(earlier: seq<PushCall>, calls: seq<PushCall>, e: TrackerEvent, j: nat, t: int)
    requires var h := History(calls); j < |h| && h[j].e == e && forall i :: j < i < |h| ==> h[i].e != e
    ensures HandedOut(earlier, calls, e, t) <==> ClockForward(earlier + calls, t) && Admissible(History(calls), j, t)
  {
    if ClockForward(earlier + calls, t) {
      ClockForwardSuffix(earlier, calls, t);
      TakenExactly(calls, t, e, j);
    }
  }

  lemma HandedOutYoung(earlier: seq<PushCall>, calls: seq<PushCall>, e: TrackerEvent, j: nat, t: int)
    requires var h := History(calls); j < |h| && h[j].e == e && forall i :: j < i < |h| ==> h[i].e != e
    requires HandedOut(earlier, calls, e, t)
    ensures t - History(calls)[j].q < RETRY_TTL_MS
  {
    HandedOutIs(earlier, calls, e, j, t);
    assert IsLive(History(calls)[j], t);
  }

  /** What is handed out at `now` is so within its lifetime from the latest push, and might be until its last instant. */
  lemma HandedOutUntil(earlier: seq<PushCall>, calls: seq<PushCall>, e: TrackerEvent, now: int)
    requires HandedOut(earlier, calls, e, now)
    ensures Holds(History(calls), e)
    ensures forall t: int :: HandedOut(earlier, calls, e, t) ==> t - LatestPush(History(calls), e) < RETRY_TTL_MS
    ensures HandedOut(earlier, calls, e, LatestPush(History(calls), e) + RETRY_TTL_MS - 1)
  {
    var h := History(calls);
    ClockForwardSuffix(earlier, calls, now);
    HistoryInOrder(calls, now);
    TakenIsHeld(calls, now, e);
    var j := LatestPushIs(h, e);
    HandedOutIs(earlier, calls, e, j, now);
    assert IsLive(h[j], now);
    forall t: int | HandedOut(earlier, calls, e, t) ensures t - h[j].q < RETRY_TTL_MS {
      HandedOutYoung(earlier, calls, e, j, t);
    }
    HandedOutIs(earlier, calls, e, j, h[j].q + RETRY_TTL_MS - 1);
  }

  /**
   The promise that the queue keeps nothing beyond the lifetime.  An event still held is handed out within its
   lifetime from its first push, whenever the take comes, exactly when no later push stamped it anew.
   */
  lemma {:induction false} YoungExactly(earlier: seq<PushCall>, calls: seq<PushCall>, e: TrackerEvent, now: int)
    requires HandedOut(earlier, calls, e, now)
    ensures
      var all := History(earlier + calls);
      (forall t: int :: HandedOut(earlier, calls, e, t) ==> t - FirstPush(all, e) < RETRY_TTL_MS)
        <==> FirstPush(all, e) == LatestPush(all, e)
  {
    var all := History(earlier + calls);
    HandedOutUntil(earlier, calls, e, now);
    HistoryAppend(earlier, calls);
    LatestPushOfLater(History(earlier), History(calls), e);
    FirstIsEarliest(earlier, calls, e, now);
    if FirstPush(all, e) != LatestPush(all, e) {
      assert HandedOut(earlier, calls, e, LatestPush(all, e) + RETRY_TTL_MS - 1);
    }
  }

  lemma FirstIsEarliest(earlier: seq<PushCall>, calls: seq<PushCall>, e: TrackerEvent, now: int)
    requires ClockForward(earlier + calls, now) && Holds(History(calls), e)
    ensures var all := History(earlier + calls); FirstPush(all, e) <= LatestPush(all, e)
  {
    var all, h := History(earlier + calls), History(calls);
    HistoryAppend(earlier, calls);
    HistoryInOrder(earlier + calls, now);
    var i :| 0 <= i < |h| && h[i].e == e;
    assert all[|all| - |h| + i].e == e;
    FirstPushIs(all, e);
    var j := LatestPushIs(all, e);
  }

  // ----- the source's object -----

  /** What a take owes its caller: of everything pushed since the last one, the longest suffix the queue may hold. */
  ghost predicate LongestSuffix(calls: seq<PushCall>, now: int, taken: seq<TrackerEvent>) {
    var h := History(calls);
    && |taken| <= |h| && taken == Events(h[|h| - |taken|..])
    && forall k: nat :: k <= |h| ==> (Admissible(h, k, now) <==> |h| - |taken| <= k)
  }

  /** `pushed` is history: the pushes since the last take. */
  class RetryQueue {
    var entries: seq<Queued>
    ghost var pushed: seq<PushCall>

    ghost predicate Valid()
      reads this
    {
      entries == QueueAfter(pushed)
    }

    constructor ()
      ensures Valid() && entries == [] && pushed == []
    {
      entries, pushed := [], [];
    }

    /** A failed batch goes behind what is still alive; the front gives way at the cap. */
    method PushAll(events: seq<TrackerEvent>, now: int)
      requires Valid()
      modifies this
      ensures Valid() && pushed == old(pushed) + [PushCall(events, now)]
      ensures entries == Push(old(entries), events, now)
    {
      var pending := Live(entries, now) + Stamp(events, now);
      var start := if |pending| - RETRY_MAX_EVENTS > 0 then |pending| - RETRY_MAX_EVENTS else 0;
      entries := pending[start..];
      ghost var before := pushed;
      pushed := before + [PushCall(events, now)];
      assert pushed[..|pushed|-1] == before;
    }

    /** Hands out the longest suffix of the pushes that cap and lifetime allow, and starts over. */
    method Take(now: int) returns (events: seq<TrackerEvent>)
      requires Valid()
      modifies this
      ensures Valid() && pushed == [] && entries == []
      ensures events == Events(Live(old(entries), now))
      ensures ClockForward(old(pushed), now) ==> LongestSuffix(old(pushed), now, events)
    {
      events := Events(Live(entries, now));
      if ClockForward(pushed, now) { TakenIsLongest(pushed, now); }
      entries, pushed := [], [];
    }

    method Size(now: int) returns (n: nat)
      ensures n == |Live(entries, now)|
    {
      n := |Live(entries, now)|;
    }
  }

  lemma TakenIsLongest(calls: seq<PushCall>, now: int)
    requires ClockForward(calls, now)
    ensures LongestSuffix(calls, now, Events(Live(QueueAfter(calls), now)))
  {
    forall k: nat | k <= |History(calls)|
      ensures Admissible(History(calls), k, now)
        <==> |History(calls)| - |Events(Live(QueueAfter(calls), now))| <= k
    {
      TakeIsLongestSuffix(calls, now, k);
    }
    TakeIsLongestSuffix(calls, now, 0);
  }
}
