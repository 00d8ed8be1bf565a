/**
 The staleness bound is reached: for every configuration the policy admits and every number of failed reads there
 is an on-time run whose last callback finds the last broadcast exactly as old as the bound allows.  So a client's
 limit is kept by every such run exactly when the bound is within it.
 */
module HubWorstGap {
  import opened Options
  import opened Hub
  import opened HubSafety
  import opened HubStaleness

  function Stranger(k: nat): Client { Client(k, "public", 0, 0) }

  // ----- growing runs -----

  lemma OnTimeSnoc(cfg: Config, created: nat, run: seq<Timed>, e: Timed)
    requires OnTimeRun(cfg, created, run)
    requires Enabled(After(cfg, created, run), e.at, e.event)
    requires OnTime(After(cfg, created, run), Now(created, run), e.at)
    ensures OnTimeRun(cfg, created, run + [e])
    ensures After(cfg, created, run + [e]) == Step(cfg, After(cfg, created, run), e.at, e.event)
  {
    assert (run + [e])[..|run|] == run;
  }

  // ----- between two broadcasts -----

  /** Undisturbed: a joiner is served from the cache, and reads succeed. */
  predicate Smooth(cfg: Config, s: State, now: int, at: int, e: Event) {
    Prompt(cfg, s, now, at, e) && !Setback(s, e, Step(cfg, s, at, e))
  }

  /** Between callbacks, nothing armed but the next tick `n`. */
  predicate Resting(s: State, now: int, lc: int, n: int) {
    && s.cached.Some? && !s.computing && s.waiters == [] && s.outstanding == 0
    && s.clients != [] && s.trailing.None? && s.refresh == Some(n)
    && s.lastComputeMs == lc && lc <= now <= n
  }

  /** Everyone holds `p` since `b`. */
  predicate Cruising(s: State, now: int, b: int, lc: int, n: int, p: Presence) {
    && Resting(s, now, lc, n)
    && s.lastBroadcastAt == b && s.lastPayload == Some(p) && !s.degraded && s.lastBroadcastSeq <= s.seq_
  }

  lemma TickSkipped(cfg: Config, s: State, now: int, b: int, lc: int, n: int, p: Presence)
    requires Cruising(s, now, b, lc, n, p) && n < lc + cfg.window
    ensures Smooth(cfg, s, now, n, RefreshTick)
    ensures Cruising(Step(cfg, s, n, RefreshTick), n, b, lc, n + cfg.refresh, p)
  {
  }

  /** A read for everyone is out. */
  predicate Reading(s: State, at: int, n: int) {
    && s.computing && s.waiters == [Broadcast] && s.outstanding == 1
    && s.clients != [] && s.trailing.None? && s.refresh == Some(n) && s.lastComputeMs == at <= n
  }

  lemma UpdateReads(cfg: Config, s: State, now: int, b: int, lc: int, n: int, p: Presence, at: int)
    requires Cruising(s, now, b, lc, n, p) && lc + cfg.window <= at && now <= at <= n
    ensures Smooth(cfg, s, now, at, Update)
    ensures
      var s' := Step(cfg, s, at, Update);
      && Reading(s', at, n)
      && s'.lastBroadcastAt == b && s'.lastPayload == Some(p) && !s'.degraded && s'.lastBroadcastSeq <= s'.seq_
  {
  }

  lemma ReadWithheld(cfg: Config, s: State, b: int, at: int, n: int, p: Presence)
    requires Reading(s, at, n) && at - b < RESEND_FLOOR
    requires s.lastBroadcastAt == b && s.lastPayload == Some(p) && !s.degraded && s.lastBroadcastSeq <= s.seq_
    ensures Smooth(cfg, s, at, at, ReadDone(Some(p)))
    ensures Cruising(Step(cfg, s, at, ReadDone(Some(p))), at, b, at, n, p)
  {
    OneAwaiter(Settle(s, at, Some(p)), at, Broadcast);
  }

  lemma OneAwaiter(s: State, at: int, w: Waiter)
    ensures ResumeAll(s, at, [w]) == Resume(s, at, w)
  {
    assert [w][1..] == [];
  }

  // ----- smooth stretches -----

  /** One callback and the state it leaves. */
  datatype Leg = Leg(at: int, event: Event, left: State)

  function EndOf(s: State, legs: seq<Leg>): State { if legs == [] then s else legs[|legs|-1].left }

  function TimeOf(now: int, legs: seq<Leg>): int { if legs == [] then now else legs[|legs|-1].at }

  /** The callbacks are smooth, one after the other, from state `s` at `now`. */
  ghost predicate Sails(cfg: Config, s: State, now: int, legs: seq<Leg>)
    decreases |legs|
  {
    legs != [] ==>
      var before, last := legs[..|legs|-1], legs[|legs|-1];
      && Sails(cfg, s, now, before)
      && Smooth(cfg, EndOf(s, before), TimeOf(now, before), last.at, last.event)
      && last.left == Step(cfg, EndOf(s, before), last.at, last.event)
  }

  lemma SailOn(cfg: Config, s: State, now: int, legs: seq<Leg>, at: int, e: Event) returns (more: seq<Leg>)
    requires Sails(cfg, s, now, legs) && Smooth(cfg, EndOf(s, legs), TimeOf(now, legs), at, e)
    ensures Sails(cfg, s, now, more)
    ensures EndOf(s, more) == Step(cfg, EndOf(s, legs), at, e) && TimeOf(now, more) == at && more != []
  {
    more := legs + [Leg(at, e, Step(cfg, EndOf(s, legs), at, e))];
    assert more[..|more|-1] == legs;
  }

  /** A stretch in which everyone has held `p` since its start at `b`. */
  ghost predicate Course(cfg: Config, s: State, b: int, legs: seq<Leg>, lc: int, n: int, p: Presence) {
    Sails(cfg, s, b, legs) && Cruising(EndOf(s, legs), TimeOf(b, legs), b, lc, n, p)
  }

  lemma SkipOnCourse(cfg: Config, s: State, b: int, legs: seq<Leg>, lc: int, n: int, p: Presence, n': int)
    returns (more: seq<Leg>)
    requires Course(cfg, s, b, legs, lc, n, p) && n < lc + cfg.window && n' == n + cfg.refresh
    ensures Course(cfg, s, b, more, lc, n', p) && TimeOf(b, more) == n
  {
    TickSkipped(cfg, EndOf(s, legs), TimeOf(b, legs), b, lc, n, p);
    more := SailOn(cfg, s, b, legs, n, RefreshTick);
  }

  lemma ReadOnCourse(cfg: Config, s: State, b: int, legs: seq<Leg>, lc: int, n: int, p: Presence, at: int)
    returns (more: seq<Leg>)
    requires Course(cfg, s, b, legs, lc, n, p)
    requires lc + cfg.window <= at && TimeOf(b, legs) <= at <= n && at - b < RESEND_FLOOR
    ensures Course(cfg, s, b, more, at, n, p) && TimeOf(b, more) == at
  {
    UpdateReads(cfg, EndOf(s, legs), TimeOf(b, legs), b, lc, n, p, at);
    var reading := SailOn(cfg, s, b, legs, at, Update);
    ReadWithheld(cfg, EndOf(s, reading), b, at, n, p);
    more := SailOn(cfg, s, b, reading, at, ReadDone(Some(p)));
  }

  /** The next read at `at`, a tick inside the window before it being skipped. */
  lemma NextRead(cfg: Config, s: State, b: int, legs: seq<Leg>, lc: int, n: int, p: Presence, at: int)
    returns (more: seq<Leg>, n': int)
    requires Course(cfg, s, b, legs, lc, n, p) && TimeOf(b, legs) == lc <= n
    requires lc + cfg.window <= at <= lc + cfg.refresh && at - b < RESEND_FLOOR
    requires n < at ==> n < lc + cfg.window
    ensures n' == if n < at then n + cfg.refresh else n
    ensures Course(cfg, s, b, more, at, n', p) && TimeOf(b, more) == at
  {
    n' := if n < at then n + cfg.refresh else n;
    if n < at {
      var skipped := SkipOnCourse(cfg, s, b, legs, lc, n, p, n');
      more := ReadOnCourse(cfg, s, b, skipped, lc, n', p, at);
    } else {
      more := ReadOnCourse(cfg, s, b, legs, lc, n, p, at);
    }
  }

  function Max(a: int, b: int): int { if a < b then b else a }

  /** The tick belonging to a read wanted at `x` (from the broadcast): it ends the read's window, or just did. */
  predicate TickFor(cfg: Config, x: int, lc: int, n: int) {
    || (n == x + cfg.window - 1 && lc <= n)
    || (n == x + cfg.refresh + cfg.window - 1 && x + cfg.window - 1 <= lc)
  }

  /** On course with `x`, `y` counted from the broadcast: the last read at the later of the two, its tick at `n`. */
  ghost predicate ClimbAt(cfg: Config, s: State, b: int, legs: seq<Leg>, x: int, y: nat, n: int, p: Presence) {
    var lc := b + Max(x, y);
    && Course(cfg, s, b, legs, lc, n, p) && TimeOf(b, legs) == lc <= n
    && TickFor(cfg, x, Max(x, y), n - b) && y < x + cfg.refresh
  }

  lemma ClimbOnce(
    cfg: Config, s: State, b: int, legs: seq<Leg>, x: int, y: nat, n: int, p: Presence, x': int, y': nat)
    returns (more: seq<Leg>, n': int)
    requires Paced(cfg) && ClimbAt(cfg, s, b, legs, x, y, n, p)
    requires x' == x + cfg.refresh && y' == y + cfg.window && Max(x', y') < RESEND_FLOOR
    ensures ClimbAt(cfg, s, b, more, x', y', n', p)
  {
    NextTick(cfg, x, y, n - b);
    more, n' := NextRead(cfg, s, b, legs, b + Max(x, y), n, p, b + Max(x', y'));
  }

  /**
   `k` more withheld reads, each a period after the one before or a window where that is later, the last one
   right before the tick that ends its window.
   */
  lemma {:induction false} Climb(
    cfg: Config, s: State, b: int, legs: seq<Leg>, x: int, y: nat, n: int, p: Presence, k: nat, top: int)
    returns (more: seq<Leg>, y': nat, n': int)
    requires Paced(cfg) && ClimbAt(cfg, s, b, legs, x, y, n, p)
    requires y + k * cfg.window <= top == x + k * cfg.refresh && top < RESEND_FLOOR
    ensures y' <= top && ClimbAt(cfg, s, b, more, top, y', n', p)
    decreases k
  {
    more, y', n' := legs, y, n;
    if k > 0 {
      StepsFit(cfg, x, y, k, top);
      var x', y1 := x + cfg.refresh, y + cfg.window;
      var once, m := ClimbOnce(cfg, s, b, legs, x, y, n, p, x', y1);
      more, y', n' := Climb(cfg, s, b, once, x', y1, m, p, k - 1, top);
    }
  }

  lemma NextTick(cfg: Config, x: int, y: nat, n: int)
    requires Paced(cfg) && TickFor(cfg, x, Max(x, y), n) && y < x + cfg.refresh && Max(x, y) <= n
    ensures
      var lc, at := Max(x, y), Max(x + cfg.refresh, y + cfg.window);
      && lc + cfg.window <= at <= lc + cfg.refresh
      && (n < at ==> n < lc + cfg.window)
      && var m := if n < at then n + cfg.refresh else n;
      && at <= m && TickFor(cfg, x + cfg.refresh, at, m)
  {
  }

  lemma StepsFit(cfg: Config, x: int, y: nat, k: nat, top: int)
    requires Paced(cfg) && k > 0 && y + k * cfg.window <= top == x + k * cfg.refresh && top < RESEND_FLOOR
    ensures Max(x + cfg.refresh, y + cfg.window) < RESEND_FLOOR
    ensures (y + cfg.window) + (k - 1) * cfg.window <= top == (x + cfg.refresh) + (k - 1) * cfg.refresh
  {
    ProductGrows(1, k, cfg.window);
    ProductGrows(1, k, cfg.refresh);
    assert k * cfg.window == (k - 1) * cfg.window + cfg.window;
    assert k * cfg.refresh == (k - 1) * cfg.refresh + cfg.refresh;
  }

  /** Between reads, the next tick `n` will read for everyone. */
  predicate Due(cfg: Config, s: State, now: int, b: int, n: int) {
    && !s.computing && s.waiters == [] && s.outstanding == 0 && s.clients != []
    && s.trailing.None? && s.refresh == Some(n) && s.lastComputeMs + cfg.window <= n && now <= n
    && s.lastBroadcastAt == b
  }

  lemma CruisingIsDue(cfg: Config, s: State, now: int, b: int, lc: int, n: int, p: Presence)
    requires Cruising(s, now, b, lc, n, p) && lc + cfg.window <= n
    ensures Due(cfg, s, now, b, n)
  {
  }

  /** The tick after the skipped one finds the whole gap. */
  lemma LastTick(cfg: Config, s: State, b: int, legs: seq<Leg>, top: int, y: nat, n: int, p: Presence)
    returns (before: seq<Leg>, at: int)
    requires Paced(cfg) && y <= top && ClimbAt(cfg, s, b, legs, top, y, n, p)
    ensures at == b + top + cfg.window - 1 + cfg.refresh
    ensures Sails(cfg, s, b, before) && Due(cfg, EndOf(s, before), TimeOf(b, before), b, at)
  {
    before, at := legs, n;
    if n == b + top + cfg.window - 1 {
      at := n + cfg.refresh;
      before := SkipOnCourse(cfg, s, b, legs, b + top, n, p, at);
    }
    CruisingIsDue(cfg, EndOf(s, before), TimeOf(b, before), b, b + top, at, p);
  }

  // ----- from the first client to the first broadcast -----

  /** Like `Sails`, for callbacks that are merely on time. */
  ghost predicate Goes(cfg: Config, s: State, now: int, legs: seq<Leg>)
    decreases |legs|
  {
    legs != [] ==>
      var before, last := legs[..|legs|-1], legs[|legs|-1];
      && Goes(cfg, s, now, before)
      && Enabled(EndOf(s, before), last.at, last.event)
      && OnTime(EndOf(s, before), TimeOf(now, before), last.at)
      && last.left == Step(cfg, EndOf(s, before), last.at, last.event)
  }

  lemma GoOn(cfg: Config, s: State, now: int, legs: seq<Leg>, at: int, e: Event) returns (more: seq<Leg>)
    requires Goes(cfg, s, now, legs)
    requires Enabled(EndOf(s, legs), at, e) && OnTime(EndOf(s, legs), TimeOf(now, legs), at)
    ensures Goes(cfg, s, now, more)
    ensures EndOf(s, more) == Step(cfg, EndOf(s, legs), at, e) && TimeOf(now, more) == at
  {
    more := legs + [Leg(at, e, Step(cfg, EndOf(s, legs), at, e))];
    assert more[..|more|-1] == legs;
  }

  /** A joiner's own read is out; nothing has been broadcast yet and identities stay below 2. */
  predicate FirstRead(s: State, at: int, n: int, c: Client) {
    && s.computing && s.waiters == [Initial(c)] && s.outstanding == 1 && c in s.inbox
    && s.clients != [] && s.trailing.None? && s.refresh == Some(n) && s.lastComputeMs == at <= n
    && s.lastPayload == None && s.lastBroadcastSeq <= s.seq_ && s.cached.None?
    && forall d :: d in s.inbox ==> d.key <= c.key < 2
  }

  /** The first read has failed. */
  predicate Failed(s: State, at: int, n: int) {
    && s.cached.None? && !s.computing && s.waiters == [] && s.outstanding == 0
    && s.clients != [] && s.trailing.None? && s.refresh == Some(n) && s.lastComputeMs == at <= n
    && s.lastPayload == None && s.lastBroadcastSeq <= s.seq_
    && forall d :: d in s.inbox ==> d.key == 0
  }

  /** A read has succeeded and only its joiner has been sent it. */
  predicate Primed(s: State, now: int, lc: int, n: int) {
    && Resting(s, now, lc, n) && s.lastPayload == None && s.lastBroadcastSeq <= s.seq_
    && forall d :: d in s.inbox ==> d.key < 2
  }

  lemma FirstJoins(cfg: Config)
    ensures var s := Step(cfg, Fresh(5), 5, Join(Stranger(0), None));
            FirstRead(s, 5, 5 + cfg.refresh, Stranger(0))
  {
  }

  lemma FirstFails(cfg: Config, s: State, n: int)
    requires FirstRead(s, 5, n, Stranger(0))
    ensures Failed(Step(cfg, s, 5, ReadDone(None)), 5, n)
  {
    var settled := Settle(s, 5, None);
    OneAwaiter(settled, 5, Initial(Stranger(0)));
    FirstFrameKeys(settled, Stranger(0));
  }

  lemma FirstFrameKeys(s: State, c: Client)
    requires c in s.inbox
    ensures FirstFrame(s, c).inbox.Keys == s.inbox.Keys
  {
    var f := match s.cached
      case Some(shot) => Snapshot(s.seq_, shot.presence, shot.generatedAt)
      case None => Control(s.seq_, Degraded);
    FanOutAt(s.inbox, [c], f);
    assert FirstFrame(s, c).inbox == FanOut(s.inbox, [c], f);
  }

  lemma SecondJoins(cfg: Config, s: State, lc: int, n: int, t: int)
    requires Failed(s, lc, n) && lc <= t <= n
    ensures Enabled(s, t, Join(Stranger(1), None))
    ensures FirstRead(Step(cfg, s, t, Join(Stranger(1), None)), t, n, Stranger(1))
  {
  }

  lemma JoinerServed(cfg: Config, s: State, t: int, n: int, p: Presence)
    requires FirstRead(s, t, n, Stranger(1))
    ensures Primed(Step(cfg, s, t, ReadDone(Some(p))), t, t, n)
  {
    var settled := Settle(s, t, Some(p));
    OneAwaiter(settled, t, Initial(Stranger(1)));
    FirstFrameKeys(settled, Stranger(1));
  }

  lemma PrimedTickSkipped(cfg: Config, s: State, now: int, lc: int, n: int, n': int)
    requires Primed(s, now, lc, n) && n < lc + cfg.window && n' == n + cfg.refresh
    ensures Enabled(s, n, RefreshTick) && OnTime(s, now, n)
    ensures Primed(Step(cfg, s, n, RefreshTick), n, lc, n')
  {
  }

  /** The first read for everyone is out. */
  predicate FirstForAll(s: State, at: int, n: int) {
    Reading(s, at, n) && s.lastPayload == None && s.lastBroadcastSeq <= s.seq_
  }

  lemma PrimedUpdate(cfg: Config, s: State, now: int, lc: int, n: int, at: int)
    requires Primed(s, now, lc, n) && lc + cfg.window <= at <= n && now <= at
    ensures Enabled(s, at, Update) && OnTime(s, now, at)
    ensures FirstForAll(Step(cfg, s, at, Update), at, n)
  {
  }

  lemma PrimedTick(cfg: Config, s: State, now: int, lc: int, n: int, n': int)
    requires Primed(s, now, lc, n) && lc + cfg.window <= n && n' == n + cfg.refresh
    ensures Enabled(s, n, RefreshTick) && OnTime(s, now, n)
    ensures FirstForAll(Step(cfg, s, n, RefreshTick), n, n')
  {
  }

  lemma FirstBroadcast(cfg: Config, s: State, at: int, n: int, p: Presence)
    requires FirstForAll(s, at, n)
    ensures
      var s' := Step(cfg, s, at, ReadDone(Some(p)));
      JustBroadcast(s', at) && Cruising(s', at, at, at, n, p)
  {
    OneAwaiter(Settle(s, at, Some(p)), at, Broadcast);
  }

  /** On time from a new hub to a primed one. */
  ghost predicate PrimedBy(cfg: Config, legs: seq<Leg>, now: int, lc: int, n: int) {
    Goes(cfg, Fresh(5), 5, legs) && TimeOf(5, legs) == now && Primed(EndOf(Fresh(5), legs), now, lc, n)
  }

  /** One client whose read fails, and at `t` another whose read succeeds. */
  lemma PrimedAt(cfg: Config, t: int, n: int, p: Presence) returns (legs: seq<Leg>)
    requires 5 <= t <= n == 5 + cfg.refresh
    ensures PrimedBy(cfg, legs, t, t, n)
  {
    var s := Fresh(5);
    FirstJoins(cfg);
    legs := GoOn(cfg, s, 5, [], 5, Join(Stranger(0), None));
    FirstFails(cfg, EndOf(s, legs), n);
    legs := GoOn(cfg, s, 5, legs, 5, ReadDone(None));
    SecondJoins(cfg, EndOf(s, legs), 5, n, t);
    legs := GoOn(cfg, s, 5, legs, t, Join(Stranger(1), None));
    JoinerServed(cfg, EndOf(s, legs), t, n, p);
    legs := GoOn(cfg, s, 5, legs, t, ReadDone(Some(p)));
  }

  lemma SkipPrimed(cfg: Config, legs: seq<Leg>, now: int, lc: int, n: int, n': int) returns (more: seq<Leg>)
    requires PrimedBy(cfg, legs, now, lc, n) && n < lc + cfg.window && n' == n + cfg.refresh
    ensures PrimedBy(cfg, more, n, lc, n')
  {
    PrimedTickSkipped(cfg, EndOf(Fresh(5), legs), now, lc, n, n');
    more := GoOn(cfg, Fresh(5), 5, legs, n, RefreshTick);
  }

  /** On time from a new hub to its first read for everyone. */
  ghost predicate ReadingBy(cfg: Config, legs: seq<Leg>, at: int, n: int) {
    Goes(cfg, Fresh(5), 5, legs) && TimeOf(5, legs) == at && FirstForAll(EndOf(Fresh(5), legs), at, n)
  }

  lemma UpdateReadsFirst(cfg: Config, legs: seq<Leg>, now: int, lc: int, n: int, at: int) returns (more: seq<Leg>)
    requires PrimedBy(cfg, legs, now, lc, n) && lc + cfg.window <= at <= n && now <= at
    ensures ReadingBy(cfg, more, at, n)
  {
    PrimedUpdate(cfg, EndOf(Fresh(5), legs), now, lc, n, at);
    more := GoOn(cfg, Fresh(5), 5, legs, at, Update);
  }

  lemma TickReadsFirst(cfg: Config, legs: seq<Leg>, now: int, lc: int, n: int, n': int) returns (more: seq<Leg>)
    requires PrimedBy(cfg, legs, now, lc, n) && lc + cfg.window <= n && n' == n + cfg.refresh
    ensures ReadingBy(cfg, more, n, n')
  {
    PrimedTick(cfg, EndOf(Fresh(5), legs), now, lc, n, n');
    more := GoOn(cfg, Fresh(5), 5, legs, n, RefreshTick);
  }

  /** On time from a new hub to its first broadcast, at `b`, the next tick being due at `n`. */
  ghost predicate Launched(cfg: Config, legs: seq<Leg>, b: int, n: int, p: Presence) {
    && Goes(cfg, Fresh(5), 5, legs) && TimeOf(5, legs) == b
    && JustBroadcast(EndOf(Fresh(5), legs), b) && Cruising(EndOf(Fresh(5), legs), b, b, b, n, p)
  }

  lemma ReadLaunches(cfg: Config, legs: seq<Leg>, b: int, n: int, p: Presence) returns (more: seq<Leg>)
    requires ReadingBy(cfg, legs, b, n)
    ensures Launched(cfg, more, b, n, p)
  {
    FirstBroadcast(cfg, EndOf(Fresh(5), legs), b, n, p);
    more := GoOn(cfg, Fresh(5), 5, legs, b, ReadDone(Some(p)));
  }

  /** The first read for everyone at `b`, with the next tick `ahead` of it, for any distance there can be. */
  lemma ReadAhead(cfg: Config, ahead: int, p: Presence) returns (legs: seq<Leg>, b: int, n: int)
    requires Paced(cfg) && 1 <= ahead <= cfg.refresh
    ensures ReadingBy(cfg, legs, b, n) && n == b + ahead
  {
    var r, first := cfg.refresh, 5 + cfg.refresh;
    if ahead <= r - cfg.window {
      n := first;
      b := n - ahead;
      legs := PrimedAt(cfg, b - cfg.window, first, p);
      legs := UpdateReadsFirst(cfg, legs, b - cfg.window, b - cfg.window, n, b);
    } else {
      n := first + r;
      b := n - ahead;
      legs := PrimedAt(cfg, b - cfg.window, first, p);
      legs := PastFirstTick(cfg, legs, b - cfg.window, first, b, n);
    }
  }

  lemma PastFirstTick(cfg: Config, legs: seq<Leg>, t: int, first: int, b: int, n: int) returns (more: seq<Leg>)
    requires PrimedBy(cfg, legs, t, t, first) && first <= b <= n == first + cfg.refresh && b == t + cfg.window
    ensures ReadingBy(cfg, more, b, n)
  {
    if b == first {
      more := TickReadsFirst(cfg, legs, t, t, first, n);
    } else {
      more := SkipPrimed(cfg, legs, t, t, first, n);
      more := UpdateReadsFirst(cfg, more, first, t, n, b);
    }
  }

  lemma BroadcastAhead(cfg: Config, ahead: int, p: Presence) returns (legs: seq<Leg>, b: int, n: int)
    requires Paced(cfg) && 1 <= ahead <= cfg.refresh
    ensures Launched(cfg, legs, b, n, p) && n == b + ahead
  {
    legs, b, n := ReadAhead(cfg, ahead, p);
    legs := ReadLaunches(cfg, legs, b, n, p);
  }

  // ----- as runs -----

  function EventsOf(legs: seq<Leg>): seq<Timed> {
    if legs == [] then [] else EventsOf(legs[..|legs|-1]) + [Timed(legs[|legs|-1].at, legs[|legs|-1].event)]
  }

  lemma {:induction false} GoesAsRun(cfg: Config, created: nat, legs: seq<Leg>)
    requires Goes(cfg, Fresh(created), created, legs)
    ensures OnTimeRun(cfg, created, EventsOf(legs))
    ensures After(cfg, created, EventsOf(legs)) == EndOf(Fresh(created), legs)
    ensures Now(created, EventsOf(legs)) == TimeOf(created, legs)
    decreases |legs|
  {
    if legs != [] {
      var before, last := legs[..|legs|-1], legs[|legs|-1];
      GoesAsRun(cfg, created, before);
      OnTimeSnoc(cfg, created, EventsOf(before), Timed(last.at, last.event));
    }
  }

  ghost predicate SmoothAfter(cfg: Config, created: nat, run: seq<Timed>, i: nat)
    requires ValidRun(cfg, created, run)
    decreases |run|
  {
    |run| > i ==>
      var before := run[..|run|-1];
      && SmoothAfter(cfg, created, before, i)
      && Smooth(cfg, After(cfg, created, before), Now(created, before), run[|run|-1].at, run[|run|-1].event)
  }

  lemma {:induction false} SmoothIsPrompt(cfg: Config, created: nat, run: seq<Timed>, i: nat)
    requires ValidRun(cfg, created, run) && SmoothAfter(cfg, created, run, i)
    ensures PromptAfter(cfg, created, run, i) && Setbacks(cfg, created, run, i) == 0
    decreases |run|
  {
    if |run| > i { SmoothIsPrompt(cfg, created, run[..|run|-1], i); }
  }

  lemma SmoothSnoc(cfg: Config, created: nat, run: seq<Timed>, i: nat, e: Timed)
    requires OnTimeRun(cfg, created, run) && i <= |run| && SmoothAfter(cfg, created, run, i)
    requires Smooth(cfg, After(cfg, created, run), Now(created, run), e.at, e.event)
    ensures OnTimeRun(cfg, created, run + [e]) && SmoothAfter(cfg, created, run + [e], i)
    ensures After(cfg, created, run + [e]) == Step(cfg, After(cfg, created, run), e.at, e.event)
  {
    assert (run + [e])[..|run|] == run;
    OnTimeSnoc(cfg, created, run, e);
  }

  lemma {:induction false} SailsAsRun(cfg: Config, created: nat, start: seq<Timed>, legs: seq<Leg>)
    requires OnTimeRun(cfg, created, start)
    requires Sails(cfg, After(cfg, created, start), Now(created, start), legs)
    ensures
      var run := start + EventsOf(legs);
      && OnTimeRun(cfg, created, run) && SmoothAfter(cfg, created, run, |start|)
      && After(cfg, created, run) == EndOf(After(cfg, created, start), legs)
      && Now(created, run) == TimeOf(Now(created, start), legs)
    decreases |legs|
  {
    if legs == [] {
      assert start + EventsOf(legs) == start;
    } else {
      var before, last := legs[..|legs|-1], legs[|legs|-1];
      SailsAsRun(cfg, created, start, before);
      var run, e := start + EventsOf(before), Timed(last.at, last.event);
      SmoothSnoc(cfg, created, run, |start|, e);
      assert start + EventsOf(legs) == run + [e];
    }
  }

  // ----- failing reads -----

  lemma DueTick(cfg: Config, s: State, now: int, b: int, n: int)
    requires Due(cfg, s, now, b, n)
    ensures Smooth(cfg, s, now, n, RefreshTick)
    ensures var s' := Step(cfg, s, n, RefreshTick); Reading(s', n, n + cfg.refresh) && s'.lastBroadcastAt == b
  {
  }

  /** A read that fails leaves the next tick to read again. */
  lemma ReadFails(cfg: Config, s: State, at: int, n: int)
    requires Reading(s, at, n) && at + cfg.window <= n
    ensures Prompt(cfg, s, at, at, ReadDone(None))
    ensures Due(cfg, Step(cfg, s, at, ReadDone(None)), at, s.lastBroadcastAt, n)
  {
    OneAwaiter(Settle(s, at, None), at, Broadcast);
  }

  /** A run that is prompt from `i` on, with `k` setbacks so far. */
  ghost predicate Trailed(cfg: Config, created: nat, run: seq<Timed>, i: nat, k: nat) {
    && OnTimeRun(cfg, created, run) && i <= |run|
    && PromptAfter(cfg, created, run, i) && Setbacks(cfg, created, run, i) == k
  }

  lemma TrailedOn(cfg: Config, created: nat, run: seq<Timed>, i: nat, k: nat, at: int, e: Event, s': State)
    returns (more: seq<Timed>)
    requires Trailed(cfg, created, run, i, k)
    requires Prompt(cfg, After(cfg, created, run), Now(created, run), at, e)
    requires s' == Step(cfg, After(cfg, created, run), at, e)
    ensures Trailed(cfg, created, more, i, k + if Setback(After(cfg, created, run), e, s') then 1 else 0)
    ensures After(cfg, created, more) == s' && Now(created, more) == at
    ensures more == run + [Timed(at, e)] && more[..|more|-1] == run && more[..i] == run[..i]
  {
    more := run + [Timed(at, e)];
    assert more[..|run|] == run;
    OnTimeSnoc(cfg, created, run, Timed(at, e));
  }

  /** Such a run that begins with `start`, at whose end the tick `n` is about to read. */
  ghost predicate Stalled(cfg: Config, created: nat, run: seq<Timed>, start: seq<Timed>, k: nat, b: int, n: int) {
    && Trailed(cfg, created, run, |start|, k) && run[..|start|] == start
    && Due(cfg, After(cfg, created, run), Now(created, run), b, n)
  }

  lemma FailOnce(
    cfg: Config, created: nat, run: seq<Timed>, start: seq<Timed>, k: nat, b: int, n: int, k': nat, n': int)
    returns (more: seq<Timed>)
    requires Paced(cfg) && Stalled(cfg, created, run, start, k, b, n) && k' == k + 1 && n' == n + cfg.refresh
    ensures Stalled(cfg, created, more, start, k', b, n')
  {
    var s := After(cfg, created, run);
    DueTick(cfg, s, Now(created, run), b, n);
    var s1 := Step(cfg, s, n, RefreshTick);
    var reading := TrailedOn(cfg, created, run, |start|, k, n, RefreshTick, s1);
    ReadFails(cfg, s1, n, n');
    more := TrailedOn(cfg, created, reading, |start|, k, n, ReadDone(None), Step(cfg, s1, n, ReadDone(None)));
  }

  /** The tick `k` periods after `n`. */
  function TickOn(n: int, k: nat, refresh: nat): int { if k == 0 then n else TickOn(n, k - 1, refresh) + refresh }

  lemma {:induction false} TickOnIs(n: int, k: nat, refresh: nat)
    ensures TickOn(n, k, refresh) == n + k * refresh
  {
    if k > 0 {
      TickOnIs(n, k - 1, refresh);
      assert k * refresh == (k - 1) * refresh + refresh;
    }
  }

  /** `k` reads fail, a period apart. */
  lemma {:induction false} FailAgain(
    cfg: Config, created: nat, run: seq<Timed>, start: seq<Timed>, b: int, n: int, k: nat, end: int)
    returns (more: seq<Timed>)
    requires Paced(cfg) && Stalled(cfg, created, run, start, 0, b, n) && end == TickOn(n, k, cfg.refresh)
    ensures Stalled(cfg, created, more, start, k, b, end)
    decreases k
  {
    if k == 0 {
      assert end == n;
      more := run;
    } else {
      var earlier := TickOn(n, k - 1, cfg.refresh);
      var fewer := FailAgain(cfg, created, run, start, b, n, k - 1, earlier);
      more := FailOnce(cfg, created, fewer, start, k - 1, b, earlier, k, end);
    }
  }

  /** The tick that ends such a run. */
  lemma StalledIsWatched(cfg: Config, created: nat, run: seq<Timed>, start: seq<Timed>, k: nat, b: int, n: int)
    returns (more: seq<Timed>)
    requires Stalled(cfg, created, run, start, k, b, n)
    requires ValidRun(cfg, created, start) && JustBroadcast(After(cfg, created, start), Now(created, start))
    ensures Watched(cfg, created, more, |start|) && SetbacksFound(cfg, created, more, |start|) == k
    ensures AgeFound(cfg, created, more) == n - b
  {
    var s := After(cfg, created, run);
    DueTick(cfg, s, Now(created, run), b, n);
    more := TrailedOn(cfg, created, run, |start|, k, n, RefreshTick, Step(cfg, s, n, RefreshTick));
  }

  // ----- the worst gap -----

  /** Where the climb starts and how many steps it takes. */
  lemma ClimbPlan(cfg: Config) returns (x: int, k: nat)
    requires Paced(cfg)
    ensures 0 < x + cfg.refresh && x <= 0
    ensures k * cfg.window <= x + k * cfg.refresh == Min(RESEND_FLOOR - 1, WindowsWithin(cfg) * cfg.refresh)
  {
    var q := WindowsWithin(cfg);
    assert q * cfg.window <= RESEND_FLOOR - 1;
    ProductGrows(cfg.window, cfg.refresh, q);
    if q * cfg.refresh <= RESEND_FLOOR - 1 {
      x, k := 0, q;
    } else {
      k := (RESEND_FLOOR - 1 + cfg.refresh - 1) / cfg.refresh;
      x := RESEND_FLOOR - 1 - k * cfg.refresh;
      if k > q { ProductGrows(q, k - 1, cfg.refresh); }
      ProductGrows(k, q, cfg.window);
    }
  }

  lemma FirstTick(cfg: Config, x: int) returns (ahead: int)
    requires Paced(cfg) && 0 < x + cfg.refresh && x <= 0
    ensures 1 <= ahead <= cfg.refresh && TickFor(cfg, x, Max(x, 0), ahead)
  {
    ahead := if x + cfg.window - 1 >= 1 then x + cfg.window - 1 else x + cfg.window - 1 + cfg.refresh;
  }

  /** From a first broadcast, smooth callbacks up to the tick that finds the worst gap. */
  lemma WorstGapSailed(cfg: Config, p: Presence) returns (launch: seq<Leg>, b: int, before: seq<Leg>, at: int)
    requires Paced(cfg)
    ensures Goes(cfg, Fresh(5), 5, launch) && TimeOf(5, launch) == b && JustBroadcast(EndOf(Fresh(5), launch), b)
    ensures Sails(cfg, EndOf(Fresh(5), launch), b, before) && at - b == WorstGap(cfg)
    ensures Due(cfg, EndOf(EndOf(Fresh(5), launch), before), TimeOf(b, before), b, at)
  {
    var x, k := ClimbPlan(cfg);
    var ahead := FirstTick(cfg, x);
    var n;
    launch, b, n := BroadcastAhead(cfg, ahead, p);
    var s, top := EndOf(Fresh(5), launch), x + k * cfg.refresh;
    assert ClimbAt(cfg, s, b, [], x, 0, n, p);
    var legs, y, m := Climb(cfg, s, b, [], x, 0, n, p, k, top);
    before, at := LastTick(cfg, s, b, legs, top, y, m, p);
  }

  lemma WorstGapStalled(cfg: Config, p: Presence) returns (start: seq<Timed>, run: seq<Timed>, b: int, at: int)
    requires Paced(cfg)
    ensures ValidRun(cfg, 5, start) && JustBroadcast(After(cfg, 5, start), Now(5, start))
    ensures Stalled(cfg, 5, run, start, 0, b, at) && at - b == WorstGap(cfg)
  {
    var launch, before;
    launch, b, before, at := WorstGapSailed(cfg, p);
    GoesAsRun(cfg, 5, launch);
    start := EventsOf(launch);
    SailsAsRun(cfg, 5, start, before);
    run := start + EventsOf(before);
    SmoothIsPrompt(cfg, 5, run, |start|);
  }

  /** The bound is exact: for any number of setbacks, some reachable run finds a broadcast as old as it allows. */
  lemma WorstGapIsReached(cfg: Config, k: nat, p: Presence) returns (run: seq<Timed>, i: nat)
    requires Paced(cfg)
    ensures Watched(cfg, 5, run, i) && SetbacksFound(cfg, 5, run, i) == k
    ensures AgeFound(cfg, 5, run) == WorstGap(cfg) + k * cfg.refresh
  {
    var start, smooth, b, at := WorstGapStalled(cfg, p);
    var end := TickOn(at, k, cfg.refresh);
    TickOnIs(at, k, cfg.refresh);
    var failing := FailAgain(cfg, 5, smooth, start, b, at, k, end);
    run := StalledIsWatched(cfg, 5, failing, start, k, b, end);
    i := |start|;
  }

  // ----- the client's limit -----

  /** With at most `k` setbacks, no broadcast grows older than the client keeps a snapshot. */
  ghost predicate StaysFresh(cfg: Config, k: nat) {
    forall created: nat, run, i: nat :: Watched(cfg, created, run, i) && SetbacksFound(cfg, created, run, i) <= k
      ==> AgeFound(cfg, created, run) <= MAX_AGE
  }

  predicate Allows(cfg: Config, k: nat)
    requires Paced(cfg)
  {
    WorstGap(cfg) + k * cfg.refresh <= MAX_AGE
  }

  /** Clients never see a stale stream exactly when the worst gap and `k` periods are within their limit. */
  lemma FreshExactlyWhen(cfg: Config, k: nat)
    requires Paced(cfg)
    ensures StaysFresh(cfg, k) <==> Allows(cfg, k)
  {
    if Allows(cfg, k) {
      forall created: nat, run, i: nat
        | Watched(cfg, created, run, i) && SetbacksFound(cfg, created, run, i) <= k
        ensures AgeFound(cfg, created, run) <= MAX_AGE
      {
        StalenessBound(cfg, created, run, i);
        ProductGrows(SetbacksFound(cfg, created, run, i), k, cfg.refresh);
      }
    } else {
      var run, i := WorstGapIsReached(cfg, k, "");
    }
  }

  /** With a period of twice the window or so, the worst gap is the floor, the period and the window. */
  lemma WideGap(cfg: Config)
    requires Paced(cfg) && 2 * cfg.window <= cfg.refresh + 1 && cfg.window < RESEND_FLOOR
    ensures WorstGap(cfg) == RESEND_FLOOR + cfg.refresh + cfg.window - 2
  {
    var q := WindowsWithin(cfg);
    assert q >= 1 && RESEND_FLOOR - 1 < q * cfg.window + cfg.window;
    ProductGrows(2 * cfg.window - 1, cfg.refresh, q);
    assert q * (2 * cfg.window - 1) == q * cfg.window + q * (cfg.window - 1);
    ProductGrows(1, q, cfg.window - 1);
  }

  lemma NarrowGap(cfg: Config)
    requires Paced(cfg) && cfg.refresh + 1 < 2 * cfg.window && 3 * cfg.window <= RESEND_FLOOR + 2
    ensures WorstGap(cfg) <= MAX_AGE && cfg.refresh + cfg.window <= RESEND_FLOOR + 2
  {
  }

  lemma PolicyGap(cfg: Config)
    requires Paced(cfg) && 3 * cfg.window <= RESEND_FLOOR + 2
    ensures Allows(cfg, 0) <==> cfg.refresh + cfg.window <= RESEND_FLOOR + 2
  {
    if 2 * cfg.window <= cfg.refresh + 1 { WideGap(cfg); } else { NarrowGap(cfg); }
  }

  /**
   For every window up to a third of the floor, which all windows the policy admits are, a hub without setbacks
   stays fresh exactly when period and window together fit the floor.
   */
  lemma PolicyFreshness(cfg: Config)
    requires Paced(cfg) && 3 * cfg.window <= RESEND_FLOOR + 2
    ensures StaysFresh(cfg, 0) <==> cfg.refresh + cfg.window <= RESEND_FLOOR + 2
  {
    FreshExactlyWhen(cfg, 0);
    PolicyGap(cfg);
  }

  /** At the default window and period a gap without setbacks can last 31.998 s, well past two ticks. */
  lemma DefaultGapExceedsTwoTicks(p: Presence) returns (run: seq<Timed>, i: nat)
    ensures
      var cfg := Config(2_000, 10_000);
      && Watched(cfg, 5, run, i) && SetbacksFound(cfg, 5, run, i) == 0
      && AgeFound(cfg, 5, run) == 31_998 > 2 * cfg.refresh
  {
    var cfg := Config(2_000, 10_000);
    WideGap(cfg);
    run, i := WorstGapIsReached(cfg, 0, p);
  }

  /** At the default window and period the client's limit allows for no failed read: one takes the gap to 41.998 s. */
  lemma OneFailureGoesStale(p: Presence) returns (run: seq<Timed>, i: nat)
    ensures
      var cfg := Config(2_000, 10_000);
      && StaysFresh(cfg, 0) && !StaysFresh(cfg, 1)
      && Watched(cfg, 5, run, i) && SetbacksFound(cfg, 5, run, i) == 1 && AgeFound(cfg, 5, run) == 41_998
  {
    var cfg := Config(2_000, 10_000);
    WideGap(cfg);
    FreshExactlyWhen(cfg, 0);
    FreshExactlyWhen(cfg, 1);
    run, i := WorstGapIsReached(cfg, 1, p);
  }

  /** At the slowest period the policy admits, the client's limit is passed by more than its double. */
  lemma SlowestPeriodGoesStale(p: Presence) returns (run: seq<Timed>, i: nat)
    ensures
      var cfg := Config(2_000, 60_000);
      && Watched(cfg, 5, run, i) && SetbacksFound(cfg, 5, run, i) == 0
      && AgeFound(cfg, 5, run) == 81_998 > 2 * MAX_AGE
  {
    var cfg := Config(2_000, 60_000);
    WideGap(cfg);
    run, i := WorstGapIsReached(cfg, 0, p);
  }
}
