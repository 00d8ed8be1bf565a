/**
 How long the hub can stay silent.  Timers fire on time and reads settle at once; the age of the last broadcast
 is bounded by the number of reads that brought the connected clients nothing.  HubWorstGap shows that the bound
 is reached.
 */
module HubStaleness {
  import opened Options
  import opened Hub
  import opened HubSafety

  /** No callback runs after a timer was due without the timer having fired. */
  predicate OnTime(s: State, now: int, at: int) {
    && now <= at
    && (s.refresh.Some? ==> at <= s.refresh.value)
    && (s.trailing.Some? ==> at <= s.trailing.value)
  }

  ghost predicate OnTimeRun(cfg: Config, created: nat, run: seq<Timed>)
    decreases |run|
  {
    && ValidRun(cfg, created, run)
    && (run != [] ==>
          var before := run[..|run|-1];
          && OnTimeRun(cfg, created, before)
          && OnTime(After(cfg, created, before), Now(created, before), run[|run|-1].at))
  }

  /** One callback of a hub that somebody watches and whose reads settle before anything else runs. */
  predicate Prompt(cfg: Config, s: State, now: int, at: int, e: Event) {
    && Enabled(s, at, e) && OnTime(s, now, at)
    && !e.Shutdown?
    && (s.computing ==> e.ReadDone? && at == now)
    && Step(cfg, s, at, e).clients != []
  }

  /** A read that brings the connected clients nothing: a joiner begins it for itself, or it fails. */
  predicate Setback(s: State, e: Event, s': State) {
    || (e.Join? && !s.computing && s'.computing)
    || (e == ReadDone(None) && Broadcast in s.waiters)
  }

  ghost predicate PromptAfter(cfg: Config, created: nat, run: seq<Timed>, i: nat)
    requires ValidRun(cfg, created, run)
    decreases |run|
  {
    |run| > i ==>
      var before := run[..|run|-1];
      && PromptAfter(cfg, created, before, i)
      && Prompt(cfg, After(cfg, created, before), Now(created, before), run[|run|-1].at, run[|run|-1].event)
  }

  ghost function Setbacks(cfg: Config, created: nat, run: seq<Timed>, i: nat): nat
    requires ValidRun(cfg, created, run)
    decreases |run|
  {
    if |run| <= i then 0
    else
      var before, last := run[..|run|-1], run[|run|-1];
      Setbacks(cfg, created, before, i)
      + if Setback(After(cfg, created, before), last.event, After(cfg, created, run)) then 1 else 0
  }

  /** A snapshot has just gone out to a live hub. */
  predicate JustBroadcast(s: State, now: int) {
    && s.cached.Some? && s.lastBroadcastSeq == s.seq_ && !s.computing
    && s.lastBroadcastAt == now && s.lastComputeMs == now
    && s.clients != [] && s.refresh.Some?
  }

  // ----- timers -----

  predicate TimersOk(cfg: Config, s: State, now: int) {
    && s.lastComputeMs <= now
    && (s.refresh.Some? ==> now <= s.refresh.value <= now + cfg.refresh)
    && (s.trailing.Some? ==> now <= s.trailing.value <= s.lastComputeMs + cfg.window)
  }

  /** What the awaiters' turn does to the bookkeeping of broadcasts. */
  lemma {:induction false} ResumedBookkeeping(s: State, at: int, ws: seq<Waiter>)
    ensures
      var s' := ResumeAll(s, at, ws);
      && SameCore(s, s')
      && (|| (s'.lastPayload == s.lastPayload && s'.lastBroadcastSeq == s.lastBroadcastSeq
              && s'.lastBroadcastAt == s.lastBroadcastAt)
          || (s'.lastPayload.Some? && s.cached.Some? && Broadcast in ws))
    decreases |ws|
  {
    if ws != [] {
      assert ws == [ws[0]] + ws[1..];
      ResumeSameCore(s, at, ws[0]);
      ResumedBookkeeping(Resume(s, at, ws[0]), at, ws[1..]);
    }
  }

  lemma StepTimers(cfg: Config, s: State, now: int, at: int, e: Event)
    requires Inv(s, s.waiters) && Enabled(s, at, e)
    requires TimersOk(cfg, s, now) && OnTime(s, now, at)
    ensures TimersOk(cfg, Step(cfg, s, at, e), at)
  {
    if e.ReadDone? {
      ReadDoneTimers(cfg, s, now, at, e.result);
    } else if e.Join? {
      JoinTimers(cfg, s, now, at, e);
    }
  }

  lemma ReadDoneTimers(cfg: Config, s: State, now: int, at: int, result: Option<Presence>)
    requires s.outstanding > 0
    requires TimersOk(cfg, s, now) && OnTime(s, now, at)
    ensures TimersOk(cfg, Step(cfg, s, at, ReadDone(result)), at)
  {
    var settled := Settle(s, at, result);
    ResumedBookkeeping(settled, at, s.waiters);
    SameTimers(cfg, settled, ResumeAll(settled, at, s.waiters), at);
  }

  lemma SameTimers(cfg: Config, s: State, s': State, now: int)
    requires TimersOk(cfg, s, now) && SameCore(s, s')
    ensures TimersOk(cfg, s', now)
  {
  }

  lemma JoinTimers(cfg: Config, s: State, now: int, at: int, e: Event)
    requires e.Join? && Enabled(s, at, e)
    requires TimersOk(cfg, s, now) && OnTime(s, now, at)
    ensures TimersOk(cfg, Step(cfg, s, at, e), at)
  {
  }

  lemma {:induction false} TimersHold(cfg: Config, created: nat, run: seq<Timed>)
    requires OnTimeRun(cfg, created, run)
    ensures TimersOk(cfg, After(cfg, created, run), Now(created, run))
    decreases |run|
  {
    if run != [] {
      var before, last := run[..|run|-1], run[|run|-1];
      TimersHold(cfg, created, before);
      ReachableInv(cfg, created, before);
      StepTimers(cfg, After(cfg, created, before), Now(created, before), last.at, last.event);
    }
  }

  // ----- the trailing timer at a broadcast -----

  /** The trailing timer ends the window of the last read, or is due at once. */
  predicate Aligned(cfg: Config, s: State, now: int) {
    s.trailing.Some? ==>
      || s.trailing.value == s.lastComputeMs + cfg.window
      || s.trailing.value == s.lastComputeMs
      || s.trailing.value == now
  }

  /** It is aligned whenever a read is out that will be broadcast, and until the next read after a broadcast. */
  predicate TrailingOk(cfg: Config, s: State, now: int) {
    && (s.lastPayload == None ==> s.lastBroadcastSeq == 0)
    && (s.lastPayload.Some? ==> s.cached.Some?)
    && (s.computing && Broadcast in s.waiters ==> Aligned(cfg, s, now))
    && (s.lastPayload.Some? && s.lastBroadcastAt >= s.lastComputeMs ==> Aligned(cfg, s, now))
  }

  lemma ReadDoneTrailing(cfg: Config, s: State, now: int, at: int, result: Option<Presence>)
    requires Inv(s, s.waiters) && s.outstanding > 0
    requires TimersOk(cfg, s, now) && OnTime(s, now, at) && TrailingOk(cfg, s, now)
    ensures TrailingOk(cfg, Step(cfg, s, at, ReadDone(result)), at)
  {
    ResumedBookkeeping(Settle(s, at, result), at, s.waiters);
  }

  lemma JoinTrailing(cfg: Config, s: State, now: int, at: int, e: Event)
    requires e.Join? && Enabled(s, at, e) && 1 <= cfg.window && (!s.computing ==> s.waiters == [])
    requires TimersOk(cfg, s, now) && OnTime(s, now, at) && TrailingOk(cfg, s, now)
    ensures TrailingOk(cfg, Step(cfg, s, at, e), at)
  {
    SendTrailing(cfg, s, Add(cfg, s, at, e.client), now, at, e.client, e.lastEventId);
  }

  lemma SendTrailing(cfg: Config, s: State, s1: State, now: int, at: int, c: Client, lastEventId: Option<int>)
    requires 1 <= cfg.window && (!s.computing ==> s.waiters == [])
    requires TimersOk(cfg, s, now) && OnTime(s, now, at) && TrailingOk(cfg, s, now)
    requires s1 == s.(clients := s1.clients, inbox := s1.inbox, refresh := s1.refresh)
    ensures TrailingOk(cfg, SendInitial(cfg, s1, at, c, lastEventId), at)
  {
  }

  lemma UpdateTrailing(cfg: Config, s: State, now: int, at: int)
    requires TimersOk(cfg, s, now) && OnTime(s, now, at) && TrailingOk(cfg, s, now)
    ensures TrailingOk(cfg, Step(cfg, s, at, Update), at)
  {
  }

  lemma TimerTrailing(cfg: Config, s: State, now: int, at: int, e: Event)
    requires (e.RefreshTick? || e.TrailingFire?) && Enabled(s, at, e)
    requires TimersOk(cfg, s, now) && OnTime(s, now, at) && TrailingOk(cfg, s, now)
    ensures TrailingOk(cfg, Step(cfg, s, at, e), at)
  {
  }

  lemma OtherTrailing(cfg: Config, s: State, now: int, at: int, e: Event)
    requires (e.Leave? || e.ControlMessage? || e.Shutdown?) && Enabled(s, at, e)
    requires OnTime(s, now, at) && TrailingOk(cfg, s, now)
    ensures TrailingOk(cfg, Step(cfg, s, at, e), at)
  {
  }

  lemma {:induction false} TrailingHolds(cfg: Config, created: nat, run: seq<Timed>)
    requires OnTimeRun(cfg, created, run) && 1 <= cfg.window
    ensures TrailingOk(cfg, After(cfg, created, run), Now(created, run))
    decreases |run|
  {
    if run != [] {
      var before, last := run[..|run|-1], run[|run|-1];
      TrailingHolds(cfg, created, before);
      TimersHold(cfg, created, before);
      ReachableInv(cfg, created, before);
      StepTrailing(cfg, After(cfg, created, before), Now(created, before), last.at, last.event);
    }
  }

  lemma StepTrailing(cfg: Config, s: State, now: int, at: int, e: Event)
    requires Inv(s, s.waiters) && Enabled(s, at, e) && 1 <= cfg.window
    requires TimersOk(cfg, s, now) && OnTime(s, now, at) && TrailingOk(cfg, s, now)
    ensures TrailingOk(cfg, Step(cfg, s, at, e), at)
  {
    if e.ReadDone? {
      ReadDoneTrailing(cfg, s, now, at, e.result);
    } else if e.Join? {
      JoinTrailing(cfg, s, now, at, e);
    } else if e.Update? {
      UpdateTrailing(cfg, s, now, at);
    } else if e.RefreshTick? || e.TrailingFire? {
      TimerTrailing(cfg, s, now, at, e);
    } else {
      OtherTrailing(cfg, s, now, at, e);
    }
  }

  // ----- the bound -----

  /** What the policy admits (packages/domain/src/policy.ts). */
  predicate Paced(cfg: Config) { 1 <= cfg.window <= cfg.refresh }

  function Min(a: int, b: int): int { if a < b then a else b }

  /** The most whole windows that fit below the floor. */
  function WindowsWithin(cfg: Config): int
    requires Paced(cfg)
  {
    (RESEND_FLOOR - 1) / cfg.window
  }

  /** The largest age of the last broadcast that a callback of a smooth hub can find. */
  function WorstGap(cfg: Config): int
    requires Paced(cfg)
  {
    cfg.refresh + cfg.window - 1 + Min(RESEND_FLOOR - 1, WindowsWithin(cfg) * cfg.refresh)
  }

  /**
   The next tick `n` when the last read was at `lc`, the last broadcast at `b` and `reads` periods may have
   been used up by withheld used: a tick inside the window of the last read is skipped, the next one is not.
   */
  predicate Ahead(cfg: Config, lc: int, b: int, n: int, used: int) {
    && (n < lc + cfg.window ==> n - b <= cfg.window - 1 + used)
    && (n >= lc + cfg.window ==>
          && n - b <= cfg.window + cfg.refresh - 1 + used
          && n <= lc + cfg.window - 1 + cfg.refresh)
  }

  /** A tick due together with the armed timer has just been skipped. */
  predicate JustSkipped(cfg: Config, lc: int, b: int, n: int, used: int) {
    && n == lc + cfg.window + cfg.refresh
    && lc + cfg.window - b <= cfg.window + cfg.refresh - 1 + used
  }

  /** Where timers and reads stand between two broadcasts. */
  predicate OnPace(cfg: Config, lc: int, b: int, n: int, trailing: Option<int>, spent: int, used: int) {
    && b <= lc && spent <= lc - b
    && match trailing
       case None => Ahead(cfg, lc, b, n, used)
       case Some(d) =>
         || (d == lc && Ahead(cfg, lc, b, n, used))
         || (d == lc + cfg.window && (Ahead(cfg, lc, b, n, used) || JustSkipped(cfg, lc, b, n, used)))
  }

  /** `k` withheld reads took at least `k` windows, and at most `k` periods of ticks. */
  ghost predicate Counted(cfg: Config, spent: int, used: int) {
    exists k: nat :: spent == k * cfg.window && used == k * cfg.refresh
  }

  lemma CountedMore(cfg: Config, spent: int, used: int)
    requires Counted(cfg, spent, used)
    ensures Counted(cfg, spent + cfg.window, used + cfg.refresh)
  {
    var k: nat :| spent == k * cfg.window && used == k * cfg.refresh;
    assert (k + 1) * cfg.window == k * cfg.window + cfg.window;
    assert (k + 1) * cfg.refresh == k * cfg.refresh + cfg.refresh;
  }

  lemma CountedNone(cfg: Config)
    ensures Counted(cfg, 0, 0)
  {
    var k: nat := 0;
    assert 0 == k * cfg.window && 0 == k * cfg.refresh;
  }

  lemma {:induction false} ProductGrows(a: nat, b: nat, m: nat)
    requires a <= b
    ensures a * m <= b * m
  {
    if a < b {
      ProductGrows(a, b - 1, m);
      assert b * m == (b - 1) * m + m;
    }
  }

  lemma WindowsCount(cfg: Config, k: nat)
    requires Paced(cfg) && k * cfg.window < RESEND_FLOOR
    ensures k <= WindowsWithin(cfg) && k * cfg.refresh <= WindowsWithin(cfg) * cfg.refresh
  {
    var q := WindowsWithin(cfg);
    assert RESEND_FLOOR - 1 < (q + 1) * cfg.window;
    if k > q { ProductGrows(q + 1, k, cfg.window); }
    ProductGrows(k, q, cfg.refresh);
  }

  /** On pace, the next callback comes within a period and a window of `b`, or what was used up later. */
  lemma PaceNear(cfg: Config, lc: int, b: int, n: int, trailing: Option<int>, spent: int, used: int, at: int)
    requires Paced(cfg) && OnPace(cfg, lc, b, n, trailing, spent, used)
    requires at <= n && (trailing.Some? ==> at <= trailing.value)
    ensures at - b <= cfg.refresh + cfg.window - 1 + used
  {
  }

  // ----- one callback -----

  /** What a callback other than a completion does to timers and reads; a joiner's own read is like an update's. */
  datatype Move = Quiet | Arms | Skips | Ticks | Updates | Fires

  predicate Moves(cfg: Config, s: State, s': State, at: int, m: Move) {
    match m
    case Quiet => s'.lastComputeMs == s.lastComputeMs && s'.refresh == s.refresh && s'.trailing == s.trailing
    case Arms =>
      && s'.lastComputeMs == s.lastComputeMs && s'.refresh == s.refresh
      && s.trailing.None? && s'.trailing == Some(s.lastComputeMs + cfg.window)
    case Skips =>
      && s'.lastComputeMs == s.lastComputeMs && s.refresh == Some(at) && s'.refresh == Some(at + cfg.refresh)
      && s'.trailing == s.trailing && (s.trailing.Some? || at < s.lastComputeMs + cfg.window)
    case Ticks =>
      && s'.lastComputeMs == at && s.refresh == Some(at) && s'.refresh == Some(at + cfg.refresh)
      && s.trailing.None? && s'.trailing.None? && at >= s.lastComputeMs + cfg.window
    case Updates =>
      && s'.lastComputeMs == at && s'.refresh == s.refresh && s'.trailing == s.trailing
      && at >= s.lastComputeMs + cfg.window
    case Fires =>
      s'.lastComputeMs == at && s'.refresh == s.refresh && s.trailing == Some(at) && s'.trailing.None?
  }

  predicate Reads(m: Move) { m.Ticks? || m.Updates? || m.Fires? }

  lemma PromptMoves(cfg: Config, s: State, now: int, at: int, e: Event) returns (m: Move)
    requires Prompt(cfg, s, now, at, e) && !e.ReadDone? && s.refresh.Some? && s.cached.Some?
    requires TimersOk(cfg, s, now)
    ensures
      var s' := Step(cfg, s, at, e);
      && Moves(cfg, s, s', at, m)
      && s'.lastBroadcastAt == s.lastBroadcastAt && s'.cached.Some? && s'.refresh.Some?
      && (s'.computing <==> Reads(m)) && (s'.computing && !e.Join? ==> Broadcast in s'.waiters)
      && (s'.computing && e.Join? ==> Broadcast !in s'.waiters && at >= s.lastComputeMs + cfg.window)
      && (Setback(s, e, s') <==> e.Join? && Reads(m))
  {
    var s' := Step(cfg, s, at, e);
    m := match e
      case Join(_, _) => if s'.computing then Updates else Quiet
      case Update => if s'.computing then Updates else if s'.trailing != s.trailing then Arms else Quiet
      case RefreshTick => if s'.computing then Ticks else Skips
      case TrailingFire => Fires
      case _ => Quiet;
    assert !s.computing;
  }

  /** A new read takes up a window of time, and a period of ticks, when it comes a window or more after the last. */
  predicate Takes(cfg: Config, s: State, at: int, m: Move) { Reads(m) && at >= s.lastComputeMs + cfg.window }

  /** The pace is kept by every move; a read that takes its window is counted. */
  lemma MoveKeepsPace(cfg: Config, s: State, s': State, now: int, at: int, m: Move, b: int, spent: int, used: int)
    requires Paced(cfg) && s.refresh.Some? && s'.refresh.Some? && Moves(cfg, s, s', at, m)
    requires TimersOk(cfg, s, now) && OnTime(s, now, at)
    requires OnPace(cfg, s.lastComputeMs, b, s.refresh.value, s.trailing, spent, used)
    ensures
      var takes := Takes(cfg, s, at, m);
      OnPace(cfg, s'.lastComputeMs, b, s'.refresh.value, s'.trailing,
             spent + (if takes then cfg.window else 0), used + if takes then cfg.refresh else 0)
    ensures !Reads(m) ==> s'.lastComputeMs == s.lastComputeMs
  {
  }

  // ----- whole runs -----

  /**
   The account of a stretch since its last broadcast: what withheld reads spent of the floor and used up of
   periods, when the last of them was, the setbacks and what they used up, and whether the read in flight takes
   its window.
   */
  datatype Pace = Pace(spent: int, used: int, withheld: int, setbacks: nat, lost: int, takes: bool)

  /** A setback is counted, and costs a period. */
  predicate Charged(cfg: Config, p: Pace, p': Pace, setback: bool) {
    && p'.setbacks == p.setbacks + (if setback then 1 else 0)
    && p'.lost == p.lost + if setback then cfg.refresh else 0
  }

  ghost predicate Kept(cfg: Config, s: State, p: Pace)
    requires s.refresh.Some?
  {
    var w, r := if p.takes then cfg.window else 0, if p.takes then cfg.refresh else 0;
    && Counted(cfg, p.spent, p.used) && p.spent < RESEND_FLOOR && p.lost >= 0
    && p.withheld - s.lastBroadcastAt < RESEND_FLOOR
    && OnPace(cfg, s.lastComputeMs, s.lastBroadcastAt, s.refresh.value, s.trailing, p.spent + w, p.used + p.lost + r)
    && OnPace(cfg, s.lastComputeMs, p.withheld, s.refresh.value, s.trailing, 0, p.lost + r)
  }

  ghost predicate Steady(cfg: Config, s: State, now: int, p: Pace)
    requires Paced(cfg)
  {
    && Inv(s, s.waiters) && TimersOk(cfg, s, now) && s.cached.Some? && s.refresh.Some?
    && Kept(cfg, s, p)
    && (s.computing ==> s.lastComputeMs == now && now - s.lastBroadcastAt <= WorstGap(cfg) + p.lost)
    && (p.takes ==> s.computing && Broadcast in s.waiters)
  }

  /** Between reads, the next callback comes within the worst gap and what setbacks cost. */
  lemma PaceBoundsAge(cfg: Config, s: State, now: int, p: Pace, at: int)
    requires Paced(cfg) && Steady(cfg, s, now, p) && !p.takes && OnTime(s, now, at)
    ensures at - s.lastBroadcastAt <= WorstGap(cfg) + p.lost
  {
    var k: nat :| p.spent == k * cfg.window && p.used == k * cfg.refresh;
    WindowsCount(cfg, k);
    PaceNear(cfg, s.lastComputeMs, s.lastBroadcastAt, s.refresh.value, s.trailing, p.spent, p.used + p.lost, at);
    PaceNear(cfg, s.lastComputeMs, p.withheld, s.refresh.value, s.trailing, 0, p.lost, at);
  }

  lemma JustBroadcastIsSteady(cfg: Config, s: State, now: int)
    requires Paced(cfg)
    requires Inv(s, s.waiters) && TimersOk(cfg, s, now) && TrailingOk(cfg, s, now) && JustBroadcast(s, now)
    ensures Steady(cfg, s, now, Pace(0, 0, now, 0, 0, false))
  {
    CountedNone(cfg);
  }

  /** A successful read someone broadcasts for either goes out now or is younger than the floor. */
  lemma {:induction false} ReadSettlesAge(s: State, at: int, ws: seq<Waiter>)
    requires Inv(s, ws) && !s.computing && s.lastComputeSucceeded && Broadcast in ws
    requires s.lastBroadcastSeq < s.seq_ && s.lastBroadcastAt <= at
    ensures
      var s' := ResumeAll(s, at, ws);
      s'.lastBroadcastAt == at || (s'.lastBroadcastAt == s.lastBroadcastAt && at - s.lastBroadcastAt < RESEND_FLOOR)
    decreases |ws|
  {
    assert ws == [ws[0]] + ws[1..];
    var s1 := Resume(s, at, ws[0]);
    ResumeDelivers(s, at, ws[0], ws[1..]);
    if ws[0].Broadcast? {
      if s.degraded || !Suppressed(s, at) {
        QuietAfterShow(s1, at, ws[1..]);
      } else if Broadcast in ws[1..] {
        ReadSettlesAge(s1, at, ws[1..]);
      } else {
        OnlyFirstFrames(s1, at, ws[1..]);
      }
    } else {
      ReadSettlesAge(s1, at, ws[1..]);
    }
  }

  /** A read that fails announces no snapshot. */
  lemma {:induction false} FailureShowsNothing(s: State, at: int, ws: seq<Waiter>)
    requires !s.lastComputeSucceeded
    ensures ResumeAll(s, at, ws).lastBroadcastAt == s.lastBroadcastAt
    decreases |ws|
  {
    if ws != [] {
      ResumeSameCore(s, at, ws[0]);
      FailureShowsNothing(Resume(s, at, ws[0]), at, ws[1..]);
    }
  }

  /** A read that begins the account anew is on pace with itself. */
  lemma PaceAnew(cfg: Config, lc: int, b: int, n: int, trailing: Option<int>, spent: int, used: int, lost: int)
    requires Paced(cfg) && OnPace(cfg, lc, b, n, trailing, spent, used) && lost >= 0
    ensures OnPace(cfg, lc, lc, n, trailing, 0, lost)
  {
  }

  lemma KeptAfterRead(cfg: Config, s: State, now: int, s': State, p: Pace) returns (p': Pace)
    requires Paced(cfg) && s.refresh.Some? && Kept(cfg, s, p) && s.lastComputeMs == now && SameTiming(s, s')
    requires s'.lastBroadcastAt == now || (s'.lastBroadcastAt == s.lastBroadcastAt && now - s.lastBroadcastAt < RESEND_FLOOR)
    ensures Kept(cfg, s', p') && Charged(cfg, p, p', false) && !p'.takes
  {
    var w, r := if p.takes then cfg.window else 0, if p.takes then cfg.refresh else 0;
    PaceAnew(cfg, now, s.lastBroadcastAt, s.refresh.value, s.trailing, p.spent + w, p.used + p.lost + r, p.lost);
    CountedNone(cfg);
    if p.takes { CountedMore(cfg, p.spent, p.used); }
    var shown := s'.lastBroadcastAt == now;
    p' := p.(spent := if shown then 0 else p.spent + w, used := if shown then 0 else p.used + r, withheld := now, takes := false);
  }

  function SetBack(cfg: Config, p: Pace): Pace {
    p.(setbacks := p.setbacks + 1, lost := p.lost + cfg.refresh, takes := false)
  }

  lemma KeptAfterSetback(cfg: Config, s: State, s': State, p: Pace)
    requires Paced(cfg) && s.refresh.Some? && Kept(cfg, s, p)
    requires SameTiming(s, s') && s'.lastBroadcastAt == s.lastBroadcastAt
    ensures Kept(cfg, s', SetBack(cfg, p))
    ensures !p.takes ==> Kept(cfg, s', p)
  {
  }

  /** What a read leaves: it is over, no timer moved, and what it had to show is out or younger than the floor. */
  ghost predicate Left(s: State, s': State, now: int, shows: bool) {
    && Inv(s', s'.waiters) && !s'.computing && SameTiming(s, s') && s'.cached.Some? == s.cached.Some?
    && if shows then
         || s'.lastBroadcastAt == now
         || (s'.lastBroadcastAt == s.lastBroadcastAt && now - s.lastBroadcastAt < RESEND_FLOOR)
       else s'.lastBroadcastAt == s.lastBroadcastAt
  }

  lemma AwaitersLeave(s: State, now: int, ws: seq<Waiter>)
    requires Inv(s, ws) && !s.computing && s.lastBroadcastAt <= now
    requires Broadcast in ws && s.lastComputeSucceeded ==> s.lastBroadcastSeq < s.seq_
    ensures Left(s, ResumeAll(s, now, ws), now, Broadcast in ws && s.lastComputeSucceeded)
  {
    ResumeAllDelivers(s, now, ws);
    if Broadcast !in ws {
      ResumedBookkeeping(s, now, ws);
    } else if s.lastComputeSucceeded {
      ReadSettlesAge(s, now, ws);
    } else {
      FailureShowsNothing(s, now, ws);
    }
  }

  lemma KeptMove(cfg: Config, s: State, s': State, now: int, at: int, m: Move, p: Pace)
    requires Paced(cfg) && s.refresh.Some? && s'.refresh.Some? && Moves(cfg, s, s', at, m)
    requires TimersOk(cfg, s, now) && OnTime(s, now, at) && Kept(cfg, s, p) && !p.takes
    requires s'.lastBroadcastAt == s.lastBroadcastAt
    ensures Kept(cfg, s', p.(takes := Takes(cfg, s, at, m)))
  {
    MoveKeepsPace(cfg, s, s', now, at, m, s.lastBroadcastAt, p.spent, p.used + p.lost);
    MoveKeepsPace(cfg, s, s', now, at, m, p.withheld, 0, p.lost);
  }

  predicate SameTiming(s: State, s': State) {
    s'.lastComputeMs == s.lastComputeMs && s'.trailing == s.trailing && s'.refresh == s.refresh
  }

  predicate SameHistory(s: State, s': State) {
    SameTiming(s, s') && s'.lastBroadcastAt == s.lastBroadcastAt && s.cached.Some? && s'.cached.Some?
  }

  lemma SettleReady(s: State, now: int, result: Option<Presence>)
    requires Inv(s, s.waiters) && s.computing && s.cached.Some?
    ensures
      var s1 := Settle(s, now, result);
      && Inv(s1, s.waiters) && !s1.computing && SameHistory(s, s1)
      && (s1.lastComputeSucceeded <==> result.Some?) && (result.Some? ==> s1.lastBroadcastSeq < s1.seq_)
  {
    SettleKeeps(s, now, result);
  }

  lemma LeftSince(s: State, s1: State, s': State, now: int, shows: bool)
    requires SameHistory(s, s1) && Left(s1, s', now, shows)
    ensures Left(s, s', now, shows)
  {
  }

  lemma ReadDoneLeaves(cfg: Config, s: State, now: int, result: Option<Presence>)
    requires Inv(s, s.waiters) && s.computing && s.cached.Some? && s.lastBroadcastAt <= now
    ensures Left(s, Step(cfg, s, now, ReadDone(result)), now, Broadcast in s.waiters && result.Some?)
  {
    SettleReady(s, now, result);
    var s1 := Settle(s, now, result);
    AwaitersLeave(s1, now, s.waiters);
    LeftSince(s, s1, ResumeAll(s1, now, s.waiters), now, Broadcast in s.waiters && result.Some?);
  }

  lemma SteadyReadDone(cfg: Config, s: State, now: int, result: Option<Presence>, p: Pace) returns (p': Pace)
    requires Paced(cfg) && Steady(cfg, s, now, p) && s.computing
    requires TimersOk(cfg, Step(cfg, s, now, ReadDone(result)), now)
    ensures Steady(cfg, Step(cfg, s, now, ReadDone(result)), now, p')
    ensures Charged(cfg, p, p', Setback(s, ReadDone(result), Step(cfg, s, now, ReadDone(result))))
  {
    ReadDoneLeaves(cfg, s, now, result);
    var s' := Step(cfg, s, now, ReadDone(result));
    if Broadcast in s.waiters && result.Some? {
      p' := KeptAfterRead(cfg, s, now, s', p);
    } else {
      KeptAfterSetback(cfg, s, s', p);
      p' := if Broadcast in s.waiters then SetBack(cfg, p) else p;
    }
  }

  lemma SteadyMove(cfg: Config, s: State, now: int, at: int, e: Event, p: Pace) returns (p': Pace)
    requires Paced(cfg) && Steady(cfg, s, now, p) && Prompt(cfg, s, now, at, e) && !e.ReadDone?
    requires var s' := Step(cfg, s, at, e); Inv(s', s'.waiters) && TimersOk(cfg, s', at)
    requires at - s.lastBroadcastAt <= WorstGap(cfg) + p.lost
    ensures Steady(cfg, Step(cfg, s, at, e), at, p')
    ensures Charged(cfg, p, p', Setback(s, e, Step(cfg, s, at, e)))
  {
    var m := PromptMoves(cfg, s, now, at, e);
    var s' := Step(cfg, s, at, e);
    KeptMove(cfg, s, s', now, at, m, p);
    p' := p.(takes := Takes(cfg, s, at, m));
    if Setback(s, e, s') {
      KeptAfterSetback(cfg, s', s', p');
      p' := SetBack(cfg, p');
    }
  }

  lemma SteadyStep(cfg: Config, s: State, now: int, at: int, e: Event, s': State, p: Pace) returns (p': Pace)
    requires Paced(cfg) && Steady(cfg, s, now, p) && Prompt(cfg, s, now, at, e) && s' == Step(cfg, s, at, e)
    ensures at - s.lastBroadcastAt <= WorstGap(cfg) + p.lost
    ensures Steady(cfg, s', at, p') && Charged(cfg, p, p', Setback(s, e, s'))
  {
    StepKeeps(cfg, s, at, e);
    StepTimers(cfg, s, now, at, e);
    if e.ReadDone? {
      p' := SteadyReadDone(cfg, s, now, e.result, p);
    } else {
      PaceBoundsAge(cfg, s, now, p, at);
      p' := SteadyMove(cfg, s, now, at, e, p);
    }
  }

  /** A run that is on time, just after a broadcast at `i`, and prompt from there on. */
  ghost predicate Watched(cfg: Config, created: nat, run: seq<Timed>, i: nat) {
    && OnTimeRun(cfg, created, run) && i < |run|
    && ValidRun(cfg, created, run[..i]) && JustBroadcast(After(cfg, created, run[..i]), Now(created, run[..i]))
    && PromptAfter(cfg, created, run, i)
  }

  /** The age of the last broadcast, as the last callback of the run finds it. */
  ghost function AgeFound(cfg: Config, created: nat, run: seq<Timed>): int
    requires ValidRun(cfg, created, run) && run != []
  {
    run[|run|-1].at - After(cfg, created, run[..|run|-1]).lastBroadcastAt
  }

  /** The setbacks since the broadcast that the last callback of the run finds behind it. */
  ghost function SetbacksFound(cfg: Config, created: nat, run: seq<Timed>, i: nat): nat
    requires ValidRun(cfg, created, run) && run != []
  {
    Setbacks(cfg, created, run[..|run|-1], i)
  }

  lemma SteadyStart(cfg: Config, created: nat, run: seq<Timed>) returns (p: Pace)
    requires Paced(cfg) && OnTimeRun(cfg, created, run)
    requires JustBroadcast(After(cfg, created, run), Now(created, run))
    ensures Steady(cfg, After(cfg, created, run), Now(created, run), p) && p.setbacks == 0 && Billed(cfg, p)
  {
    ReachableInv(cfg, created, run);
    TimersHold(cfg, created, run);
    TrailingHolds(cfg, created, run);
    p := Pace(0, 0, Now(created, run), 0, 0, false);
    JustBroadcastIsSteady(cfg, After(cfg, created, run), Now(created, run));
  }

  lemma {:induction false} SteadyRun(cfg: Config, created: nat, run: seq<Timed>, i: nat) returns (p: Pace)
    requires Paced(cfg) && OnTimeRun(cfg, created, run) && i <= |run|
    requires ValidRun(cfg, created, run[..i]) && JustBroadcast(After(cfg, created, run[..i]), Now(created, run[..i]))
    requires PromptAfter(cfg, created, run, i)
    ensures Steady(cfg, After(cfg, created, run), Now(created, run), p)
    ensures p.setbacks == Setbacks(cfg, created, run, i) && Billed(cfg, p)
    decreases |run|
  {
    if |run| == i {
      assert run[..i] == run;
      p := SteadyStart(cfg, created, run);
    } else {
      var before, last := run[..|run|-1], run[|run|-1];
      assert before[..i] == run[..i];
      var q := SteadyRun(cfg, created, before, i);
      var s, s' := After(cfg, created, before), After(cfg, created, run);
      p := SteadyStep(cfg, s, Now(created, before), last.at, last.event, s', q);
      ChargedIsBilled(cfg, q, p, Setback(s, last.event, s'));
    }
  }

  predicate Billed(cfg: Config, p: Pace) { p.lost == p.setbacks * cfg.refresh }

  lemma ChargedIsBilled(cfg: Config, p: Pace, p': Pace, setback: bool)
    requires Billed(cfg, p) && Charged(cfg, p, p', setback)
    ensures Billed(cfg, p')
  {
    assert (p.setbacks + 1) * cfg.refresh == p.setbacks * cfg.refresh + cfg.refresh;
  }

  /**
   The staleness bound.  From a broadcast on, no callback (the one that makes the next broadcast included) finds
   the last broadcast older than the worst gap and a period for each setback in between.
   */
  lemma {:induction false} StalenessBound(cfg: Config, created: nat, run: seq<Timed>, i: nat)
    requires Paced(cfg) && Watched(cfg, created, run, i)
    ensures AgeFound(cfg, created, run) <= WorstGap(cfg) + SetbacksFound(cfg, created, run, i) * cfg.refresh
  {
    var before, last := run[..|run|-1], run[|run|-1];
    assert before[..i] == run[..i];
    var q := SteadyRun(cfg, created, before, i);
    var s, s' := After(cfg, created, before), After(cfg, created, run);
    var p := SteadyStep(cfg, s, Now(created, before), last.at, last.event, s', q);
  }
}
