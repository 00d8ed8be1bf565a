/**
 Why the staleness bound counts the reads that joining clients make for themselves: each can cost a period, and
 nothing limits their number.
 */
module HubStarvation {
  import opened Options
  import opened Hub
  import opened HubSafety
  import opened HubStaleness
  import opened HubWorstGap

  /**
   Between two ticks of a hub nobody touches, its last read a window or more before a joiner's next; `k` bounds
   the identities used so far.
   */
  predicate Idle(cfg: Config, s: State, now: int, k: nat) {
    && s.cached.Some? && !s.computing && s.waiters == [] && s.outstanding == 0
    && s.clients != [] && s.trailing.None? && s.refresh == Some(now + cfg.refresh)
    && (s.lastComputeMs == now - 1 || (s.lastComputeMs == now && cfg.window < cfg.refresh))
    && forall c :: c in s.inbox ==> c.key < k
  }

  /** The hub `s` after a joiner's own read a millisecond before the tick due at `t`. */
  predicate Visited(s: State, s': State, t: int, k: nat) {
    && s'.refresh == Some(t) && s'.trailing.None? && s'.clients != []
    && s'.lastComputeMs == t - 1 && !s'.computing && s'.waiters == [] && s'.outstanding == 0 && s'.cached.Some?
    && s'.lastBroadcastAt == s.lastBroadcastAt && s'.news == s.news
    && forall c :: c in s'.inbox ==> c.key < k
  }

  lemma OneJoinerRead(cfg: Config, s: State, now: int, k: nat, p: Presence)
    requires 2 <= cfg.window <= cfg.refresh && Idle(cfg, s, now, k)
    ensures
      var t := now + cfg.refresh;
      && Enabled(s, t - 1, Join(Stranger(k), None)) && OnTime(s, now, t - 1)
      && var s1 := Step(cfg, s, t - 1, Join(Stranger(k), None));
      && Enabled(s1, t - 1, ReadDone(Some(p))) && OnTime(s1, t - 1, t - 1)
      && Visited(s, Step(cfg, s1, t - 1, ReadDone(Some(p))), t, k + 1)
  {
    var t := now + cfg.refresh;
    var s1 := Step(cfg, s, t - 1, Join(Stranger(k), None));
    var settled := Settle(s1, t - 1, Some(p));
    assert ResumeAll(settled, t - 1, [Initial(Stranger(k))]) == FirstFrame(settled, Stranger(k)) by {
      assert [Initial(Stranger(k))][1..] == [];
    }
    var f := Snapshot(settled.seq_, p, t - 1);
    assert FanOut(settled.inbox, [Stranger(k)], f) == Deliver(settled.inbox, Stranger(k), f) by {
      assert [Stranger(k)][..0] == [];
    }
  }

  lemma SkippedTick(cfg: Config, s0: State, s: State, t: int, k: nat)
    requires 2 <= cfg.window && Visited(s0, s, t, k)
    ensures Enabled(s, t, RefreshTick) && OnTime(s, t - 1, t)
    ensures var s' := Step(cfg, s, t, RefreshTick);
            Idle(cfg, s', t, k) && s'.lastBroadcastAt == s0.lastBroadcastAt && s'.news == s0.news
  {
  }

  /**
   A refresh period of three on-time callbacks (a joiner a millisecond before the tick, its instant read,
   the tick) that leads from `s` to `s3` without one announcement.
   */
  ghost predicate SilentRound(cfg: Config, s: State, now: int, k: nat, p: Presence, s3: State) {
    var t := now + cfg.refresh;
    && Enabled(s, t - 1, Join(Stranger(k), None)) && OnTime(s, now, t - 1)
    && var s1 := Step(cfg, s, t - 1, Join(Stranger(k), None));
    && Enabled(s1, t - 1, ReadDone(Some(p))) && OnTime(s1, t - 1, t - 1)
    && var s2 := Step(cfg, s1, t - 1, ReadDone(Some(p)));
    && Enabled(s2, t, RefreshTick) && OnTime(s2, t - 1, t)
    && s3 == Step(cfg, s2, t, RefreshTick)
    && s3.clients != [] && s3.news == s.news && s3.lastBroadcastAt == s.lastBroadcastAt
  }

  /** `n` such periods in a row. */
  ghost predicate SilentFor(cfg: Config, s: State, now: int, k: nat, p: Presence, n: nat)
    decreases n
  {
    n == 0 ||
    exists s3 :: SilentRound(cfg, s, now, k, p, s3) && SilentFor(cfg, s3, now + cfg.refresh, k + 1, p, n - 1)
  }

  lemma OneSilentRound(cfg: Config, s: State, now: int, k: nat, p: Presence) returns (s3: State)
    requires 2 <= cfg.window <= cfg.refresh && Idle(cfg, s, now, k)
    ensures SilentRound(cfg, s, now, k, p, s3) && Idle(cfg, s3, now + cfg.refresh, k + 1)
  {
    var t := now + cfg.refresh;
    OneJoinerRead(cfg, s, now, k, p);
    var s2 := Step(cfg, Step(cfg, s, t - 1, Join(Stranger(k), None)), t - 1, ReadDone(Some(p)));
    SkippedTick(cfg, s, s2, t, k + 1);
    s3 := Step(cfg, s2, t, RefreshTick);
  }

  /**
   Without a limit on joiners there is no bound: a client that stays connected to a hub whose
   timers fire on time and whose reads succeed at once can be left without a broadcast for any number
   of refresh periods, because each joiner's own read makes the next tick skip.
   */
  lemma {:induction false} JoinersStarveTheHub(cfg: Config, s: State, now: int, k: nat, p: Presence, n: nat)
    requires 2 <= cfg.window <= cfg.refresh && Idle(cfg, s, now, k)
    ensures SilentFor(cfg, s, now, k, p, n)
    decreases n
  {
    if n > 0 {
      var s3 := OneSilentRound(cfg, s, now, k, p);
      JoinersStarveTheHub(cfg, s3, now + cfg.refresh, k + 1, p, n - 1);
    }
  }

  /** On time from a new hub to an idle one. */
  ghost predicate IdleBy(cfg: Config, legs: seq<Leg>, now: int, k: nat) {
    Goes(cfg, Fresh(5), 5, legs) && TimeOf(5, legs) == now && Idle(cfg, EndOf(Fresh(5), legs), now, k)
  }

  lemma FirstServed(cfg: Config, s: State, p: Presence)
    requires FirstRead(s, 5, 5 + cfg.refresh, Stranger(0)) && cfg.window < cfg.refresh
    ensures Idle(cfg, Step(cfg, s, 5, ReadDone(Some(p))), 5, 1)
  {
    var settled := Settle(s, 5, Some(p));
    OneAwaiter(settled, 5, Initial(Stranger(0)));
    FirstFrameKeys(settled, Stranger(0));
  }

  lemma ServedAtOnce(cfg: Config, p: Presence) returns (legs: seq<Leg>)
    requires cfg.window < cfg.refresh
    ensures IdleBy(cfg, legs, 5, 1)
  {
    FirstJoins(cfg);
    legs := GoOn(cfg, Fresh(5), 5, [], 5, Join(Stranger(0), None));
    FirstServed(cfg, EndOf(Fresh(5), legs), p);
    legs := GoOn(cfg, Fresh(5), 5, legs, 5, ReadDone(Some(p)));
  }

  lemma PrimedIsIdle(cfg: Config, legs: seq<Leg>, now: int)
    requires PrimedBy(cfg, legs, now, now - 1, now + cfg.refresh)
    ensures IdleBy(cfg, legs, now, 2)
  {
  }

  /**
   Such a hub is reached on time for every window and period: by one client and an instant read, or, when the
   two are equal, by a first read that fails and a second client right before the first tick.
   */
  lemma IdleIsReachable(cfg: Config, p: Presence) returns (run: seq<Timed>, k: nat)
    requires 2 <= cfg.window <= cfg.refresh
    ensures OnTimeRun(cfg, 5, run) && Idle(cfg, After(cfg, 5, run), Now(5, run), k)
  {
    var legs, n := [], 5 + cfg.refresh;
    if cfg.window < cfg.refresh {
      legs := ServedAtOnce(cfg, p);
      k := 1;
    } else {
      legs := PrimedAt(cfg, n - 1, n, p);
      legs := SkipPrimed(cfg, legs, n - 1, n - 1, n, n + cfg.refresh);
      PrimedIsIdle(cfg, legs, n);
      k := 2;
    }
    run := IdleAsRun(cfg, legs, if k == 1 then 5 else n, k);
  }

  lemma IdleAsRun(cfg: Config, legs: seq<Leg>, now: int, k: nat) returns (run: seq<Timed>)
    requires IdleBy(cfg, legs, now, k)
    ensures OnTimeRun(cfg, 5, run) && Idle(cfg, After(cfg, 5, run), Now(5, run), k)
  {
    GoesAsRun(cfg, 5, legs);
    run := EventsOf(legs);
  }
}
