/**
 How soon a revoked stream is cut (apps/realtime/src/stream.ts) when no control message arrives: its events on a
 clock, with the interval timer on time and every epoch question answered within a given delay.
 */
module StreamTiming {
  import opened Options
  import opened Streams
  import Hub

  datatype Timed = Timed(at: int, event: Event)

  /** The check interval, and how long an epoch question may take, in milliseconds. */
  datatype Pace = Pace(interval: nat, delay: nat)

  /** A stream with the time of its last event, its next tick, and when each open question was asked. */
  datatype Watch = Watch(s: State, now: int, due: int, asked: map<nat, int>)

  /** A connection whose interval timer starts at `at`; the epochs may have moved since it was accepted. */
  function Opened(pace: Pace, at: int, liveSubject: nat, liveSite: nat): Watch {
    Watch(State(EMPTY, liveSubject, liveSite, map[], [], []), at, at + pace.interval, map[])
  }

  /** Neither closed nor asked to close. */
  predicate Open(w: Watch) { !w.s.pipe.isClosed && w.s.pipe.closeAt.None? }

  /** The next event may run at `at`: no tick of an open connection is overdue, and no answer. */
  predicate InTime(pace: Pace, w: Watch, at: int, e: Event) {
    && Enabled(w.s, e) && w.now <= at
    && (!w.s.pipe.isClosed ==> at <= w.due)
    && (forall t :: t in w.asked ==> at <= w.asked[t] + pace.delay)
    && (e.TickStart? ==> !w.s.pipe.isClosed && w.due <= at)
  }

  function Asked(w: Watch, s': State, at: int, e: Event): map<nat, int> {
    match e
    case TickStart(t) => w.asked[t := at]
    case SubjectAnswer(t, _, _) => if t in s'.checks then w.asked[t := at] else w.asked - {t}
    case SiteAnswer(t, _, _) => w.asked - {t}
    case _ => w.asked
  }

  function TimedStep(c: Claims, pace: Pace, w: Watch, at: int, e: Event): Watch
    requires Enabled(w.s, e)
  {
    var s' := Step(c, w.s, e);
    Watch(s', at, if e.TickStart? then at + pace.interval else w.due, Asked(w, s', at, e))
  }

  /** The watch after a run from `w`, or None if the run is impossible or out of time. */
  function Later(c: Claims, pace: Pace, w: Watch, run: seq<Timed>): Option<Watch> {
    if run == [] then Some(w)
    else
      var before, last := Later(c, pace, w, run[..|run|-1]), run[|run|-1];
      if before.Some? && InTime(pace, before.value, last.at, last.event)
      then Some(TimedStep(c, pace, before.value, last.at, last.event)) else None
  }

  /** The events of a timed run are a run of the stream, so all that holds of those holds here. */
  lemma {:induction false} LaterIsRun(
    c: Claims, pace: Pace, start: int, liveSubject: nat, liveSite: nat, run: seq<Timed>)
    requires Later(c, pace, Opened(pace, start, liveSubject, liveSite), run).Some?
    ensures
      After(c, liveSubject, liveSite, Events(run))
        == Some(Later(c, pace, Opened(pace, start, liveSubject, liveSite), run).value.s)
    decreases |run|
  {
    if run != [] {
      LaterIsRun(c, pace, start, liveSubject, liveSite, run[..|run|-1]);
      assert Events(run)[..|Events(run)|-1] == Events(run[..|run|-1]);
    }
  }

  function Events(run: seq<Timed>): seq<Event> {
    seq(|run|, i requires 0 <= i < |run| => run[i].event)
  }

  // ----- what the clock keeps -----

  ghost predicate Kept(pace: Pace, w: Watch) {
    && w.asked.Keys == w.s.checks.Keys
    && (!w.s.pipe.isClosed ==> w.now <= w.due <= w.now + pace.interval)
  }

  lemma StepKept(c: Claims, pace: Pace, w: Watch, at: int, e: Event)
    requires Kept(pace, w) && InTime(pace, w, at, e)
    ensures Kept(pace, TimedStep(c, pace, w, at, e))
  {
  }

  lemma {:induction false} LaterKept(c: Claims, pace: Pace, w: Watch, run: seq<Timed>)
    requires Kept(pace, w) && Later(c, pace, w, run).Some?
    ensures Kept(pace, Later(c, pace, w, run).value)
    decreases |run|
  {
    if run != [] {
      LaterKept(c, pace, w, run[..|run|-1]);
      StepKept(c, pace, Later(c, pace, w, run[..|run|-1]).value, run[|run|-1].at, run[|run|-1].event);
    }
  }

  // ----- revoked by the site's epoch -----

  /** Since `since` the site's epoch is past the claims: a check that will find out is open, or the next tick is near. */
  ghost predicate SiteCaught(c: Claims, pace: Pace, w: Watch, since: int) {
    && w.s.liveSite > c.siteEpoch && Kept(pace, w)
    && (Open(w) ==> w.due <= since + pace.interval || exists t :: SiteWatches(c, pace, w, since, t))
  }

  predicate SiteWatches(c: Claims, pace: Pace, w: Watch, since: int, t: nat) {
    && t in w.s.checks && t in w.asked
    && match w.s.checks[t]
       case AskedSubject(_) => w.asked[t] <= since + pace.interval
       case AskedSite(_, site) => site > c.siteEpoch && w.asked[t] <= since + pace.interval + pace.delay
  }

  lemma StepSiteCaught(c: Claims, pace: Pace, w: Watch, since: int, at: int, e: Event)
    requires SiteCaught(c, pace, w, since) && InTime(pace, w, at, e)
    ensures SiteCaught(c, pace, TimedStep(c, pace, w, at, e), since)
    ensures Open(w) ==> at <= since + pace.interval + 2 * pace.delay
  {
    var w' := TimedStep(c, pace, w, at, e);
    StepKept(c, pace, w, at, e);
    if Open(w) && Open(w') {
      if e.TickStart? && w.due <= since + pace.interval {
        assert SiteWatches(c, pace, w', since, e.tick);
      } else if w.due > since + pace.interval {
        var t :| SiteWatches(c, pace, w, since, t);
        assert SiteWatches(c, pace, w', since, t);
      }
    }
  }

  // ----- revoked by the subject's epoch -----

  ghost predicate SubjectCaught(c: Claims, pace: Pace, w: Watch, since: int) {
    && w.s.liveSubject > c.epoch && Kept(pace, w)
    && (Open(w) ==> w.due <= since + pace.interval || exists t :: SubjectWatches(c, pace, w, since, t))
  }

  predicate SubjectWatches(c: Claims, pace: Pace, w: Watch, since: int, t: nat) {
    && t in w.s.checks && t in w.asked
    && w.s.checks[t].AskedSubject? && w.s.checks[t].subjectLive > c.epoch && w.asked[t] <= since + pace.interval
  }

  lemma StepSubjectCaught(c: Claims, pace: Pace, w: Watch, since: int, at: int, e: Event)
    requires SubjectCaught(c, pace, w, since) && InTime(pace, w, at, e)
    ensures SubjectCaught(c, pace, TimedStep(c, pace, w, at, e), since)
    ensures Open(w) ==> at <= since + pace.interval + pace.delay
  {
    var w' := TimedStep(c, pace, w, at, e);
    StepKept(c, pace, w, at, e);
    if Open(w) && Open(w') {
      if e.TickStart? && w.due <= since + pace.interval {
        assert SubjectWatches(c, pace, w', since, e.tick);
      } else if w.due > since + pace.interval {
        var t :| SubjectWatches(c, pace, w, since, t);
        assert SubjectWatches(c, pace, w', since, t);
      }
    }
  }

  // ----- the bound -----

  lemma {:induction false} CaughtLater(c: Claims, pace: Pace, w: Watch, more: seq<Timed>)
    requires Kept(pace, w) && Later(c, pace, w, more).Some?
    ensures w.s.liveSite > c.siteEpoch ==> SiteCaught(c, pace, Later(c, pace, w, more).value, w.now)
    ensures w.s.liveSubject > c.epoch ==> SubjectCaught(c, pace, Later(c, pace, w, more).value, w.now)
    decreases |more|
  {
    if more != [] {
      var before, last := more[..|more|-1], more[|more|-1];
      CaughtLater(c, pace, w, before);
      var v := Later(c, pace, w, before).value;
      if w.s.liveSite > c.siteEpoch { StepSiteCaught(c, pace, v, w.now, last.at, last.event); }
      if w.s.liveSubject > c.epoch { StepSubjectCaught(c, pace, v, w.now, last.at, last.event); }
    }
  }

  /** After `run` the stream is at `w`, and after `more` at `v`, where an event at `at` finds it open. */
  ghost predicate FoundOpen(
    c: Claims, pace: Pace, w: Watch, v: Watch, start: Watch, run: seq<Timed>, more: seq<Timed>, at: int, e: Event) {
    && start == Opened(pace, start.now, start.s.liveSubject, start.s.liveSite)
    && Later(c, pace, start, run) == Some(w) && Later(c, pace, w, more) == Some(v)
    && InTime(pace, v, at, e) && Open(v)
  }

  /**
   Bounded revocation on the clock, controls or not.  Once the live epochs have passed the claims, after any run,
   no event finds the stream open later than a check interval and the answers to the questions: one when the
   subject was revoked, two when the site was.
   */
  lemma {:induction false} CutWithin(
    c: Claims, pace: Pace, w: Watch, v: Watch, start: Watch, run: seq<Timed>, more: seq<Timed>, at: int, e: Event)
    requires FoundOpen(c, pace, w, v, start, run, more, at, e)
    ensures w.s.liveSite > c.siteEpoch ==> at <= w.now + pace.interval + 2 * pace.delay
    ensures w.s.liveSubject > c.epoch ==> at <= w.now + pace.interval + pace.delay
  {
    LaterKept(c, pace, start, run);
    CaughtLater(c, pace, w, more);
    if w.s.liveSite > c.siteEpoch { StepSiteCaught(c, pace, v, w.now, at, e); }
    if w.s.liveSubject > c.epoch { StepSubjectCaught(c, pace, v, w.now, at, e); }
  }

  // ----- the bound is reached -----

  lemma LaterOne(c: Claims, pace: Pace, w: Watch, run: seq<Timed>, v: Watch, at: int, e: Event)
    returns (more: seq<Timed>, v': Watch)
    requires Later(c, pace, w, run) == Some(v) && InTime(pace, v, at, e)
    ensures Later(c, pace, w, more) == Some(v') && v' == TimedStep(c, pace, v, at, e)
  {
    more, v' := run + [Timed(at, e)], TimedStep(c, pace, v, at, e);
    assert more[..|run|] == run;
  }

  /** Open, with no check under way and the epochs as given. */
  predicate Quiet(w: Watch, now: int, due: int, liveSubject: nat, liveSite: nat) {
    && Open(w) && w.now == now <= due == w.due && w.s.checks == map[] && w.asked == map[]
    && w.s.liveSubject == liveSubject && w.s.liveSite == liveSite
  }

  /** Open, with one check under way, its last question asked just now. */
  predicate Asking(w: Watch, now: int, due: int, check: Check, liveSubject: nat, liveSite: nat) {
    && Open(w) && w.now == now && w.due == due && w.s.checks == map[0 := check] && w.asked == map[0 := now]
    && w.s.liveSubject == liveSubject && w.s.liveSite == liveSite
  }

  /** The epochs move as the timer starts. */
  lemma BumpedAtOnce(c: Claims, pace: Pace, bump: Event, liveSubject: nat, liveSite: nat)
    returns (start: Watch, run: seq<Timed>, w: Watch)
    requires
      || (bump == BumpSite(liveSite) && c.siteEpoch < liveSite && liveSubject == c.epoch)
      || (bump == BumpSubject(liveSubject) && c.epoch < liveSubject && liveSite == c.siteEpoch)
    ensures start == Opened(pace, 0, c.epoch, c.siteEpoch) && Later(c, pace, start, run) == Some(w)
    ensures Quiet(w, 0, pace.interval, liveSubject, liveSite)
  {
    start := Opened(pace, 0, c.epoch, c.siteEpoch);
    run, w := LaterOne(c, pace, start, [], start, 0, bump);
  }

  lemma FirstCheck(c: Claims, pace: Pace, w: Watch, now: int, due: int, liveSubject: nat, liveSite: nat)
    returns (more: seq<Timed>, v: Watch)
    requires Quiet(w, now, due, liveSubject, liveSite)
    ensures Later(c, pace, w, more) == Some(v)
    ensures Asking(v, due, due + pace.interval, AskedSubject(liveSubject), liveSubject, liveSite)
  {
    more, v := LaterOne(c, pace, w, [], w, due, TickStart(0));
  }

  lemma SubjectPassed(
    c: Claims, pace: Pace, w: Watch, run: seq<Timed>, u: Watch, asked: int, due: int, liveSite: nat, at: int)
    returns (more: seq<Timed>, v: Watch)
    requires Later(c, pace, w, run) == Some(u) && Asking(u, asked, due, AskedSubject(c.epoch), c.epoch, liveSite)
    requires asked <= at <= due && at <= asked + pace.delay
    ensures Later(c, pace, w, more) == Some(v)
    ensures Asking(v, at, due, AskedSite(c.epoch, liveSite), c.epoch, liveSite)
  {
    more, v := LaterOne(c, pace, w, run, u, at, SubjectAnswer(0, Value(c.epoch), 0));
  }

  lemma SiteAnswerDue(c: Claims, pace: Pace, v: Watch, asked: int, due: int, site: nat, at: int)
    requires Asking(v, asked, due, AskedSite(c.epoch, site), c.epoch, site)
    requires asked <= at <= due && at <= asked + pace.delay
    ensures InTime(pace, v, at, SiteAnswer(0, Value(site), 0))
  {
  }

  /** The site is revoked as the timer starts, and each question of the first check takes `d`. */
  lemma SlowestSiteCut(c: Claims, pace: Pace, d: nat)
    returns (w: Watch, v: Watch, start: Watch, run: seq<Timed>, more: seq<Timed>, at: int, e: Event)
    requires d <= pace.delay && 2 * d <= pace.interval
    ensures FoundOpen(c, pace, w, v, start, run, more, at, e)
    ensures w.s.liveSite > c.siteEpoch && at == w.now + pace.interval + 2 * d
  {
    var due, next, site := pace.interval, pace.interval + pace.interval, c.siteEpoch + 1;
    start, run, w := BumpedAtOnce(c, pace, BumpSite(site), c.epoch, site);
    var asked, u := FirstCheck(c, pace, w, 0, due, c.epoch, site);
    more, v := SubjectPassed(c, pace, w, asked, u, due, next, site, due + d);
    at, e := due + d + d, SiteAnswer(0, Value(site), 0);
    SiteAnswerDue(c, pace, v, due + d, next, site, at);
  }

  /** The subject is revoked as the timer starts, and the first check's question takes `d`. */
  lemma SlowestSubjectCut(c: Claims, pace: Pace, d: nat)
    returns (w: Watch, v: Watch, start: Watch, run: seq<Timed>, more: seq<Timed>, at: int, e: Event)
    requires d <= pace.delay && d <= pace.interval
    ensures FoundOpen(c, pace, w, v, start, run, more, at, e)
    ensures w.s.liveSubject > c.epoch && at == w.now + pace.interval + d
  {
    var subject := c.epoch + 1;
    start, run, w := BumpedAtOnce(c, pace, BumpSubject(subject), subject, c.siteEpoch);
    more, v := FirstCheck(c, pace, w, 0, pace.interval, subject, c.siteEpoch);
    at, e := pace.interval + d, SubjectAnswer(0, Value(subject), 0);
  }

  predicate Revoked(c: Claims, w: Watch) { w.s.liveSite > c.siteEpoch || w.s.liveSubject > c.epoch }

  /** Whoever is revoked, however it comes about, is cut within one check interval. */
  ghost predicate CutWithinInterval(c: Claims, pace: Pace) {
    forall w, v, start, run, more, at: int, e ::
      FoundOpen(c, pace, w, v, start, run, more, at, e) && Revoked(c, w) ==> at <= w.now + pace.interval
  }

  /** One interval is enough exactly when the epoch store answers at once. */
  lemma CutWithinIntervalExactly(c: Claims, pace: Pace)
    requires pace.interval >= 1
    ensures CutWithinInterval(c, pace) <==> pace.delay == 0
  {
    if pace.delay == 0 {
      forall w, v, start, run, more, at: int, e
        | FoundOpen(c, pace, w, v, start, run, more, at, e) && Revoked(c, w)
        ensures at <= w.now + pace.interval
      {
        CutWithin(c, pace, w, v, start, run, more, at, e);
      }
    } else {
      var w, v, start, run, more, at, e := SlowestSubjectCut(c, pace, 1);
    }
  }
}
