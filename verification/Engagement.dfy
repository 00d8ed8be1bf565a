/**
 The two engagement clocks of the tracker (apps/tracker/src/engagement.ts).  Instants are whole
 milliseconds, so rounding the reported figures changes nothing.  The document's visibility
 changes together with the event that announces it.
 */
module Engagements {
  import opened Options

  const ACTIVITY_WINDOW_MS := 5_000

  datatype Payload = Payload(activeMs: int, visibleMs: int)

  /** The source's variables; `reported` is history: every pair of figures a collect read off. */
  datatype State = State(
    visibleSince: Option<int>,
    visibleMs: int,
    activeMs: int,
    activeStart: Option<int>,
    activeUntil: int,
    reported: seq<Payload>)

  datatype Event = Activity | Show | Hide | Collect

  datatype Timed = Timed(at: int, event: Event)

  function Min(a: int, b: int): int { if a < b then a else b }
  function Max(a: int, b: int): int { if a < b then b else a }

  function Start(visible: bool, at: int): State {
    State(if visible then Some(at) else None, 0, 0, None, 0, [])
  }

  /** Active time not yet added up at `now`. */
  function OpenActive(s: State, now: int): int {
    if s.activeStart.None? then 0 else Max(0, Min(now, s.activeUntil) - s.activeStart.value)
  }

  function CloseInterval(s: State, at: int): State {
    if s.activeStart.None? then s
    else s.(activeMs := s.activeMs + OpenActive(s, at), activeStart := None, activeUntil := 0)
  }

  function OnActivity(s: State, at: int): State {
    if s.visibleSince.None? then s
    else
      var s' := if s.activeStart.None? || at > s.activeUntil
                then CloseInterval(s, at).(activeStart := Some(at)) else s;
      s'.(activeUntil := at + ACTIVITY_WINDOW_MS)
  }

  function OnHide(s: State, at: int): State {
    var s' := if s.visibleSince.Some?
              then s.(visibleMs := s.visibleMs + (at - s.visibleSince.value), visibleSince := None) else s;
    CloseInterval(s', at)
  }

  function OnCollect(s: State, at: int): State {
    var s1 := if s.visibleSince.Some?
              then s.(visibleMs := s.visibleMs + (at - s.visibleSince.value), visibleSince := Some(at)) else s;
    var stillActive := s.activeStart.Some? && at <= s.activeUntil;
    var s2 := CloseInterval(s1, at);
    var s3 := s2.(activeMs := 0, visibleMs := 0, reported := s.reported + [Payload(s2.activeMs, s2.visibleMs)]);
    if stillActive then s3.(activeStart := Some(at), activeUntil := at + ACTIVITY_WINDOW_MS) else s3
  }

  function Step(s: State, t: Timed): State {
    match t.event
    case Activity => OnActivity(s, t.at)
    case Show => if s.visibleSince.None? then s.(visibleSince := Some(t.at)) else s
    case Hide => OnHide(s, t.at)
    case Collect => OnCollect(s, t.at)
  }

  function After(visible: bool, begun: int, run: seq<Timed>): State {
    if run == [] then Start(visible, begun) else Step(After(visible, begun, run[..|run|-1]), run[|run|-1])
  }

  // ----- what the clocks should measure, read off the history alone -----

  /** Is the document on screen after the history? */
  predicate Visible(visible: bool, run: seq<Timed>) {
    if run == [] then visible
    else match run[|run|-1].event
      case Show => true
      case Hide => false
      case _ => Visible(visible, run[..|run|-1])
  }

  /**
   Does the `i`-th event arm the activity window?  An activity on a visible page does; a
   collect does while the visitor still counts as active.
   */
  predicate Arms(visible: bool, run: seq<Timed>, i: nat)
    requires i < |run|
    decreases i, 1
  {
    match run[i].event
    case Activity => Visible(visible, run[..i])
    case Collect => Engaged(visible, run, i, run[i].at)
    case _ => false
  }

  /** Before the `i`-th event, is some armed window, uncut by a later hide, still open at `t` (its end included)? */
  predicate Engaged(visible: bool, run: seq<Timed>, i: nat, t: int)
    requires i <= |run|
    decreases i, 0
  {
    exists k :: 0 <= k < i && Arms(visible, run, k) && t <= run[k].at + 5_000 && Uncut(run, k, i)
  }

  predicate Uncut(run: seq<Timed>, k: nat, i: nat)
    requires i <= |run|
  {
    forall j :: k < j < i ==> run[j].event != Hide
  }

  /** The instant `t` lies in an armed window that no hide at or before `t` has cut. */
  ghost predicate Covered(visible: bool, run: seq<Timed>, t: int) {
    exists k :: 0 <= k < |run| && CoversAt(visible, run, k, t)
  }

  ghost predicate CoversAt(visible: bool, run: seq<Timed>, k: nat, t: int)
    requires k < |run|
  {
    && Arms(visible, run, k)
    && run[k].at <= t < run[k].at + 5_000
    && forall j :: k < j < |run| && run[j].event == Hide ==> t < run[j].at
  }

  /** The instant `t` (not before `begun`) is on screen: the last show or hide at or before it, if any, is a show. */
  ghost predicate OnScreen(visible: bool, run: seq<Timed>, t: int) {
    if run == [] then visible
    else if run[|run|-1].at <= t && run[|run|-1].event == Show then true
    else if run[|run|-1].at <= t && run[|run|-1].event == Hide then false
    else OnScreen(visible, run[..|run|-1], t)
  }

  ghost function CountCovered(visible: bool, run: seq<Timed>, from: int, end: int): nat
    decreases end - from
  {
    if end <= from then 0
    else CountCovered(visible, run, from, end - 1) + (if Covered(visible, run, end - 1) then 1 else 0)
  }

  ghost function CountOnScreen(visible: bool, run: seq<Timed>, from: int, end: int): nat
    decreases end - from
  {
    if end <= from then 0
    else CountOnScreen(visible, run, from, end - 1) + (if OnScreen(visible, run, end - 1) then 1 else 0)
  }

  function Last(begun: int, run: seq<Timed>): int { if run == [] then begun else run[|run|-1].at }

  ghost predicate ClockForward(begun: int, run: seq<Timed>) {
    run != [] ==> ClockForward(begun, run[..|run|-1]) && Last(begun, run[..|run|-1]) <= run[|run|-1].at
  }

  function ActiveReported(reported: seq<Payload>): int {
    if reported == [] then 0 else ActiveReported(reported[..|reported|-1]) + reported[|reported|-1].activeMs
  }

  function VisibleReported(reported: seq<Payload>): int {
    if reported == [] then 0 else VisibleReported(reported[..|reported|-1]) + reported[|reported|-1].visibleMs
  }

  // ----- the active clock -----

  /** An activity window is open at `t`. */
  ghost predicate Lit(s: State, t: int) { s.activeStart.Some? && t < s.activeUntil }

  /** The state agrees with the history up to `now`, its last event. */
  ghost predicate ActiveAgrees(visible: bool, begun: int, run: seq<Timed>, s: State, now: int) {
    var from := if s.activeStart.Some? then s.activeStart.value else now;
    && begun <= from <= now
    && ActiveReported(s.reported) + s.activeMs == CountCovered(visible, run, begun, from)
    && (s.activeStart.Some? ==> from <= s.activeUntil <= now + ACTIVITY_WINDOW_MS)
    && (forall t :: t >= from ==> (Covered(visible, run, t) <==> Lit(s, t)))
    && (s.visibleSince.Some? <==> Visible(visible, run))
    && (forall t :: t >= now ==> (Engaged(visible, run, |run|, t) <==> s.activeStart.Some? && t <= s.activeUntil))
  }

  lemma {:induction false} ArmsPrefix(visible: bool, run: seq<Timed>, e: Timed, i: nat)
    requires i < |run|
    ensures Arms(visible, run + [e], i) == Arms(visible, run, i)
    decreases i, 1
  {
    assert (run + [e])[..i] == run[..i];
    EngagedPrefix(visible, run, e, i, run[i].at);
  }

  lemma {:induction false} EngagedPrefix(visible: bool, run: seq<Timed>, e: Timed, i: nat, t: int)
    requires i <= |run|
    ensures Engaged(visible, run + [e], i, t) == Engaged(visible, run, i, t)
    decreases i, 0
  {
    forall k | 0 <= k < i ensures Arms(visible, run + [e], k) == Arms(visible, run, k) {
      ArmsPrefix(visible, run, e, k);
    }
    forall k | 0 <= k < i ensures Uncut(run + [e], k, i) == Uncut(run, k, i) {
      assert forall j :: k < j < i ==> (run + [e])[j] == run[j];
    }
  }

  /** Does the new last event arm? */
  lemma LastArms(visible: bool, run: seq<Timed>, e: Timed)
    ensures Arms(visible, run + [e], |run|) ==
            (match e.event
             case Activity => Visible(visible, run)
             case Collect => Engaged(visible, run, |run|, e.at)
             case _ => false)
  {
    assert (run + [e])[..|run|] == run;
    EngagedPrefix(visible, run, e, |run|, e.at);
  }

  /** Coverage after one more event. */
  lemma CoveredSnoc(visible: bool, run: seq<Timed>, e: Timed, t: int)
    ensures Covered(visible, run + [e], t) <==>
            || (Covered(visible, run, t) && (e.event == Hide ==> t < e.at))
            || (Arms(visible, run + [e], |run|) && e.at <= t < e.at + ACTIVITY_WINDOW_MS)
  {
    var all := run + [e];
    forall k | 0 <= k < |run|
      ensures CoversAt(visible, all, k, t) <==> CoversAt(visible, run, k, t) && (e.event == Hide ==> t < e.at)
    {
      ArmsPrefix(visible, run, e, k);
      assert forall j :: k < j < |run| ==> all[j] == run[j];
      assert all[|run|] == e;
    }
    if Covered(visible, run, t) && (e.event == Hide ==> t < e.at) {
      var k :| 0 <= k < |run| && CoversAt(visible, run, k, t);
      assert CoversAt(visible, all, k, t);
    }
    if Arms(visible, all, |run|) && e.at <= t < e.at + ACTIVITY_WINDOW_MS {
      assert CoversAt(visible, all, |run|, t);
    }
  }

  lemma EngagedSnoc(visible: bool, run: seq<Timed>, e: Timed, t: int)
    ensures Engaged(visible, run + [e], |run| + 1, t) <==>
            || (Engaged(visible, run, |run|, t) && e.event != Hide)
            || (Arms(visible, run + [e], |run|) && t <= e.at + ACTIVITY_WINDOW_MS)
  {
    var all := run + [e];
    forall k | 0 <= k < |run| ensures Arms(visible, all, k) == Arms(visible, run, k) { ArmsPrefix(visible, run, e, k); }
    forall k | 0 <= k < |run| ensures Uncut(all, k, |run| + 1) <==> Uncut(run, k, |run|) && e.event != Hide {
      assert forall j :: k < j < |run| ==> all[j] == run[j];
      assert all[|run|] == e;
    }
    if Engaged(visible, run, |run|, t) && e.event != Hide {
      var k :| 0 <= k < |run| && Arms(visible, run, k) && t <= run[k].at + ACTIVITY_WINDOW_MS && Uncut(run, k, |run|);
      assert Uncut(all, k, |run| + 1) && all[k] == run[k];
    }
    assert Uncut(all, |run|, |run| + 1);
    assert all[|run|] == e;
  }

  /** Counting only looks at the instants counted. */
  lemma {:induction false} CountSame(visible: bool, run: seq<Timed>, run': seq<Timed>, from: int, end: int)
    requires forall t :: from <= t < end ==> Covered(visible, run, t) == Covered(visible, run', t)
    ensures CountCovered(visible, run, from, end) == CountCovered(visible, run', from, end)
    decreases end - from
  {
    if from < end { CountSame(visible, run, run', from, end - 1); }
  }

  /** Counting on from an instant past which coverage is an interval starting there. */
  lemma {:induction false} CountInterval(visible: bool, run: seq<Timed>, from: int, mid: int, until: int, end: int)
    requires from <= mid <= end
    requires forall t :: mid <= t < end ==> (Covered(visible, run, t) <==> t < until)
    ensures CountCovered(visible, run, from, end) ==
            CountCovered(visible, run, from, mid) + Max(0, Min(end, until) - mid)
    decreases end - mid
  {
    if mid < end { CountInterval(visible, run, from, mid, until, end - 1); }
  }

  /** Reported, added up and still open active time at `now` is the number of covered instants. */
  lemma ActiveAt(visible: bool, begun: int, run: seq<Timed>, s: State, last: int, now: int)
    requires ActiveAgrees(visible, begun, run, s, last) && last <= now
    ensures ActiveReported(s.reported) + s.activeMs + OpenActive(s, now) == CountCovered(visible, run, begun, now)
  {
    if s.activeStart.Some? {
      CountInterval(visible, run, begun, s.activeStart.value, s.activeUntil, now);
    } else {
      CountInterval(visible, run, begun, last, last, now);
    }
  }

  lemma ReportedSnoc(reported: seq<Payload>, p: Payload)
    ensures ActiveReported(reported + [p]) == ActiveReported(reported) + p.activeMs
    ensures VisibleReported(reported + [p]) == VisibleReported(reported) + p.visibleMs
  {
    assert (reported + [p])[..|reported|] == reported;
  }

  /** What one more event changes, and what it leaves alone. */
  lemma Grown(visible: bool, run: seq<Timed>, e: Timed)
    ensures
      var all := run + [e];
      && (forall t :: Covered(visible, all, t) <==>
            || (Covered(visible, run, t) && (e.event == Hide ==> t < e.at))
            || (Arms(visible, all, |run|) && e.at <= t < e.at + ACTIVITY_WINDOW_MS))
      && (forall t :: Engaged(visible, all, |all|, t) <==>
            || (Engaged(visible, run, |run|, t) && e.event != Hide)
            || (Arms(visible, all, |run|) && t <= e.at + ACTIVITY_WINDOW_MS))
      && (forall from, end :: end <= e.at ==>
            CountCovered(visible, all, from, end) == CountCovered(visible, run, from, end))
      && (Visible(visible, all) <==> if e.event == Show then true else if e.event == Hide then false else Visible(visible, run))
  {
    var all := run + [e];
    assert all[..|run|] == run;
    forall t ensures Covered(visible, all, t) <==>
        || (Covered(visible, run, t) && (e.event == Hide ==> t < e.at))
        || (Arms(visible, all, |run|) && e.at <= t < e.at + ACTIVITY_WINDOW_MS)
    {
      CoveredSnoc(visible, run, e, t);
    }
    forall t ensures Engaged(visible, all, |all|, t) <==>
        || (Engaged(visible, run, |run|, t) && e.event != Hide)
        || (Arms(visible, all, |run|) && t <= e.at + ACTIVITY_WINDOW_MS)
    {
      EngagedSnoc(visible, run, e, t);
    }
    forall from, end | end <= e.at
      ensures CountCovered(visible, all, from, end) == CountCovered(visible, run, from, end)
    {
      CountSame(visible, run, all, from, end);
    }
  }

  lemma ActivityStep(visible: bool, begun: int, run: seq<Timed>, s: State, last: int, e: Timed)
    requires ActiveAgrees(visible, begun, run, s, last) && last <= e.at && e.event == Activity
    ensures ActiveAgrees(visible, begun, run + [e], Step(s, e), e.at)
  {
    Grown(visible, run, e);
    LastArms(visible, run, e);
    ActiveAt(visible, begun, run, s, last, e.at);
  }

  lemma CollectStep(visible: bool, begun: int, run: seq<Timed>, s: State, last: int, e: Timed)
    requires ActiveAgrees(visible, begun, run, s, last) && last <= e.at && e.event == Collect
    ensures ActiveAgrees(visible, begun, run + [e], Step(s, e), e.at)
  {
    CollectTotals(s, e);
    CollectClocks(s, e);
    CollectAgrees(visible, begun, run, s, last, e, Step(s, e));
  }

  /** Collecting restarts whichever clock is running. */
  predicate Restarted(s: State, e: Timed, t: State) {
    var still := s.activeStart.Some? && e.at <= s.activeUntil;
    && t.activeStart == (if still then Some(e.at) else None)
    && (still ==> t.activeUntil == e.at + ACTIVITY_WINDOW_MS)
    && t.visibleSince == (if s.visibleSince.Some? then Some(e.at) else None)
  }

  lemma CollectClocks(s: State, e: Timed)
    requires e.event == Collect
    ensures Restarted(s, e, Step(s, e))
  {
  }

  lemma CollectAgrees(visible: bool, begun: int, run: seq<Timed>, s: State, last: int, e: Timed, t: State)
    requires ActiveAgrees(visible, begun, run, s, last) && last <= e.at && e.event == Collect && Restarted(s, e, t)
    requires ActiveReported(t.reported) + t.activeMs == ActiveReported(s.reported) + s.activeMs + OpenActive(s, e.at)
    ensures ActiveAgrees(visible, begun, run + [e], t, e.at)
  {
    Grown(visible, run, e);
    LastArms(visible, run, e);
    ActiveAt(visible, begun, run, s, last, e.at);
  }

  /** A collect moves what was pending into what was reported. */
  lemma CollectTotals(s: State, e: Timed)
    requires e.event == Collect
    ensures
      var s' := Step(s, e);
      && ActiveReported(s'.reported) + s'.activeMs == ActiveReported(s.reported) + s.activeMs + OpenActive(s, e.at)
      && VisibleReported(s'.reported) + s'.visibleMs == VisibleReported(s.reported) + s.visibleMs + OpenVisible(s, e.at)
  {
    ReportedSnoc(s.reported, Payload(s.activeMs + OpenActive(s, e.at), s.visibleMs + OpenVisible(s, e.at)));
  }

  lemma HideStep(visible: bool, begun: int, run: seq<Timed>, s: State, last: int, e: Timed)
    requires ActiveAgrees(visible, begun, run, s, last) && last <= e.at && e.event == Hide
    ensures ActiveAgrees(visible, begun, run + [e], Step(s, e), e.at)
  {
    Grown(visible, run, e);
    LastArms(visible, run, e);
    ActiveAt(visible, begun, run, s, last, e.at);
  }

  lemma ShowStep(visible: bool, begun: int, run: seq<Timed>, s: State, last: int, e: Timed)
    requires ActiveAgrees(visible, begun, run, s, last) && last <= e.at && e.event == Show
    ensures ActiveAgrees(visible, begun, run + [e], Step(s, e), e.at)
  {
    Grown(visible, run, e);
    LastArms(visible, run, e);
    ActiveAt(visible, begun, run, s, last, e.at);
  }

  lemma ActiveStep(visible: bool, begun: int, run: seq<Timed>, s: State, last: int, e: Timed)
    requires ActiveAgrees(visible, begun, run, s, last) && last <= e.at
    ensures ActiveAgrees(visible, begun, run + [e], Step(s, e), e.at)
  {
    match e.event
    case Activity => ActivityStep(visible, begun, run, s, last, e);
    case Show => ShowStep(visible, begun, run, s, last, e);
    case Hide => HideStep(visible, begun, run, s, last, e);
    case Collect => CollectStep(visible, begun, run, s, last, e);
  }

  lemma {:induction false} ActiveRun(visible: bool, begun: int, run: seq<Timed>)
    requires ClockForward(begun, run)
    ensures ActiveAgrees(visible, begun, run, After(visible, begun, run), Last(begun, run))
    decreases |run|
  {
    if run != [] {
      var before := run[..|run|-1];
      ActiveRun(visible, begun, before);
      assert before + [run[|run|-1]] == run;
      ActiveStep(visible, begun, before, After(visible, begun, before), Last(begun, before), run[|run|-1]);
    }
  }

  /**
   The active clock measures a set: what has been reported plus what is pending at `now` is the number of
   instants covered by a window that an activity, or a collect during activity, opened and no hide cut.
   */
  lemma {:induction false} ActiveTimeIsCoverage(visible: bool, begun: int, run: seq<Timed>, now: int)
    requires ClockForward(begun, run) && Last(begun, run) <= now
    ensures
      var s := After(visible, begun, run);
      ActiveReported(s.reported) + s.activeMs + OpenActive(s, now) == CountCovered(visible, run, begun, now)
  {
    ActiveRun(visible, begun, run);
    ActiveAt(visible, begun, run, After(visible, begun, run), Last(begun, run), now);
  }

  // ----- the visible clock -----

  function OpenVisible(s: State, now: int): int {
    if s.visibleSince.None? then 0 else now - s.visibleSince.value
  }

  ghost predicate VisibleAgrees(visible: bool, begun: int, run: seq<Timed>, s: State, now: int) {
    var from := if s.visibleSince.Some? then s.visibleSince.value else now;
    && begun <= from <= now
    && VisibleReported(s.reported) + s.visibleMs == CountOnScreen(visible, run, begun, from)
    && (forall t :: t >= from ==> (OnScreen(visible, run, t) <==> s.visibleSince.Some?))
  }

  lemma {:induction false} OnScreenSame(visible: bool, run: seq<Timed>, e: Timed, from: int, end: int)
    requires end <= e.at
    ensures CountOnScreen(visible, run + [e], from, end) == CountOnScreen(visible, run, from, end)
    decreases if from < end then end - from else 0
  {
    assert (run + [e])[..|run|] == run;
    if from < end { OnScreenSame(visible, run, e, from, end - 1); }
  }

  lemma {:induction false} OnScreenInterval(visible: bool, run: seq<Timed>, from: int, mid: int, end: int, on: bool)
    requires from <= mid <= end
    requires forall t :: mid <= t < end ==> OnScreen(visible, run, t) == on
    ensures CountOnScreen(visible, run, from, end) == CountOnScreen(visible, run, from, mid) + (if on then end - mid else 0)
    decreases end - mid
  {
    if mid < end { OnScreenInterval(visible, run, from, mid, end - 1, on); }
  }

  lemma VisibleAt(visible: bool, begun: int, run: seq<Timed>, s: State, last: int, now: int)
    requires VisibleAgrees(visible, begun, run, s, last) && last <= now
    ensures VisibleReported(s.reported) + s.visibleMs + OpenVisible(s, now) == CountOnScreen(visible, run, begun, now)
  {
    var from := if s.visibleSince.Some? then s.visibleSince.value else last;
    OnScreenInterval(visible, run, begun, from, now, s.visibleSince.Some?);
  }

  lemma VisibleStep(visible: bool, begun: int, run: seq<Timed>, s: State, last: int, e: Timed)
    requires VisibleAgrees(visible, begun, run, s, last) && last <= e.at
    ensures VisibleAgrees(visible, begun, run + [e], Step(s, e), e.at)
  {
    if e.event == Collect {
      VisibleCollect(visible, begun, run, s, last, e);
    } else {
      VisibleQuiet(visible, begun, run, s, last, e);
    }
  }

  lemma VisibleCollect(visible: bool, begun: int, run: seq<Timed>, s: State, last: int, e: Timed)
    requires VisibleAgrees(visible, begun, run, s, last) && last <= e.at && e.event == Collect
    ensures VisibleAgrees(visible, begun, run + [e], Step(s, e), e.at)
  {
    CollectTotals(s, e);
    CollectClocks(s, e);
    VisibleCollected(visible, begun, run, s, last, e, Step(s, e));
  }

  lemma VisibleCollected(visible: bool, begun: int, run: seq<Timed>, s: State, last: int, e: Timed, t: State)
    requires VisibleAgrees(visible, begun, run, s, last) && last <= e.at && e.event == Collect && Restarted(s, e, t)
    requires VisibleReported(t.reported) + t.visibleMs == VisibleReported(s.reported) + s.visibleMs + OpenVisible(s, e.at)
    ensures VisibleAgrees(visible, begun, run + [e], t, e.at)
  {
    assert (run + [e])[..|run|] == run;
    VisibleAt(visible, begun, run, s, last, e.at);
    OnScreenSame(visible, run, e, begun, e.at);
  }

  lemma VisibleQuiet(visible: bool, begun: int, run: seq<Timed>, s: State, last: int, e: Timed)
    requires VisibleAgrees(visible, begun, run, s, last) && last <= e.at && e.event != Collect
    ensures VisibleAgrees(visible, begun, run + [e], Step(s, e), e.at)
  {
    var from := if s.visibleSince.Some? then s.visibleSince.value else last;
    assert (run + [e])[..|run|] == run;
    VisibleAt(visible, begun, run, s, last, e.at);
    OnScreenSame(visible, run, e, begun, e.at);
    OnScreenSame(visible, run, e, begun, from);
  }

  lemma {:induction false} VisibleRun(visible: bool, begun: int, run: seq<Timed>)
    requires ClockForward(begun, run)
    ensures VisibleAgrees(visible, begun, run, After(visible, begun, run), Last(begun, run))
    decreases |run|
  {
    if run != [] {
      var before := run[..|run|-1];
      VisibleRun(visible, begun, before);
      assert before + [run[|run|-1]] == run;
      VisibleStep(visible, begun, before, After(visible, begun, before), Last(begun, before), run[|run|-1]);
    }
  }

  /** Visible time is conserved: reported plus pending is the number of instants the document was on screen. */
  lemma {:induction false} VisibleTimeIsConserved(visible: bool, begun: int, run: seq<Timed>, now: int)
    requires ClockForward(begun, run) && Last(begun, run) <= now
    ensures
      var s := After(visible, begun, run);
      VisibleReported(s.reported) + s.visibleMs + OpenVisible(s, now) == CountOnScreen(visible, run, begun, now)
  {
    VisibleRun(visible, begun, run);
    VisibleAt(visible, begun, run, After(visible, begun, run), Last(begun, run), now);
  }

  // ----- one payload -----

  /** Since the last collect, active time has stayed within visible time. */
  ghost predicate WithinVisible(s: State, now: int) {
    && 0 <= s.activeMs
    && (s.visibleSince.Some? ==> s.visibleSince.value <= now)
    && (s.activeStart.Some? ==>
          && s.visibleSince.Some?
          && s.visibleSince.value <= s.activeStart.value <= now
          && s.activeMs <= s.visibleMs + (s.activeStart.value - s.visibleSince.value))
    && (s.activeStart.None? ==> s.activeMs <= s.visibleMs + OpenVisible(s, now))
    && (forall k :: 0 <= k < |s.reported| ==> 0 <= s.reported[k].activeMs <= s.reported[k].visibleMs)
  }

  lemma WithinVisibleStep(s: State, last: int, e: Timed)
    requires WithinVisible(s, last) && last <= e.at
    ensures WithinVisible(Step(s, e), e.at)
  {
  }

  /** Every payload reports no more active time than visible time, and none of it negative. */
  lemma {:induction false} PayloadsAreSound(visible: bool, begun: int, run: seq<Timed>)
    requires ClockForward(begun, run)
    ensures WithinVisible(After(visible, begun, run), Last(begun, run))
    decreases |run|
  {
    if run != [] {
      var before := run[..|run|-1];
      PayloadsAreSound(visible, begun, before);
      WithinVisibleStep(After(visible, begun, before), Last(begun, before), run[|run|-1]);
    }
  }

  /**
   Each collect reports everything up to its moment: the reports so far, its own included, count all instants
   covered and all instants on screen; nothing else reports.
   */
  lemma {:induction false} EachCollectReportsAll(visible: bool, begun: int, run: seq<Timed>)
    requires ClockForward(begun, run) && run != []
    ensures
      var before, after := After(visible, begun, run[..|run|-1]).reported, After(visible, begun, run).reported;
      var last := run[|run|-1];
      if last.event != Collect then after == before
      else
        && |after| == |before| + 1 && after[..|before|] == before
        && ActiveReported(after) == CountCovered(visible, run, begun, last.at)
        && VisibleReported(after) == CountOnScreen(visible, run, begun, last.at)
  {
    var last, s := run[|run|-1], After(visible, begun, run);
    ActiveTimeIsCoverage(visible, begun, run, last.at);
    VisibleTimeIsConserved(visible, begun, run, last.at);
    StepReports(After(visible, begun, run[..|run|-1]), last);
  }

  /** What a step adds to the reports; after a collect nothing is pending. */
  lemma StepReports(s: State, e: Timed)
    ensures e.event != Collect ==> Step(s, e).reported == s.reported
    ensures e.event == Collect ==>
      var t := Step(s, e);
      && |t.reported| == |s.reported| + 1 && t.reported[..|s.reported|] == s.reported
      && t.activeMs == 0 && OpenActive(t, e.at) == 0 && t.visibleMs == 0 && OpenVisible(t, e.at) == 0
  {
  }

  // ----- the source's object -----

  /** `shown` stands for the document's visibility state. */
  class Engagement {
    var shown: bool
    var visibleSince: Option<int>
    var visibleMs: int
    var activeMs: int
    var activeStart: Option<int>
    var activeUntil: int
    ghost var reported: seq<Payload>

    ghost function View(): State
      reads this
    {
      State(visibleSince, visibleMs, activeMs, activeStart, activeUntil, reported)
    }

    ghost predicate Valid()
      reads this
    {
      shown <==> visibleSince.Some?
    }

    constructor (visible: bool, at: int)
      ensures Valid() && View() == Start(visible, at)
    {
      shown := visible;
      visibleSince := if visible then Some(at) else None;
      visibleMs, activeMs, activeStart, activeUntil, reported := 0, 0, None, 0, [];
    }

    method CloseActiveInterval(at: int)
      modifies this`activeMs, this`activeStart, this`activeUntil
      ensures View() == CloseInterval(old(View()), at)
    {
      if activeStart.None? { return; }
      activeMs := activeMs + Max(0, Min(at, activeUntil) - activeStart.value);
      activeStart := None;
      activeUntil := 0;
    }

    method HandleActivity(at: int)
      requires Valid()
      modifies this
      ensures Valid() && View() == OnActivity(old(View()), at)
    {
      if !shown { return; }
      if activeStart.None? || at > activeUntil {
        CloseActiveInterval(at);
        activeStart := Some(at);
      }
      activeUntil := at + ACTIVITY_WINDOW_MS;
    }

    method HandleVisibilityChange(visible: bool, at: int)
      requires Valid()
      modifies this
      ensures Valid() && shown == visible
      ensures View() == Step(old(View()), Timed(at, if visible then Show else Hide))
    {
      shown := visible;
      if visible {
        if visibleSince.None? { visibleSince := Some(at); }
        return;
      }
      if visibleSince.Some? {
        visibleMs := visibleMs + (at - visibleSince.value);
        visibleSince := None;
      }
      CloseActiveInterval(at);
    }

    /** Both clocks are read and start over; two zeros are no payload. */
    method CollectPayload(at: int) returns (r: Option<Payload>)
      requires Valid()
      modifies this
      ensures Valid() && View() == OnCollect(old(View()), at)
      ensures reported != [] &&
              r == (if reported[|reported|-1] == Payload(0, 0) then None else Some(reported[|reported|-1]))
    {
      if visibleSince.Some? {
        visibleMs := visibleMs + (at - visibleSince.value);
        visibleSince := Some(at);
      }
      var stillActive := activeStart.Some? && at <= activeUntil;
      CloseActiveInterval(at);
      var payload := Payload(activeMs, visibleMs);
      reported := reported + [payload];
      activeMs := 0;
      visibleMs := 0;
      if stillActive {
        activeStart := Some(at);
        activeUntil := at + ACTIVITY_WINDOW_MS;
      }
      r := if payload.visibleMs == 0 && payload.activeMs == 0 then None else Some(payload);
    }
  }
}
