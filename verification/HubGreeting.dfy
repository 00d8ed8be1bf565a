/**
 No stream opens in silence: whoever joins has been sent a first frame, or waits for the read that is in
 flight, and gets one when that read is over, whether it succeeds or not.
 */
module HubGreetings {
  import opened Options
  import opened Hub
  import opened HubSafety

  ghost predicate Welcomed(s: State, c: Client) {
    c in s.greeted && c in s.inbox && s.inbox[c] != []
  }

  ghost predicate NoneForgotten(s: State, pending: seq<Waiter>) {
    forall c :: c in s.inbox ==> Welcomed(s, c) || Initial(c) in pending
  }

  /** Frames are only ever added, and only joining adds a client. */
  ghost predicate Grows(s: State, s': State) {
    s'.inbox.Keys == s.inbox.Keys && s.greeted <= s'.greeted && Extends(s, s')
  }

  lemma GrowingForgetsNone(s: State, s': State, pending: seq<Waiter>)
    requires NoneForgotten(s, pending) && Grows(s, s')
    ensures NoneForgotten(s', pending)
  {
    forall c | c in s'.inbox ensures Welcomed(s', c) || Initial(c) in pending {
      if Welcomed(s, c) { assert s.inbox[c] <= s'.inbox[c]; }
    }
  }

  lemma AfterComputeGrows(s: State, at: int)
    requires Distinct(s.clients) && forall c :: c in s.clients ==> c in s.inbox
    ensures Grows(s, AfterCompute(s, at))
  {
    AfterComputeExtends(s, at);
    var told := if s.lastComputeSucceeded then Control(s.seq_, Recovered) else Control(s.seq_, Degraded);
    FanOutAt(s.inbox, s.clients, told);
    if s.cached.Some? {
      var f := Snapshot(s.seq_, s.cached.value.presence, s.cached.value.generatedAt);
      FanOutAt(s.inbox, s.clients, f);
      FanOutAt(FanOut(s.inbox, s.clients, told), s.clients, f);
    }
  }

  lemma {:induction false} FirstFrameWelcomes(s: State, c: Client)
    requires c in s.inbox
    ensures Grows(s, FirstFrame(s, c)) && Welcomed(FirstFrame(s, c), c)
    ensures FirstFrame(s, c).inbox[c] ==
      s.inbox[c] + [match s.cached
        case Some(shot) => Snapshot(s.seq_, shot.presence, shot.generatedAt)
        case None => Control(s.seq_, Degraded)]
  {
    var f := match s.cached
      case Some(shot) => Snapshot(s.seq_, shot.presence, shot.generatedAt)
      case None => Control(s.seq_, Degraded);
    FirstFrameExtends(s, c);
    FanOutAt(s.inbox, [c], f);
    assert FirstFrame(s, c).inbox == FanOut(s.inbox, [c], f);
  }

  /** The awaiters' turn leaves nobody waiting. */
  lemma {:induction false} ResumingWelcomesAll(s: State, at: int, ws: seq<Waiter>)
    requires Inv(s, ws) && !s.computing && NoneForgotten(s, ws)
    ensures NoneForgotten(ResumeAll(s, at, ws), [])
    decreases |ws|
  {
    if ws != [] {
      var w, rest := ws[0], ws[1..];
      assert ws == [w] + rest;
      ResumeDelivers(s, at, w, rest);
      var s1 := Resume(s, at, w);
      if w.Broadcast? {
        AfterComputeGrows(s, at);
      } else {
        FirstFrameWelcomes(s, w.client);
      }
      GrowingForgetsNone(s, s1, ws);
      assert NoneForgotten(s1, rest);
      ResumingWelcomesAll(s1, at, rest);
    }
  }

  lemma JoinForgetsNone(cfg: Config, s: State, at: int, c: Client, last: Option<int>)
    requires Inv(s, s.waiters) && NoneForgotten(s, s.waiters) && c !in s.inbox
    ensures
      var s' := Step(cfg, s, at, Join(c, last));
      NoneForgotten(s', s'.waiters)
  {
    var s1 := Add(cfg, s, at, c);
    if SendInitial(cfg, s1, at, c, last) == FirstFrame(s1, c) {
      FirstFrameWelcomes(s1, c);
      forall d | d in s1.inbox ensures d == c || Welcomed(s1, d) || Initial(d) in s1.waiters { }
      forall d | d in s1.inbox ensures Welcomed(FirstFrame(s1, c), d) || Initial(d) in s1.waiters {
        assert s1.inbox[d] <= FirstFrame(s1, c).inbox[d];
      }
    } else {
      var s' := RunCompute(s1, at, Initial(c));
      assert s'.waiters[|s'.waiters|-1] == Initial(c);
      forall d | d in s'.inbox ensures Welcomed(s', d) || Initial(d) in s'.waiters {
        if d != c && Initial(d) in s.waiters { assert s.computing; }
      }
    }
  }

  lemma StepForgetsNone(cfg: Config, s: State, at: int, e: Event)
    requires Inv(s, s.waiters) && NoneForgotten(s, s.waiters) && Enabled(s, at, e)
    ensures
      var s' := Step(cfg, s, at, e);
      NoneForgotten(s', s'.waiters)
  {
    match e
    case Join(c, last) => JoinForgetsNone(cfg, s, at, c, last);
    case ReadDone(result) =>
      SettleKeeps(s, at, result);
      ResumingWelcomesAll(Settle(s, at, result), at, s.waiters);
      ResumeAllDelivers(Settle(s, at, result), at, s.waiters);
    case ControlMessage(subject, epoch) =>
      RevokedIs(s.clients, subject, epoch);
      CutGrows(s, Revoked(s.clients, subject, epoch));
    case Shutdown => CutGrows(s, s.clients);
    case _ => QuietForgetsNone(cfg, s, at, e);
  }

  lemma CutGrows(s: State, cs: seq<Client>)
    requires Distinct(cs) && NoneForgotten(s, s.waiters) && forall c :: c in cs ==> c in s.inbox
    ensures NoneForgotten(Cut(s, cs), s.waiters)
  {
    FanOutAt(s.inbox, cs, Control(s.seq_, Disconnect));
    GrowingForgetsNone(s, Cut(s, cs), s.waiters);
  }

  lemma QuietForgetsNone(cfg: Config, s: State, at: int, e: Event)
    requires Inv(s, s.waiters) && NoneForgotten(s, s.waiters) && Enabled(s, at, e)
    requires e.Leave? || e.Update? || e.RefreshTick? || e.TrailingFire?
    ensures
      var s' := Step(cfg, s, at, e);
      NoneForgotten(s', s'.waiters)
  {
    QuietStep(cfg, s, at, e);
    var s' := Step(cfg, s, at, e);
    forall c | c in s'.inbox ensures Welcomed(s', c) || Initial(c) in s'.waiters {
      assert Welcomed(s, c) || Initial(c) in s.waiters;
    }
  }

  lemma QuietStep(cfg: Config, s: State, at: int, e: Event)
    requires Plumbing(s, s.waiters) && Enabled(s, at, e)
    requires e.Leave? || e.Update? || e.RefreshTick? || e.TrailingFire?
    ensures
      var s' := Step(cfg, s, at, e);
      && s'.inbox == s.inbox && s'.greeted == s.greeted
      && forall w :: w in s.waiters ==> w in s'.waiters
  {
  }

  lemma {:induction false} ReachableForgetsNone(cfg: Config, created: nat, run: seq<Timed>)
    requires ValidRun(cfg, created, run)
    ensures NoneForgotten(After(cfg, created, run), After(cfg, created, run).waiters)
    decreases |run|
  {
    if run != [] {
      var before, last := run[..|run|-1], run[|run|-1];
      ReachableForgetsNone(cfg, created, before);
      ReachableInv(cfg, created, before);
      StepForgetsNone(cfg, After(cfg, created, before), last.at, last.event);
    }
  }

  /**
   No silent stream: in every reachable state each client that ever joined has a first frame or waits for
   the one read in flight; between reads everyone has it.
   */
  lemma {:induction false} NoSilentStream(cfg: Config, created: nat, run: seq<Timed>, c: Client)
    requires ValidRun(cfg, created, run) && c in After(cfg, created, run).inbox
    ensures
      var s := After(cfg, created, run);
      && (Welcomed(s, c) || (s.computing && Initial(c) in s.waiters))
      && (!s.computing ==> Welcomed(s, c))
  {
    ReachableForgetsNone(cfg, created, run);
    ReachableInv(cfg, created, run);
  }
}
