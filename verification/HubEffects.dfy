/**
 What the clients of a hub get to see of each callback (apps/realtime/src/hub.ts): of a read that fails or
 succeeds, of a revocation, of joining, and when a read is begun for everyone.
 */
module HubEffects {
  import opened Options
  import opened Hub
  import opened HubSafety
  import opened HubGreetings

  /** The client is sent `f`, perhaps among other frames, and loses nothing it was sent before. */
  ghost predicate Gets(s: State, s': State, c: Client, f: Frame) {
    && c in s.inbox && c in s'.inbox && s.inbox[c] <= s'.inbox[c]
    && exists k :: |s.inbox[c]| <= k < |s'.inbox[c]| && s'.inbox[c][k] == f
  }

  lemma GetsAtOnce(s: State, s1: State, s': State, c: Client, f: Frame)
    requires c in s.inbox && c in s1.inbox && s1.inbox[c] == s.inbox[c] + [f]
    requires Extends(s1, s')
    ensures Gets(s, s', c, f)
  {
    assert s'.inbox[c][|s.inbox[c]|] == f;
  }

  lemma GetsLater(s: State, s1: State, s': State, c: Client, f: Frame)
    requires Extends(s, s1) && c in s.inbox && Gets(s1, s', c, f)
    ensures Gets(s, s', c, f)
  {
    var k :| |s1.inbox[c]| <= k < |s'.inbox[c]| && s'.inbox[c][k] == f;
    assert s.inbox[c] <= s1.inbox[c] <= s'.inbox[c];
  }

  // ----- a read that fails -----

  /** A hub that has never read with success and has greeted anybody has said that it is degraded. */
  ghost predicate SaidSo(s: State) { s.cached.None? && s.greeted != {} ==> s.degraded }

  lemma {:induction false} ResumingSaysSo(s: State, at: int, ws: seq<Waiter>)
    requires SaidSo(s) && (s.lastComputeSucceeded ==> s.cached.Some?)
    ensures SaidSo(ResumeAll(s, at, ws))
    decreases |ws|
  {
    if ws != [] {
      ResumeSameCore(s, at, ws[0]);
      ResumingSaysSo(Resume(s, at, ws[0]), at, ws[1..]);
    }
  }

  lemma StepSaysSo(cfg: Config, s: State, at: int, e: Event)
    requires SaidSo(s) && Enabled(s, at, e) && (s.lastComputeSucceeded ==> s.cached.Some?)
    ensures SaidSo(Step(cfg, s, at, e))
  {
    if e.ReadDone? { ResumingSaysSo(Settle(s, at, e.result), at, s.waiters); }
  }

  lemma {:induction false} ReachableSaysSo(cfg: Config, created: nat, run: seq<Timed>)
    requires ValidRun(cfg, created, run)
    ensures SaidSo(After(cfg, created, run))
    decreases |run|
  {
    if run != [] {
      var before := run[..|run|-1];
      ReachableSaysSo(cfg, created, before);
      ReachableInv(cfg, created, before);
      StepSaysSo(cfg, After(cfg, created, before), run[|run|-1].at, run[|run|-1].event);
    }
  }

  /** In a degraded hub a failed read announces nothing. */
  lemma {:induction false} SilentWhileDegraded(s: State, at: int, ws: seq<Waiter>)
    requires !s.lastComputeSucceeded && s.degraded
    ensures ResumeAll(s, at, ws).news == s.news && ResumeAll(s, at, ws).degraded
    decreases |ws|
  {
    if ws != [] {
      ResumeSameCore(s, at, ws[0]);
      SilentWhileDegraded(Resume(s, at, ws[0]), at, ws[1..]);
    }
  }

  /** A joiner that waited for a first read that failed is told so. */
  lemma {:induction false} JoinerIsTold(s: State, at: int, ws: seq<Waiter>, c: Client)
    requires Inv(s, ws) && !s.computing && s.cached.None? && Initial(c) in ws && c in s.inbox
    ensures Gets(s, ResumeAll(s, at, ws), c, Control(s.seq_, Degraded))
    decreases |ws|
  {
    assert ws == [ws[0]] + ws[1..];
    var s1, s' := Resume(s, at, ws[0]), ResumeAll(s, at, ws);
    ResumeDelivers(s, at, ws[0], ws[1..]);
    ResumeAllDelivers(s1, at, ws[1..]);
    if ws[0] == Initial(c) {
      FirstFrameWelcomes(s, c);
      GetsAtOnce(s, s1, s', c, Control(s.seq_, Degraded));
    } else {
      JoinerIsTold(s1, at, ws[1..], c);
      GetsLater(s, s1, s', c, Control(s.seq_, Degraded));
    }
  }

  ghost predicate AllTold(s: State, s': State) {
    forall c :: c in s.clients ==> Gets(s, s', c, Control(s.seq_, Degraded))
  }

  /** The broadcaster's turn comes first: everyone is told by it. */
  lemma FailureToldAtOnce(s: State, at: int, ws: seq<Waiter>)
    requires Inv(s, ws) && !s.computing && !s.lastComputeSucceeded && !s.degraded && ws != [] && ws[0].Broadcast?
    ensures
      var s' := ResumeAll(s, at, ws);
      s'.degraded && AllTold(s, s') && s'.news == s.news + [Told(Degraded, s.seq_)]
  {
    assert ws == [ws[0]] + ws[1..];
    var s1, s' := Resume(s, at, ws[0]), ResumeAll(s, at, ws);
    FanOutAt(s.inbox, s.clients, Control(s.seq_, Degraded));
    ResumeDelivers(s, at, ws[0], ws[1..]);
    ResumeAllDelivers(s1, at, ws[1..]);
    SilentWhileDegraded(s1, at, ws[1..]);
    forall c | c in s.clients ensures Gets(s, s', c, Control(s.seq_, Degraded)) {
      GetsAtOnce(s, s1, s', c, Control(s.seq_, Degraded));
    }
  }

  /** Nobody has been greeted yet: every client waits for this very read. */
  lemma FirstReadFails(s: State, at: int, ws: seq<Waiter>)
    requires Inv(s, ws) && !s.computing && !s.lastComputeSucceeded && !s.degraded && s.cached.None?
    requires ws != [] && ws[0].Initial? && NoneForgotten(s, ws) && SaidSo(s)
    ensures
      var s' := ResumeAll(s, at, ws);
      s'.degraded && AllTold(s, s') && s'.news == s.news
  {
    var s1, s' := Resume(s, at, ws[0]), ResumeAll(s, at, ws);
    ResumeSameCore(s, at, ws[0]);
    SilentWhileDegraded(s1, at, ws[1..]);
    forall c | c in s.clients ensures Gets(s, s', c, Control(s.seq_, Degraded)) {
      assert Initial(c) in ws;
      JoinerIsTold(s, at, ws, c);
    }
  }

  lemma AllToldLater(s: State, s1: State, s': State)
    requires Extends(s, s1) && SameCore(s, s1) && AllTold(s1, s')
    requires forall c :: c in s.clients ==> c in s.inbox
    ensures AllTold(s, s')
  {
    forall c | c in s.clients ensures Gets(s, s', c, Control(s.seq_, Degraded)) {
      GetsLater(s, s1, s', c, Control(s.seq_, Degraded));
    }
  }

  lemma {:induction false} FailureTells(s: State, at: int, ws: seq<Waiter>)
    requires Inv(s, ws) && !s.computing && !s.lastComputeSucceeded && !s.degraded && Broadcast in ws
    requires NoneForgotten(s, ws) && SaidSo(s)
    ensures
      var s' := ResumeAll(s, at, ws);
      && s'.degraded && AllTold(s, s')
      && s'.news == s.news + if s.cached.Some? || ws[0].Broadcast? then [Told(Degraded, s.seq_)] else []
    decreases |ws|
  {
    assert ws == [ws[0]] + ws[1..];
    if ws[0].Broadcast? {
      FailureToldAtOnce(s, at, ws);
    } else if s.cached.None? {
      FirstReadFails(s, at, ws);
    } else {
      var s1 := FirstFrame(s, ws[0].client);
      ResumeDelivers(s, at, ws[0], ws[1..]);
      FirstFrameWelcomes(s, ws[0].client);
      GrowingForgetsNone(s, s1, ws);
      assert NoneForgotten(s1, ws[1..]);
      FailureTells(s1, at, ws[1..]);
      AllToldLater(s, s1, ResumeAll(s, at, ws));
    }
  }

  /**
   In a degraded hub nothing is announced.  A hub that is not degrades, every connected client is sent `degraded`,
   and that is announced once (unless the hub has never read with success and its first joiner's turn comes before
   the broadcaster's: then each client is told by its own first frame).
   */
  ghost predicate FailureSeen(s: State, s': State)
    requires s.waiters != []
  {
    && s'.degraded && s'.seq_ == s.seq_ && s'.cached == s.cached
    && if s.degraded then s'.news == s.news
       else
         && (forall c :: c in s.clients ==> Gets(s, s', c, Control(s.seq_, Degraded)))
         && s'.news == s.news + if s.cached.Some? || s.waiters[0].Broadcast? then [Told(Degraded, s.seq_)] else []
  }

  lemma FailureStep(s: State, s1: State, at: int)
    requires Inv(s1, s.waiters) && !s1.computing && !s1.lastComputeSucceeded && Broadcast in s.waiters
    requires NoneForgotten(s1, s.waiters) && SaidSo(s1)
    requires s1.inbox == s.inbox && s1.clients == s.clients && s1.seq_ == s.seq_ && s1.cached == s.cached
    requires s1.degraded == s.degraded && s1.news == s.news
    ensures FailureSeen(s, ResumeAll(s1, at, s.waiters))
  {
    ResumeAllDelivers(s1, at, s.waiters);
    if s.degraded {
      SilentWhileDegraded(s1, at, s.waiters);
    } else {
      FailureTells(s1, at, s.waiters);
      SameInboxTold(s, s1, ResumeAll(s1, at, s.waiters));
    }
  }

  lemma ReadFails(cfg: Config, s: State, at: int)
    requires Inv(s, s.waiters) && s.outstanding > 0 && Broadcast in s.waiters
    requires NoneForgotten(s, s.waiters) && SaidSo(s)
    ensures FailureSeen(s, Step(cfg, s, at, ReadDone(None)))
  {
    SettleKeeps(s, at, None);
    var s1 := Settle(s, at, None);
    assert NoneForgotten(s1, s.waiters);
    FailureStep(s, s1, at);
  }

  /** A read that was to be broadcast fails: everyone is told, unless they all were before. */
  lemma {:induction false} FailureIsAnnounced(cfg: Config, created: nat, run: seq<Timed>, at: int)
    requires ValidRun(cfg, created, run)
    requires var s := After(cfg, created, run); s.outstanding > 0 && Broadcast in s.waiters
    ensures
      var s := After(cfg, created, run);
      FailureSeen(s, Step(cfg, s, at, ReadDone(None)))
  {
    var s := After(cfg, created, run);
    ReachableInv(cfg, created, run);
    ReachableForgetsNone(cfg, created, run);
    ReachableSaysSo(cfg, created, run);
    ReadFails(cfg, s, at);
  }

  lemma SameInboxTold(s: State, s1: State, s': State)
    requires s1.inbox == s.inbox && s1.clients == s.clients && s1.seq_ == s.seq_ && AllTold(s1, s')
    ensures AllTold(s, s')
  {
    forall c | c in s.clients ensures Gets(s, s', c, Control(s.seq_, Degraded)) {
      assert Gets(s1, s', c, Control(s1.seq_, Degraded));
    }
  }

  // ----- a read that succeeds -----

  ghost predicate AllShown(s: State, s': State) {
    && s.cached.Some?
    && forall c :: c in s.clients ==>
         Gets(s, s', c, Snapshot(s.seq_, s.cached.value.presence, s.cached.value.generatedAt))
  }

  /** The same presence went out to everyone less than twenty seconds ago. */
  predicate Repeats(s: State, at: int) {
    s.cached.Some? && s.lastPayload == Some(s.cached.value.presence) && at - s.lastBroadcastAt < 20_000
  }

  lemma {:induction false} FirstFramesAreNoNews(s: State, at: int, ws: seq<Waiter>)
    requires Broadcast !in ws
    ensures ResumeAll(s, at, ws).news == s.news
    decreases |ws|
  {
    if ws != [] { FirstFramesAreNoNews(Resume(s, at, ws[0]), at, ws[1..]); }
  }

  lemma ShownAtOnce(s: State, at: int, ws: seq<Waiter>)
    requires Inv(s, ws) && !s.computing && s.lastComputeSucceeded && !s.degraded && ws != [] && ws[0].Broadcast?
    requires s.lastBroadcastSeq < s.seq_ && !Repeats(s, at)
    ensures var s' := ResumeAll(s, at, ws); s'.news == s.news + [Shown(s.seq_, s.clients)] && AllShown(s, s')
  {
    assert ws == [ws[0]] + ws[1..];
    var s1, s' := Resume(s, at, ws[0]), ResumeAll(s, at, ws);
    var f := Snapshot(s.seq_, s.cached.value.presence, s.cached.value.generatedAt);
    FanOutAt(s.inbox, s.clients, f);
    ResumeDelivers(s, at, ws[0], ws[1..]);
    ResumeAllDelivers(s1, at, ws[1..]);
    QuietAfterShow(s1, at, ws[1..]);
    forall c | c in s.clients ensures Gets(s, s', c, f) { GetsAtOnce(s, s1, s', c, f); }
  }

  lemma AllShownLater(s: State, s1: State, s': State)
    requires Extends(s, s1) && SameCore(s, s1) && AllShown(s1, s')
    requires forall c :: c in s.clients ==> c in s.inbox
    ensures AllShown(s, s')
  {
    var f := Snapshot(s.seq_, s.cached.value.presence, s.cached.value.generatedAt);
    forall c | c in s.clients ensures Gets(s, s', c, f) { GetsLater(s, s1, s', c, f); }
  }

  lemma {:induction false} SuccessShows(s: State, at: int, ws: seq<Waiter>)
    requires Inv(s, ws) && !s.computing && s.lastComputeSucceeded && !s.degraded && Broadcast in ws
    requires s.lastBroadcastSeq < s.seq_
    ensures
      var s' := ResumeAll(s, at, ws);
      if Repeats(s, at) then s'.news == s.news else s'.news == s.news + [Shown(s.seq_, s.clients)] && AllShown(s, s')
    decreases |ws|
  {
    assert ws == [ws[0]] + ws[1..];
    var s1 := Resume(s, at, ws[0]);
    ResumeDelivers(s, at, ws[0], ws[1..]);
    if ws[0].Broadcast? && !Repeats(s, at) {
      ShownAtOnce(s, at, ws);
    } else if Broadcast in ws[1..] {
      SuccessShows(s1, at, ws[1..]);
      if !Repeats(s, at) { AllShownLater(s, s1, ResumeAll(s, at, ws)); }
    } else {
      FirstFramesAreNoNews(s1, at, ws[1..]);
    }
  }

  /**
   Every connected client is sent the new snapshot under the next id, and that is announced once, unless everyone
   was sent the same presence less than twenty seconds ago; then nothing is announced.
   */
  ghost predicate SuccessSeen(s: State, s': State, p: Presence, at: int) {
    && s'.seq_ == s.seq_ + 1 && s'.cached == Some(Shot(p, at))
    && if s.lastPayload == Some(p) && at - s.lastBroadcastAt < 20_000 then s'.news == s.news
       else
         && s'.news == s.news + [Shown(s.seq_ + 1, s.clients)]
         && forall c :: c in s.clients ==> Gets(s, s', c, Snapshot(s.seq_ + 1, p, at))
  }

  lemma SuccessStep(s: State, s1: State, p: Presence, at: int)
    requires Inv(s1, s.waiters) && !s1.computing && s1.lastComputeSucceeded && !s1.degraded && Broadcast in s.waiters
    requires s1.lastBroadcastSeq < s1.seq_ && s1.lastPayload == s.lastPayload && s1.lastBroadcastAt == s.lastBroadcastAt
    requires s1.inbox == s.inbox && s1.clients == s.clients && s1.seq_ == s.seq_ + 1 && s1.cached == Some(Shot(p, at))
    requires s1.news == s.news
    ensures SuccessSeen(s, ResumeAll(s1, at, s.waiters), p, at)
  {
    ResumeAllDelivers(s1, at, s.waiters);
    SuccessShows(s1, at, s.waiters);
    if !Repeats(s1, at) { SameInboxShown(s, s1, ResumeAll(s1, at, s.waiters), p, at); }
  }

  lemma ReadSucceeds(cfg: Config, s: State, at: int, p: Presence)
    requires Inv(s, s.waiters) && s.outstanding > 0 && Broadcast in s.waiters && !s.degraded
    ensures SuccessSeen(s, Step(cfg, s, at, ReadDone(Some(p))), p, at)
  {
    SettleKeeps(s, at, Some(p));
    SuccessStep(s, Settle(s, at, Some(p)), p, at);
  }

  /** A read that was to be broadcast succeeds in a hub that is not degraded: everyone gets to see it. */
  lemma {:induction false} SuccessIsShown(cfg: Config, created: nat, run: seq<Timed>, at: int, p: Presence)
    requires ValidRun(cfg, created, run)
    requires var s := After(cfg, created, run); s.outstanding > 0 && Broadcast in s.waiters && !s.degraded
    ensures
      var s := After(cfg, created, run);
      SuccessSeen(s, Step(cfg, s, at, ReadDone(Some(p))), p, at)
  {
    var s := After(cfg, created, run);
    ReachableInv(cfg, created, run);
    ReadSucceeds(cfg, s, at, p);
  }

  lemma SameInboxShown(s: State, s1: State, s': State, p: Presence, at: int)
    requires s1.inbox == s.inbox && s1.clients == s.clients && s1.seq_ == s.seq_ + 1 && s1.cached == Some(Shot(p, at))
    requires AllShown(s1, s')
    ensures forall c :: c in s.clients ==> Gets(s, s', c, Snapshot(s.seq_ + 1, p, at))
  {
    forall c | c in s.clients ensures Gets(s, s', c, Snapshot(s.seq_ + 1, p, at)) {
      assert Gets(s1, s', c, Snapshot(s1.seq_, p, at));
    }
  }

  // ----- cuts -----

  /** Whom a control message overtakes: the subject `site` is everybody's, any other its own clients'. */
  predicate Overtaken(c: Client, subject: string, epoch: int) {
    if subject == "site" then c.siteEpoch < epoch else c.subject == subject && c.epoch < epoch
  }

  lemma CutReaches(s: State, cs: seq<Client>, c: Client)
    requires Distinct(cs) && (forall d :: d in cs ==> d in s.inbox) && c in s.inbox
    ensures
      var s' := Cut(s, cs);
      && c in s'.inbox && s'.inbox[c] == (if c in cs then s.inbox[c] + [Control(s.seq_, Disconnect)] else s.inbox[c])
      && (c in s'.closing <==> c in s.closing || c in cs)
  {
    FanOutAt(s.inbox, cs, Control(s.seq_, Disconnect));
  }

  /** Exactly the clients that `cut` names are sent `disconnect` and closed. */
  ghost predicate CutExactly(s: State, s': State, c: Client, cut: bool) {
    && c in s.inbox && c in s'.inbox
    && s'.inbox[c] == (if cut then s.inbox[c] + [Control(s.seq_, Disconnect)] else s.inbox[c])
    && (c in s'.closing <==> c in s.closing || cut)
  }

  lemma ControlStep(s: State, subject: string, epoch: int, c: Client)
    requires Plumbing(s, s.waiters) && c in s.inbox
    ensures CutExactly(s, Cut(s, Revoked(s.clients, subject, epoch)), c, c in s.clients && Overtaken(c, subject, epoch))
  {
    RevokedIs(s.clients, subject, epoch);
    CutReaches(s, Revoked(s.clients, subject, epoch), c);
  }

  /** A control message sends `disconnect` to the connected clients it overtakes and closes them, and nobody else. */
  lemma {:induction false} ControlCuts(
    cfg: Config, created: nat, run: seq<Timed>, at: int, subject: string, epoch: int, c: Client)
    requires ValidRun(cfg, created, run) && c in After(cfg, created, run).inbox
    ensures
      var s := After(cfg, created, run);
      var s' := Step(cfg, s, at, ControlMessage(subject, epoch));
      && CutExactly(s, s', c, c in s.clients && Overtaken(c, subject, epoch))
      && s'.clients == s.clients && s'.news == s.news && s'.computing == s.computing
  {
    ReachableInv(cfg, created, run);
    ControlStep(After(cfg, created, run), subject, epoch, c);
  }

  lemma ShutdownStep(cfg: Config, s: State, at: int, c: Client)
    requires Plumbing(s, s.waiters) && c in s.inbox
    ensures
      var s' := Step(cfg, s, at, Shutdown);
      CutExactly(s, s', c, c in s.clients) && s'.trailing.None? && s'.refresh.None?
  {
    CutReaches(s, s.clients, c);
  }

  /** The end of the process sends `disconnect` to every connected client and closes it, and stops both timers. */
  lemma {:induction false} ShutdownCuts(cfg: Config, created: nat, run: seq<Timed>, at: int, c: Client)
    requires ValidRun(cfg, created, run) && c in After(cfg, created, run).inbox
    ensures
      var s := After(cfg, created, run);
      var s' := Step(cfg, s, at, Shutdown);
      CutExactly(s, s', c, c in s.clients) && s'.trailing.None? && s'.refresh.None?
  {
    ReachableInv(cfg, created, run);
    ShutdownStep(cfg, After(cfg, created, run), at, c);
  }

  // ----- joining and leaving -----

  /** The joiner's first frame is the snapshot at hand, and no read is begun. */
  predicate ServedAtOnce(s: State, s': State, c: Client) {
    && s.cached.Some? && c in s'.inbox
    && s'.inbox[c] == [Snapshot(s.seq_, s.cached.value.presence, s.cached.value.generatedAt)]
    && s'.computing == s.computing && s'.waiters == s.waiters && s'.lastComputeMs == s.lastComputeMs
  }

  /** It waits, for the read in flight or for its own. */
  predicate Waits(s: State, s': State, at: int, c: Client) {
    && c in s'.inbox && s'.inbox[c] == [] && s'.computing && s'.waiters == s.waiters + [Initial(c)]
    && s'.lastComputeMs == if s.computing then s.lastComputeMs else at
  }

  predicate Served(cfg: Config, s: State, at: int, last: Option<int>) {
    s.cached.Some? && ((last.Some? && last.value >= s.seq_) || at - s.lastComputeMs < cfg.window)
  }

  lemma SendStep(cfg: Config, s: State, at: int, c: Client, last: Option<int>)
    requires c in s.inbox && s.inbox[c] == [] && (!s.computing ==> s.waiters == [])
    ensures
      var s' := SendInitial(cfg, s, at, c, last);
      && s'.clients == s.clients && s'.refresh == s.refresh
      && if Served(cfg, s, at, last) then ServedAtOnce(s, s', c) else Waits(s, s', at, c)
  {
    if Served(cfg, s, at, last) { FirstFrameWelcomes(s, c); }
  }

  lemma JoinStep(cfg: Config, s: State, at: int, c: Client, last: Option<int>)
    requires Plumbing(s, s.waiters) && c !in s.inbox
    ensures
      var s' := Step(cfg, s, at, Join(c, last));
      && s'.clients == s.clients + [c]
      && s'.refresh == (if s.refresh.Some? then s.refresh else Some(at + cfg.refresh))
      && if Served(cfg, s, at, last) then ServedAtOnce(s, s', c) else Waits(s, s', at, c)
  {
    SendStep(cfg, Add(cfg, s, at, c), at, c, last);
  }

  /**
   A joiner is served at once, with the snapshot at hand, exactly when there is one and the joiner names an id at
   or above the current one or the last read began within the window; any other waits for a read.
   */
  lemma {:induction false} JoinerIsServed(
    cfg: Config, created: nat, run: seq<Timed>, at: int, c: Client, last: Option<int>)
    requires ValidRun(cfg, created, run) && c !in After(cfg, created, run).inbox
    ensures
      var s := After(cfg, created, run);
      var s' := Step(cfg, s, at, Join(c, last));
      && s'.clients == s.clients + [c]
      && s'.refresh == (if s.refresh.Some? then s.refresh else Some(at + cfg.refresh))
      && if Served(cfg, s, at, last) then ServedAtOnce(s, s', c) else Waits(s, s', at, c)
  {
    ReachableInv(cfg, created, run);
    JoinStep(cfg, After(cfg, created, run), at, c, last);
  }

  /** A client that leaves is gone, the others stay, and the refresh stops with the last of them. */
  lemma {:induction false} LeaverIsGone(cfg: Config, created: nat, run: seq<Timed>, at: int, c: Client)
    requires ValidRun(cfg, created, run)
    ensures
      var s := After(cfg, created, run);
      var s' := Step(cfg, s, at, Leave(c));
      && (forall d :: d in s'.clients <==> d in s.clients && d != c)
      && s'.refresh == (if s'.clients == [] then None else s.refresh) && s'.inbox == s.inbox
  {
    ReachableInv(cfg, created, run);
    WithoutIs(After(cfg, created, run).clients, c);
  }

  // ----- begins for everyone -----

  /**
   When a read for everyone is begun, or the one in flight joined: at an update a window or more after the last
   read began, else at the end of that window, for which one timer is armed; when that timer fires; and at a tick,
   which always arms the next one, with somebody connected, no such timer armed and the window over.
   */
  lemma WhoReads(cfg: Config, s: State, at: int, e: Event)
    requires Enabled(s, at, e) && (e.Update? || e.RefreshTick? || e.TrailingFire?) && (!s.computing ==> s.waiters == [])
    ensures
      var s' := Step(cfg, s, at, e);
      var ended := at - s.lastComputeMs >= cfg.window;
      var begins := e.TrailingFire? || (ended && (e.Update? || (s.clients != [] && s.trailing.None?)));
      && (if begins then s'.computing && s'.waiters == s.waiters + [Broadcast]
          else s'.computing == s.computing && s'.waiters == s.waiters)
      && s'.lastComputeMs == (if begins && !s.computing then at else s.lastComputeMs)
      && s'.refresh == (if e.RefreshTick? then Some(at + cfg.refresh) else s.refresh)
      && s'.trailing ==
           (if e.TrailingFire? then None
            else if e.Update? && !ended && s.trailing.None? then Some(s.lastComputeMs + cfg.window)
            else s.trailing)
      && s'.clients == s.clients && s'.inbox == s.inbox && s'.news == s.news
  {
  }
}
