/**
 What every reachable state of the snapshot hub keeps: one read in flight, ids that name
 one snapshot, the degraded/recovered discipline, and the agreement that makes
 suppressing an unchanged snapshot harmless.
 */
module HubSafety {
  import opened Options
  import opened Hub

  ghost predicate Distinct(cs: seq<Client>) {
    forall i, j :: 0 <= i < j < |cs| ==> cs[i] != cs[j]
  }

  function NewsId(n: News): int { n.id }

  predicate IsTold(n: News, a: Action) { n.Told? && n.action == a }

  ghost predicate ToldBetween(news: seq<News>, a: Action, i: int, j: int) {
    exists k :: i < k < j && 0 <= k < |news| && IsTold(news[k], a)
  }

  function LastSnapshot(frames: seq<Frame>): Option<Frame> {
    if frames == [] then None
    else if frames[|frames|-1].Snapshot? then Some(frames[|frames|-1])
    else LastSnapshot(frames[..|frames|-1])
  }

  // ----- the invariant -----

  /** `pending` are the awaiters of the latest read that have not resumed yet. */
  ghost predicate Plumbing(s: State, pending: seq<Waiter>) {
    && s.outstanding == (if s.computing then 1 else 0)
    && Distinct(s.clients)
    && (forall c :: c in s.clients ==> c in s.inbox)
    && s.greeted <= s.inbox.Keys
    && (forall i :: 0 <= i < |pending| && pending[i].Initial? ==>
          pending[i].client in s.inbox && pending[i].client !in s.greeted)
    && (forall i, j :: 0 <= i < j < |pending| && pending[i].Initial? && pending[j].Initial? ==>
          pending[i].client != pending[j].client)
    && (!s.computing ==> s.waiters == [])
    && (s.computing ==> s.waiters == pending)
  }

  /** A frame names nothing newer than the latest read, and a snapshot is the read its id counts. */
  ghost predicate FrameOk(seed: int, shots: seq<Shot>, f: Frame) {
    && f.id <= seed + |shots|
    && (f.Snapshot? ==>
          && seed < f.id
          && f.presence == shots[f.id - seed - 1].presence
          && f.generatedAt == shots[f.id - seed - 1].generatedAt)
  }

  ghost predicate InboxOk(seed: int, shots: seq<Shot>, frames: seq<Frame>) {
    && (forall k :: 0 <= k < |frames| ==> FrameOk(seed, shots, frames[k]))
    && (forall j, k :: 0 <= j < k < |frames| ==> frames[j].id <= frames[k].id)
  }

  ghost predicate Truthful(s: State) {
    && s.seed >= 0
    && s.seq_ == s.seed + |s.shots|
    && s.cached == (if s.shots == [] then None else Some(s.shots[|s.shots|-1]))
    && (s.lastComputeSucceeded ==> s.cached.Some?)
    && s.lastBroadcastSeq <= s.seq_
    && (forall c :: c in s.inbox ==> InboxOk(s.seed, s.shots, s.inbox[c]))
  }

  ghost predicate Radio(s: State) {
    && (forall i :: 0 <= i < |s.news| ==> NewsId(s.news[i]) <= s.seq_)
    && (s.degraded && s.lastComputeSucceeded ==>
          && s.lastBroadcastSeq < s.seq_
          && forall i :: 0 <= i < |s.news| ==> NewsId(s.news[i]) < s.seq_)
    && (forall i :: 0 <= i < |s.news| && IsTold(s.news[i], Degraded) ==>
          s.degraded || ToldBetween(s.news, Recovered, i, |s.news|))
    && (forall i, j :: 0 <= i < j < |s.news| && IsTold(s.news[i], Degraded) && IsTold(s.news[j], Degraded) ==>
          ToldBetween(s.news, Recovered, i, j))
    && (forall i :: 0 <= i < |s.news| && IsTold(s.news[i], Recovered) ==>
          && i + 1 < |s.news|
          && s.news[i+1].Shown?
          && NewsId(s.news[i+1]) == NewsId(s.news[i])
          && forall j :: 0 <= j < i ==> NewsId(s.news[j]) < NewsId(s.news[i]))
  }

  predicate Holds(frames: seq<Frame>, id: int, payload: Option<Presence>) {
    var last := LastSnapshot(frames);
    && last.Some? && last.value.Snapshot? && last.value.id == id && Some(last.value.presence) == payload
  }

  ghost predicate Agreement(s: State) {
    && s.agreed <= s.greeted
    && forall c :: c in s.agreed ==> c in s.inbox && Holds(s.inbox[c], s.lastBroadcastSeq, s.lastPayload)
  }

  ghost predicate Inv(s: State, pending: seq<Waiter>) {
    Plumbing(s, pending) && Truthful(s) && Radio(s) && Agreement(s)
  }

  // ----- delivery -----

  lemma {:induction false} FanOutAt(inbox: map<Client, seq<Frame>>, cs: seq<Client>, f: Frame)
    requires Distinct(cs)
    requires forall c :: c in cs ==> c in inbox
    ensures FanOut(inbox, cs, f).Keys == inbox.Keys
    ensures forall c :: c in inbox ==> FanOut(inbox, cs, f)[c] == (if c in cs then inbox[c] + [f] else inbox[c])
  {
    if cs != [] {
      var rest, last := cs[..|cs|-1], cs[|cs|-1];
      FanOutAt(inbox, rest, f);
      assert cs == rest + [last];
      assert last !in rest;
    }
  }

  lemma LastSnapshotSnoc(frames: seq<Frame>, f: Frame)
    ensures LastSnapshot(frames + [f]) == (if f.Snapshot? then Some(f) else LastSnapshot(frames))
  {
    assert (frames + [f])[..|frames|] == frames;
  }

  lemma InboxSnoc(seed: int, shots: seq<Shot>, frames: seq<Frame>, f: Frame)
    requires InboxOk(seed, shots, frames) && FrameOk(seed, shots, f) && f.id == seed + |shots|
    ensures InboxOk(seed, shots, frames + [f])
  {
  }

  /** Sending everybody in `cs` a frame with the current id keeps the invariant. */
  lemma PostKeeps(s: State, cs: seq<Client>, f: Frame, pending: seq<Waiter>)
    requires Inv(s, pending)
    requires Distinct(cs) && forall c :: c in cs ==> c in s.inbox
    requires f.id == s.seq_ && FrameOk(s.seed, s.shots, f)
    requires f.Snapshot? ==> forall c :: c in cs ==> c !in s.agreed
    ensures Inv(Post(s, cs, f), pending)
    ensures Post(s, cs, f).inbox.Keys == s.inbox.Keys
  {
    FanOutAt(s.inbox, cs, f);
    PostTruthful(s, cs, f);
    PostAgrees(s, cs, f);
    PostRadio(s, cs, f);
  }

  lemma PostTruthful(s: State, cs: seq<Client>, f: Frame)
    requires Truthful(s) && Distinct(cs) && forall c :: c in cs ==> c in s.inbox
    requires f.id == s.seq_ && FrameOk(s.seed, s.shots, f)
    ensures Truthful(Post(s, cs, f))
  {
    FanOutOk(s.seed, s.shots, s.inbox, cs, f);
  }

  lemma FanOutOk(seed: int, shots: seq<Shot>, inbox: map<Client, seq<Frame>>, cs: seq<Client>, f: Frame)
    requires Distinct(cs) && (forall c :: c in cs ==> c in inbox)
    requires forall c :: c in inbox ==> InboxOk(seed, shots, inbox[c])
    requires FrameOk(seed, shots, f) && f.id == seed + |shots|
    ensures forall c :: c in FanOut(inbox, cs, f) ==> InboxOk(seed, shots, FanOut(inbox, cs, f)[c])
  {
    FanOutAt(inbox, cs, f);
    forall c | c in inbox ensures InboxOk(seed, shots, FanOut(inbox, cs, f)[c]) {
      InboxSnoc(seed, shots, inbox[c], f);
    }
  }

  lemma PostAgrees(s: State, cs: seq<Client>, f: Frame)
    requires Agreement(s) && Distinct(cs) && forall c :: c in cs ==> c in s.inbox
    requires f.Snapshot? ==> forall c :: c in cs ==> c !in s.agreed
    ensures Agreement(Post(s, cs, f))
  {
    FanOutAt(s.inbox, cs, f);
    forall c | c in s.agreed ensures Holds(Post(s, cs, f).inbox[c], s.lastBroadcastSeq, s.lastPayload) {
      LastSnapshotSnoc(s.inbox[c], f);
    }
  }

  lemma PostRadio(s: State, cs: seq<Client>, f: Frame)
    requires Radio(s)
    ensures Radio(Post(s, cs, f))
  {
  }

  lemma FirstFrameKeeps(s: State, c: Client, rest: seq<Waiter>)
    requires Inv(s, [Initial(c)] + rest) && !s.computing
    ensures Inv(FirstFrame(s, c), rest)
  {
    var all := [Initial(c)] + rest;
    assert all[0] == Initial(c);
    assert forall i :: 0 <= i < |rest| ==> all[i+1] == rest[i];
    FirstFrameAlone(s, c, rest);
  }

  lemma GreetKeeps(s: State, c: Client, pending: seq<Waiter>)
    requires Inv(s, pending) && c in s.inbox
    requires forall i :: 0 <= i < |pending| ==> pending[i] != Initial(c)
    ensures Inv(s.(greeted := s.greeted + {c}), pending)
  {
  }

  lemma LatchKeeps(s: State, pending: seq<Waiter>)
    requires Inv(s, pending) && !s.lastComputeSucceeded
    ensures Inv(s.(degraded := true), pending)
  {
  }

  lemma FirstFrameAlone(s: State, c: Client, pending: seq<Waiter>)
    requires Inv(s, pending)
    requires c in s.inbox && c !in s.greeted
    requires forall i :: 0 <= i < |pending| ==> pending[i] != Initial(c)
    ensures Inv(FirstFrame(s, c), pending)
  {
    var f := match s.cached
      case Some(shot) => Snapshot(s.seq_, shot.presence, shot.generatedAt)
      case None => Control(s.seq_, Degraded);
    PostKeeps(s, [c], f, pending);
    GreetKeeps(Post(s, [c], f), c, pending);
    if s.cached.None? {
      LatchKeeps(Post(s.(greeted := s.greeted + {c}), [c], f), pending);
    }
  }

  // ----- announcements -----

  lemma ToldBetweenGrows(news: seq<News>, n: News, a: Action, i: int, j: int)
    requires ToldBetween(news, a, i, j)
    ensures ToldBetween(news + [n], a, i, j)
    ensures j == |news| ==> ToldBetween(news + [n], a, i, j + 1)
  {
    var k :| i < k < j && 0 <= k < |news| && IsTold(news[k], a);
    assert IsTold((news + [n])[k], a);
  }

  lemma DegradedKeeps(s: State, pending: seq<Waiter>)
    requires Inv(s, pending) && !s.degraded && !s.lastComputeSucceeded
    ensures Inv(BroadcastControl(s.(degraded := true), Degraded), pending)
  {
    var f := Control(s.seq_, Degraded);
    PostKeeps(s, s.clients, f, pending);
    DegradedRadio(s, BroadcastControl(s.(degraded := true), Degraded));
  }

  lemma DegradedRadio(s: State, s': State)
    requires Radio(s) && !s.degraded
    requires s'.news == s.news + [Told(Degraded, s.seq_)] && s'.seq_ == s.seq_ && s'.degraded && !s'.lastComputeSucceeded
    ensures Radio(s')
  {
    forall i, j | 0 <= i < j < |s'.news| && IsTold(s'.news[i], Degraded) && IsTold(s'.news[j], Degraded)
      ensures ToldBetween(s'.news, Recovered, i, j)
    {
      ToldBetweenGrows(s.news, Told(Degraded, s.seq_), Recovered, i, j);
    }
  }

  /** The snapshot broadcast itself, whatever was announced before it. */
  lemma ShowKeeps(s: State, at: int, pending: seq<Waiter>)
    requires Plumbing(s, pending) && Truthful(s)
    requires s.cached.Some? && s.seq_ != s.lastBroadcastSeq
    ensures
      var s' := BroadcastCurrent(s, at, true);
      && Plumbing(s', pending) && Truthful(s') && Agreement(s')
      && s'.news == s.news + [Shown(s.seq_, s.clients)]
      && s'.seq_ == s.seq_ && s'.degraded == s.degraded && s'.lastComputeSucceeded == s.lastComputeSucceeded
  {
    ShowDelivers(s, s.clients, Snapshot(s.seq_, s.cached.value.presence, s.cached.value.generatedAt));
  }

  lemma ShowDelivers(s: State, cs: seq<Client>, f: Frame)
    requires Truthful(s) && Distinct(cs) && forall c :: c in cs ==> c in s.inbox
    requires f.Snapshot? && f.id == s.seq_ && FrameOk(s.seed, s.shots, f)
    ensures
      var inbox := FanOut(s.inbox, cs, f);
      && inbox.Keys == s.inbox.Keys
      && (forall c :: c in inbox ==> InboxOk(s.seed, s.shots, inbox[c]))
      && forall c :: c in cs ==> Holds(inbox[c], f.id, Some(f.presence))
  {
    FanOutAt(s.inbox, cs, f);
    forall c | c in s.inbox ensures InboxOk(s.seed, s.shots, FanOut(s.inbox, cs, f)[c]) {
      InboxSnoc(s.seed, s.shots, s.inbox[c], f);
    }
    forall c | c in cs ensures Holds(FanOut(s.inbox, cs, f)[c], f.id, Some(f.presence)) {
      LastSnapshotSnoc(s.inbox[c], f);
    }
  }

  lemma AfterComputeKeeps(s: State, at: int, pending: seq<Waiter>)
    requires Inv(s, pending)
    ensures Inv(AfterCompute(s, at), pending)
  {
    if !s.lastComputeSucceeded {
      if !s.degraded { DegradedKeeps(s, pending); }
    } else if s.degraded {
      RecoveryKeeps(s, at, pending);
    } else if s.seq_ != s.lastBroadcastSeq && !Suppressed(s, at) {
      ShowKeeps(s, at, pending);
      var s' := BroadcastCurrent(s, at, false);
      assert s' == BroadcastCurrent(s, at, true);
      ShownRadio(s, s', Shown(s.seq_, s.clients));
    }
  }

  lemma ShownRadio(s: State, s': State, n: News)
    requires Radio(s) && n.Shown? && n.id == s.seq_ && !s.degraded
    requires s'.news == s.news + [n] && s'.seq_ == s.seq_ && !s'.degraded
    ensures Radio(s')
  {
    forall i | 0 <= i < |s'.news| && IsTold(s'.news[i], Degraded)
      ensures ToldBetween(s'.news, Recovered, i, |s'.news|)
    {
      ToldBetweenGrows(s.news, n, Recovered, i, |s.news|);
    }
    forall i, j | 0 <= i < j < |s'.news| && IsTold(s'.news[i], Degraded) && IsTold(s'.news[j], Degraded)
      ensures ToldBetween(s'.news, Recovered, i, j)
    {
      ToldBetweenGrows(s.news, n, Recovered, i, j);
    }
  }

  lemma RecoveryKeeps(s: State, at: int, pending: seq<Waiter>)
    requires Inv(s, pending) && s.lastComputeSucceeded && s.degraded
    ensures Inv(AfterCompute(s, at), pending)
    ensures AfterCompute(s, at).news == s.news + [Told(Recovered, s.seq_)] + [Shown(s.seq_, s.clients)]
  {
    PostKeeps(s, s.clients, Control(s.seq_, Recovered), pending);
    var s1 := BroadcastControl(s.(degraded := false), Recovered);
    ShowKeeps(s1, at, pending);
    RecoveryRadio(s, AfterCompute(s, at));
  }

  lemma RecoveryRadio(s: State, s': State)
    requires Radio(s) && s.degraded && s.lastComputeSucceeded
    requires s'.news == s.news + [Told(Recovered, s.seq_)] + [Shown(s.seq_, s.clients)]
    requires s'.seq_ == s.seq_ && !s'.degraded
    ensures Radio(s')
  {
    var told, shown := Told(Recovered, s.seq_), Shown(s.seq_, s.clients);
    assert IsTold(s'.news[|s.news|], Recovered);
    forall i, j | 0 <= i < j < |s'.news| && IsTold(s'.news[i], Degraded) && IsTold(s'.news[j], Degraded)
      ensures ToldBetween(s'.news, Recovered, i, j)
    {
      ToldBetweenGrows(s.news, told, Recovered, i, j);
      ToldBetweenGrows(s.news + [told], shown, Recovered, i, j);
    }
  }

  // ----- a completed read -----

  lemma {:induction false} ResumeAllKeeps(s: State, at: int, ws: seq<Waiter>)
    requires Inv(s, ws) && !s.computing
    ensures Inv(ResumeAll(s, at, ws), []) && !ResumeAll(s, at, ws).computing
    decreases |ws|
  {
    if ws != [] {
      assert ws == [ws[0]] + ws[1..];
      if ws[0].Broadcast? {
        AfterComputeKeeps(s, at, ws);
        assert Plumbing(AfterCompute(s, at), ws[1..]);
      } else {
        FirstFrameKeeps(s, ws[0].client, ws[1..]);
      }
      ResumeAllKeeps(Resume(s, at, ws[0]), at, ws[1..]);
    }
  }

  lemma SettleKeeps(s: State, at: int, result: Option<Presence>)
    requires Inv(s, s.waiters) && s.outstanding > 0
    ensures Inv(Settle(s, at, result), s.waiters)
  {
    var s' := Settle(s, at, result);
    assert Radio(s');
    forall c | c in s'.inbox ensures InboxOk(s'.seed, s'.shots, s'.inbox[c]) {
      assert InboxOk(s.seed, s.shots, s.inbox[c]);
    }
  }

  // ----- every step -----

  lemma {:induction false} WithoutIs(cs: seq<Client>, c: Client)
    requires Distinct(cs)
    ensures Distinct(Without(cs, c))
    ensures forall d :: d in Without(cs, c) <==> d in cs && d != c
  {
    if cs != [] {
      var rest, last := cs[..|cs|-1], cs[|cs|-1];
      assert cs == rest + [last];
      WithoutIs(rest, c);
      assert last !in rest;
    }
  }

  /** A control message selects exactly the connected clients it revokes. */
  lemma {:induction false} RevokedIs(cs: seq<Client>, subject: string, epoch: int)
    requires Distinct(cs)
    ensures Distinct(Revoked(cs, subject, epoch))
    ensures forall c :: c in Revoked(cs, subject, epoch) <==> c in cs && Revokes(c, subject, epoch)
  {
    if cs != [] {
      var rest, last := cs[..|cs|-1], cs[|cs|-1];
      assert cs == rest + [last];
      RevokedIs(rest, subject, epoch);
      assert last !in rest;
    }
  }

  lemma CutKeeps(s: State, cs: seq<Client>)
    requires Inv(s, s.waiters)
    requires Distinct(cs) && forall c :: c in cs ==> c in s.clients
    ensures Inv(Cut(s, cs), s.waiters)
  {
    PostKeeps(s, cs, Control(s.seq_, Disconnect), s.waiters);
  }

  lemma RunComputeKeeps(s: State, at: int, w: Waiter)
    requires Inv(s, s.waiters)
    requires w.Initial? ==>
               && w.client in s.inbox && w.client !in s.greeted
               && forall i :: 0 <= i < |s.waiters| ==> s.waiters[i] != w
    ensures Inv(RunCompute(s, at, w), RunCompute(s, at, w).waiters)
  {
  }

  lemma AddKeeps(cfg: Config, s: State, at: int, c: Client)
    requires Inv(s, s.waiters) && c !in s.inbox
    ensures
      var s' := Add(cfg, s, at, c);
      && Inv(s', s'.waiters) && c in s'.inbox && c !in s'.greeted
      && forall i :: 0 <= i < |s'.waiters| ==> s'.waiters[i] != Initial(c)
  {
    var s' := Add(cfg, s, at, c);
    assert s'.inbox == s.inbox[c := []];
    assert Plumbing(s', s'.waiters);
  }

  lemma JoinKeeps(cfg: Config, s: State, at: int, c: Client, last: Option<int>)
    requires Inv(s, s.waiters) && c !in s.inbox
    ensures var s' := SendInitial(cfg, Add(cfg, s, at, c), at, c, last); Inv(s', s'.waiters)
  {
    AddKeeps(cfg, s, at, c);
    var s1 := Add(cfg, s, at, c);
    if SendInitial(cfg, s1, at, c, last) == FirstFrame(s1, c) {
      FirstFrameAlone(s1, c, s1.waiters);
      assert FirstFrame(s1, c).waiters == s1.waiters;
    } else {
      RunComputeKeeps(s1, at, Initial(c));
    }
  }

  lemma TrailingSetKeeps(s: State, trailing: Option<int>)
    requires Inv(s, s.waiters)
    ensures Inv(s.(trailing := trailing), s.waiters)
  {
  }

  lemma RefreshSetKeeps(s: State, refresh: Option<int>)
    requires Inv(s, s.waiters)
    ensures Inv(s.(refresh := refresh), s.waiters)
  {
  }

  lemma LeaveKeeps(s: State, c: Client)
    requires Inv(s, s.waiters)
    ensures Inv(Remove(s, c), s.waiters)
  {
    WithoutIs(s.clients, c);
  }

  lemma UpdateKeeps(cfg: Config, s: State, at: int)
    requires Inv(s, s.waiters)
    ensures var s' := OnUpdate(cfg, s, at); Inv(s', s'.waiters)
  {
    var due := Some(at + (cfg.window - (at - s.lastComputeMs)));
    if at - s.lastComputeMs >= cfg.window {
      RunComputeKeeps(s, at, Broadcast);
      assert OnUpdate(cfg, s, at) == RunCompute(s, at, Broadcast);
    } else if s.trailing.None? {
      TrailingSetKeeps(s, due);
      assert OnUpdate(cfg, s, at) == s.(trailing := due);
    } else {
      assert OnUpdate(cfg, s, at) == s;
    }
  }

  lemma RefreshKeeps(cfg: Config, s: State, at: int)
    requires Inv(s, s.waiters)
    ensures var s' := OnRefresh(cfg, s, at); Inv(s', s'.waiters)
  {
    var s1 := s.(refresh := Some(at + cfg.refresh));
    RefreshSetKeeps(s, Some(at + cfg.refresh));
    if s.clients == [] || s.trailing.Some? || at - s.lastComputeMs < cfg.window {
      assert OnRefresh(cfg, s, at) == s1;
    } else {
      RunComputeKeeps(s1, at, Broadcast);
      assert OnRefresh(cfg, s, at) == RunCompute(s1, at, Broadcast);
    }
  }

  lemma TrailingKeeps(s: State, at: int)
    requires Inv(s, s.waiters)
    ensures var s' := RunCompute(s.(trailing := None), at, Broadcast); Inv(s', s'.waiters)
  {
    TrailingSetKeeps(s, None);
    RunComputeKeeps(s.(trailing := None), at, Broadcast);
  }

  /** Every callback keeps the invariant. */
  lemma StepKeeps(cfg: Config, s: State, at: int, e: Event)
    requires Inv(s, s.waiters) && Enabled(s, at, e)
    ensures Inv(Step(cfg, s, at, e), Step(cfg, s, at, e).waiters)
  {
    match e
    case Join(c, last) => JoinKeeps(cfg, s, at, c, last);
    case Leave(c) => LeaveKeeps(s, c);
    case ControlMessage(subject, epoch) =>
      RevokedIs(s.clients, subject, epoch);
      CutKeeps(s, Revoked(s.clients, subject, epoch));
    case ReadDone(result) =>
      SettleKeeps(s, at, result);
      ResumeAllKeeps(Settle(s, at, result), at, s.waiters);
    case Shutdown =>
      CutKeeps(s, s.clients);
      TrailingSetKeeps(Cut(s, s.clients), None);
      RefreshSetKeeps(Cut(s, s.clients).(trailing := None), None);
    case Update => UpdateKeeps(cfg, s, at);
    case RefreshTick => RefreshKeeps(cfg, s, at);
    case TrailingFire => TrailingKeeps(s, at);
  }

  lemma {:induction false} ReachableInv(cfg: Config, created: nat, run: seq<Timed>)
    requires ValidRun(cfg, created, run)
    ensures var s := After(cfg, created, run); Inv(s, s.waiters)
    decreases |run|
  {
    if run != [] {
      ReachableInv(cfg, created, run[..|run|-1]);
      StepKeeps(cfg, After(cfg, created, run[..|run|-1]), run[|run|-1].at, run[|run|-1].event);
    }
  }

  // ----- what a run promises -----

  /** At most one presence read is in flight, however many callbacks ask for one. */
  lemma {:induction false} SingleFlight(cfg: Config, created: nat, run: seq<Timed>)
    requires ValidRun(cfg, created, run)
    ensures After(cfg, created, run).outstanding <= 1
    ensures After(cfg, created, run).outstanding == 1 <==> After(cfg, created, run).computing
  {
    ReachableInv(cfg, created, run);
  }

  /** Two degraded announcements are separated by a recovered one. */
  lemma {:induction false} DegradedThenRecovered(cfg: Config, created: nat, run: seq<Timed>, i: nat, j: nat)
    requires ValidRun(cfg, created, run)
    requires i < j < |After(cfg, created, run).news|
    requires IsTold(After(cfg, created, run).news[i], Degraded) && IsTold(After(cfg, created, run).news[j], Degraded)
    ensures exists k :: i < k < j && IsTold(After(cfg, created, run).news[k], Recovered)
  {
    ReachableInv(cfg, created, run);
    assert ToldBetween(After(cfg, created, run).news, Recovered, i, j);
  }

  /** Every recovered announcement is followed at once by a snapshot, under an id above all earlier announcements. */
  lemma {:induction false} RecoveredThenSnapshot(cfg: Config, created: nat, run: seq<Timed>, i: nat)
    requires ValidRun(cfg, created, run)
    requires i < |After(cfg, created, run).news| && IsTold(After(cfg, created, run).news[i], Recovered)
    ensures
      var news := After(cfg, created, run).news;
      && i + 1 < |news| && news[i+1].Shown? && news[i+1].id == news[i].id
      && forall j :: 0 <= j < i ==> news[j].id < news[i].id
  {
    ReachableInv(cfg, created, run);
    var news := After(cfg, created, run).news;
    forall j | 0 <= j < i ensures news[j].id < news[i].id { assert NewsId(news[j]) < NewsId(news[i]); }
    assert NewsId(news[i+1]) == NewsId(news[i]);
  }

  /** Ids never go back for a client, and within a hub an id names one snapshot. */
  lemma {:induction false} IdNamesOneSnapshot(cfg: Config, created: nat, run: seq<Timed>, c: Client, d: Client, i: nat, j: nat)
    requires ValidRun(cfg, created, run)
    requires var inbox := After(cfg, created, run).inbox; c in inbox && d in inbox && i < |inbox[c]| && j < |inbox[d]|
    ensures
      var inbox := After(cfg, created, run).inbox;
      && (c == d && i <= j ==> inbox[c][i].id <= inbox[d][j].id)
      && (inbox[c][i].Snapshot? && inbox[d][j].Snapshot? && inbox[c][i].id == inbox[d][j].id ==>
            inbox[c][i] == inbox[d][j])
  {
    ReachableInv(cfg, created, run);
    FramesAgree(After(cfg, created, run), c, d, i, j);
  }

  lemma FramesAgree(s: State, c: Client, d: Client, i: nat, j: nat)
    requires Truthful(s) && c in s.inbox && d in s.inbox && i < |s.inbox[c]| && j < |s.inbox[d]|
    ensures c == d && i <= j ==> s.inbox[c][i].id <= s.inbox[d][j].id
    ensures s.inbox[c][i].Snapshot? && s.inbox[d][j].Snapshot? && s.inbox[c][i].id == s.inbox[d][j].id ==>
      s.inbox[c][i] == s.inbox[d][j]
  {
    assert InboxOk(s.seed, s.shots, s.inbox[c]) && InboxOk(s.seed, s.shots, s.inbox[d]);
    assert FrameOk(s.seed, s.shots, s.inbox[c][i]) && FrameOk(s.seed, s.shots, s.inbox[d][j]);
  }

  // ----- one completed read, seen from the clients -----

  ghost predicate Extends(s: State, s': State) {
    forall c :: c in s.inbox ==> c in s'.inbox && s.inbox[c] <= s'.inbox[c]
  }

  /** What resuming an awaiter never touches. */
  ghost predicate SameCore(s: State, s': State) {
    && s'.seq_ == s.seq_ && s'.shots == s.shots && s'.seed == s.seed && s'.cached == s.cached
    && s'.clients == s.clients && s'.trailing == s.trailing && s'.refresh == s.refresh
    && s'.lastComputeMs == s.lastComputeMs && s'.lastComputeSucceeded == s.lastComputeSucceeded
    && s'.outstanding == s.outstanding && s'.computing == s.computing && s'.closing == s.closing
  }

  lemma ResumeSameCore(s: State, at: int, w: Waiter)
    ensures SameCore(s, Resume(s, at, w))
  {
  }

  lemma FirstFrameExtends(s: State, c: Client)
    requires c in s.inbox
    ensures Extends(s, FirstFrame(s, c))
  {
    var f := match s.cached
      case Some(shot) => Snapshot(s.seq_, shot.presence, shot.generatedAt)
      case None => Control(s.seq_, Degraded);
    FanOutAt(s.inbox, [c], f);
    assert FirstFrame(s, c).inbox == FanOut(s.inbox, [c], f);
  }

  /** Resuming an awaiter only delivers: it neither reads nor moves the cache, the clients or the timers. */
  lemma ResumeDelivers(s: State, at: int, w: Waiter, rest: seq<Waiter>)
    requires Inv(s, [w] + rest) && !s.computing
    ensures var s' := Resume(s, at, w); Inv(s', rest) && Extends(s, s') && SameCore(s, s')
  {
    ResumeSameCore(s, at, w);
    var ws := [w] + rest;
    assert ws[0] == w;
    if w.Broadcast? {
      AfterComputeKeeps(s, at, ws);
      PendingTail(AfterCompute(s, at), w, rest);
      AfterComputeExtends(s, at);
    } else {
      FirstFrameKeeps(s, w.client, rest);
      FirstFrameExtends(s, w.client);
    }
  }

  lemma PendingTail(s: State, w: Waiter, rest: seq<Waiter>)
    requires Inv(s, [w] + rest) && !s.computing
    ensures Inv(s, rest)
  {
    assert forall i :: 0 <= i < |rest| ==> ([w] + rest)[i+1] == rest[i];
  }

  lemma AfterComputeExtends(s: State, at: int)
    requires Distinct(s.clients) && forall c :: c in s.clients ==> c in s.inbox
    ensures Extends(s, AfterCompute(s, at))
    ensures s.lastComputeSucceeded && s.degraded && s.cached.Some? && s.seq_ != s.lastBroadcastSeq ==>
              (forall c :: c in s.clients ==>
                (c in AfterCompute(s, at).inbox
                && AfterCompute(s, at).inbox[c] ==
                  s.inbox[c] + [Control(s.seq_, Recovered)] +
                  [Snapshot(s.seq_, s.cached.value.presence, s.cached.value.generatedAt)]))
  {
    var told := if s.lastComputeSucceeded then Control(s.seq_, Recovered) else Control(s.seq_, Degraded);
    FanOutAt(s.inbox, s.clients, told);
    if s.cached.Some? {
      var shot := s.cached.value;
      var f := Snapshot(s.seq_, shot.presence, shot.generatedAt);
      FanOutAt(s.inbox, s.clients, f);
      FanOutAt(FanOut(s.inbox, s.clients, told), s.clients, f);
    }
  }

  lemma {:induction false} ResumeAllDelivers(s: State, at: int, ws: seq<Waiter>)
    requires Inv(s, ws) && !s.computing
    ensures var s' := ResumeAll(s, at, ws); Inv(s', []) && Extends(s, s') && SameCore(s, s')
    decreases |ws|
  {
    if ws != [] {
      assert ws == [ws[0]] + ws[1..];
      ResumeDelivers(s, at, ws[0], ws[1..]);
      ResumeAllDelivers(Resume(s, at, ws[0]), at, ws[1..]);
    }
  }

  /** After the first broadcast of a read, its other awaiters announce nothing more. */
  lemma {:induction false} QuietAfterShow(s: State, at: int, ws: seq<Waiter>)
    requires Inv(s, ws) && !s.computing
    requires s.lastComputeSucceeded && !s.degraded && s.seq_ == s.lastBroadcastSeq
    ensures
      var s' := ResumeAll(s, at, ws);
      s'.news == s.news && s'.lastBroadcastSeq == s.lastBroadcastSeq && s'.lastBroadcastAt == s.lastBroadcastAt && !s'.degraded
    decreases |ws|
  {
    if ws != [] {
      assert ws == [ws[0]] + ws[1..];
      ResumeDelivers(s, at, ws[0], ws[1..]);
      QuietAfterShow(Resume(s, at, ws[0]), at, ws[1..]);
    }
  }

  /** `f` and then `g` arrive back to back, after the frames of `before`. */
  ghost predicate BackToBack(before: seq<Frame>, after: seq<Frame>, f: Frame, g: Frame) {
    exists k :: |before| <= k < |after| - 1 && after[k] == f && after[k+1] == g
  }

  ghost predicate AllGot(s: State, s': State, f: Frame, g: Frame) {
    forall c :: c in s.clients ==> c in s.inbox && c in s'.inbox && BackToBack(s.inbox[c], s'.inbox[c], f, g)
  }

  lemma BackToBackWider(a: seq<Frame>, b: seq<Frame>, c: seq<Frame>, d: seq<Frame>, f: Frame, g: Frame)
    requires a <= b && c <= d && BackToBack(b, c, f, g)
    ensures BackToBack(a, d, f, g)
  {
    var k :| |b| <= k < |c| - 1 && c[k] == f && c[k+1] == g;
    assert d[k] == f && d[k+1] == g;
  }

  /** The first broadcast waiter of a recovering read tells everyone, back to back. */
  lemma RecoveryNow(s: State, at: int, rest: seq<Waiter>)
    requires Inv(s, [Broadcast] + rest) && !s.computing && s.lastComputeSucceeded && s.degraded
    ensures
      var s' := ResumeAll(AfterCompute(s, at), at, rest);
      && s'.news == s.news + [Told(Recovered, s.seq_)] + [Shown(s.seq_, s.clients)]
      && AllGot(s, s', Control(s.seq_, Recovered),
                Snapshot(s.seq_, s.cached.value.presence, s.cached.value.generatedAt))
  {
    var s1 := AfterCompute(s, at);
    ResumeDelivers(s, at, Broadcast, rest);
    RecoveryKeeps(s, at, [Broadcast] + rest);
    AfterComputeExtends(s, at);
    QuietAfterShow(s1, at, rest);
    ResumeAllDelivers(s1, at, rest);
    var f, g := Control(s.seq_, Recovered), Snapshot(s.seq_, s.cached.value.presence, s.cached.value.generatedAt);
    AllGotNow(s, s1, ResumeAll(s1, at, rest), f, g);
  }

  lemma AllGotNow(s: State, s1: State, s': State, f: Frame, g: Frame)
    requires Extends(s1, s')
    requires forall c :: c in s.clients ==> c in s.inbox && c in s1.inbox && s1.inbox[c] == s.inbox[c] + [f] + [g]
    ensures AllGot(s, s', f, g)
  {
    forall c | c in s.clients ensures c in s.inbox && c in s'.inbox && BackToBack(s.inbox[c], s'.inbox[c], f, g) {
      var k := |s.inbox[c]|;
      assert s1.inbox[c][k] == f && s1.inbox[c][k+1] == g;
      BackToBackWider(s.inbox[c], s.inbox[c], s1.inbox[c], s'.inbox[c], f, g);
    }
  }

  lemma {:induction false} RecoveryReachesAll(s: State, at: int, ws: seq<Waiter>)
    requires Inv(s, ws) && !s.computing && s.lastComputeSucceeded && s.degraded && Broadcast in ws
    ensures
      var s' := ResumeAll(s, at, ws);
      && s'.news == s.news + [Told(Recovered, s.seq_)] + [Shown(s.seq_, s.clients)]
      && AllGot(s, s', Control(s.seq_, Recovered),
                Snapshot(s.seq_, s.cached.value.presence, s.cached.value.generatedAt))
    decreases |ws|
  {
    assert ws == [ws[0]] + ws[1..];
    if ws[0].Broadcast? {
      RecoveryNow(s, at, ws[1..]);
    } else {
      var s1 := FirstFrame(s, ws[0].client);
      ResumeDelivers(s, at, ws[0], ws[1..]);
      RecoveryReachesAll(s1, at, ws[1..]);
      var s' := ResumeAll(s, at, ws);
      var f, g := Control(s.seq_, Recovered), Snapshot(s.seq_, s.cached.value.presence, s.cached.value.generatedAt);
      forall c | c in s.clients ensures c in s.inbox && c in s'.inbox && BackToBack(s.inbox[c], s'.inbox[c], f, g) {
        BackToBackWider(s.inbox[c], s1.inbox[c], s'.inbox[c], s'.inbox[c], f, g);
      }
    }
  }

  ghost predicate RecoversAll(s: State, s': State, at: int, p: Presence) {
    && s'.news == s.news + [Told(Recovered, s.seq_ + 1)] + [Shown(s.seq_ + 1, s.clients)]
    && (forall i :: 0 <= i < |s.news| ==> NewsId(s.news[i]) < s.seq_ + 1)
    && AllGot(s, s', Control(s.seq_ + 1, Recovered), Snapshot(s.seq_ + 1, p, at))
  }

  lemma RecoveryStep(cfg: Config, s: State, at: int, p: Presence)
    requires Inv(s, s.waiters) && s.computing && s.degraded && Broadcast in s.waiters
    ensures RecoversAll(s, Step(cfg, s, at, ReadDone(Some(p))), at, p)
  {
    SettleKeeps(s, at, Some(p));
    RecoveryReachesAll(Settle(s, at, Some(p)), at, s.waiters);
  }

  /**
   However many callers share the read, a successful one that recovers the hub tells every
   connected client `recovered` and then the new snapshot, under an id above every id announced before.
   */
  lemma {:induction false} RecoveryCarriesSnapshot(cfg: Config, created: nat, run: seq<Timed>, at: int, p: Presence)
    requires ValidRun(cfg, created, run)
    requires var s := After(cfg, created, run); s.computing && s.degraded && Broadcast in s.waiters
    ensures
      var s := After(cfg, created, run);
      Enabled(s, at, ReadDone(Some(p))) && RecoversAll(s, Step(cfg, s, at, ReadDone(Some(p))), at, p)
  {
    ReachableInv(cfg, created, run);
    RecoveryStep(cfg, After(cfg, created, run), at, p);
  }

  // ----- suppression -----

  /** If a successful read is not broadcast, it is because the last broadcast already said the same. */
  lemma {:induction false} SilenceMeansEqual(s: State, at: int, ws: seq<Waiter>)
    requires Inv(s, ws) && !s.computing && s.lastComputeSucceeded && Broadcast in ws
    requires s.lastBroadcastSeq < s.seq_
    requires ResumeAll(s, at, ws).lastBroadcastSeq < s.seq_
    ensures Suppressed(s, at) && !s.degraded
    ensures ResumeAll(s, at, ws).lastPayload == s.lastPayload && ResumeAll(s, at, ws).agreed == s.agreed
    ensures ResumeAll(s, at, ws).lastBroadcastSeq == s.lastBroadcastSeq
    ensures ResumeAll(s, at, ws).lastBroadcastAt == s.lastBroadcastAt
    decreases |ws|
  {
    assert ws == [ws[0]] + ws[1..];
    var s1 := Resume(s, at, ws[0]);
    ResumeDelivers(s, at, ws[0], ws[1..]);
    if ws[0].Broadcast? {
      if s.degraded || !Suppressed(s, at) {
        QuietAfterShow(s1, at, ws[1..]);
        assert false;
      } else if Broadcast in ws[1..] {
        SilenceMeansEqual(s1, at, ws[1..]);
      } else {
        OnlyFirstFrames(s1, at, ws[1..]);
      }
    } else {
      SilenceMeansEqual(s1, at, ws[1..]);
    }
  }

  lemma {:induction false} OnlyFirstFrames(s: State, at: int, ws: seq<Waiter>)
    requires Inv(s, ws) && !s.computing && Broadcast !in ws
    ensures ResumeAll(s, at, ws).lastPayload == s.lastPayload && ResumeAll(s, at, ws).agreed == s.agreed
    ensures ResumeAll(s, at, ws).lastBroadcastSeq == s.lastBroadcastSeq
    ensures ResumeAll(s, at, ws).lastBroadcastAt == s.lastBroadcastAt
    decreases |ws|
  {
    if ws != [] {
      assert ws == [ws[0]] + ws[1..];
      ResumeDelivers(s, at, ws[0], ws[1..]);
      OnlyFirstFrames(Resume(s, at, ws[0]), at, ws[1..]);
    }
  }

  /**
   Suppression keeps views in agreement: when a successful recompute is withheld, every client whose
   first frame preceded the last broadcast already holds exactly the freshly computed presence, from
   a broadcast less than the resend floor ago.
   */
  lemma {:induction false} SuppressionIsHarmless(cfg: Config, created: nat, run: seq<Timed>, at: int, p: Presence)
    requires ValidRun(cfg, created, run)
    requires var s := After(cfg, created, run); s.computing && Broadcast in s.waiters
    requires Enabled(After(cfg, created, run), at, ReadDone(Some(p)))
    requires Step(cfg, After(cfg, created, run), at, ReadDone(Some(p))).lastBroadcastSeq <= After(cfg, created, run).seq_
    ensures
      var s := After(cfg, created, run);
      var s' := Step(cfg, s, at, ReadDone(Some(p)));
      && s'.agreed == s.agreed
      && (forall c :: c in s.agreed ==> c in s'.inbox && Holds(s'.inbox[c], s'.lastBroadcastSeq, Some(p)))
      && at - s'.lastBroadcastAt < RESEND_FLOOR
  {
    ReachableInv(cfg, created, run);
    var s := After(cfg, created, run);
    SettleKeeps(s, at, Some(p));
    var s1 := Settle(s, at, Some(p));
    ResumeAllDelivers(s1, at, s.waiters);
    SilenceMeansEqual(s1, at, s.waiters);
  }

  // ----- a recreated hub -----

  /** Every read of the run settles at least a millisecond after it was issued. */
  ghost predicate ReadsTakeTime(cfg: Config, created: nat, run: seq<Timed>)
    requires ValidRun(cfg, created, run)
    decreases |run|
  {
    run != [] ==>
      && ReadsTakeTime(cfg, created, run[..|run|-1])
      && (run[|run|-1].event.ReadDone? ==> After(cfg, created, run[..|run|-1]).lastComputeMs < run[|run|-1].at)
  }

  /** Only a completed read moves the id, by one; only a new read moves the time of the last one. */
  lemma StepIds(cfg: Config, s: State, at: int, e: Event)
    requires Inv(s, s.waiters) && Enabled(s, at, e)
    ensures
      var s' := Step(cfg, s, at, e);
      && s'.seed == s.seed
      && s.seq_ <= s'.seq_ <= s.seq_ + (if e.ReadDone? then 1 else 0)
      && (e.ReadDone? ==> !s'.computing && s.computing)
      && (s.computing && s'.computing ==> s'.lastComputeMs == s.lastComputeMs)
      && (!s.computing && s'.computing ==> s'.lastComputeMs == at)
  {
    if e.ReadDone? {
      SettleKeeps(s, at, e.result);
      ResumeAllDelivers(Settle(s, at, e.result), at, s.waiters);
    }
  }

  lemma {:induction false} IdsBehindClock(cfg: Config, created: nat, run: seq<Timed>)
    requires ValidRun(cfg, created, run) && ReadsTakeTime(cfg, created, run)
    ensures
      var s := After(cfg, created, run);
      s.seq_ <= Now(created, run) && (s.computing ==> s.seq_ <= s.lastComputeMs)
    decreases |run|
  {
    if run != [] {
      var before, last := run[..|run|-1], run[|run|-1];
      IdsBehindClock(cfg, created, before);
      ReachableInv(cfg, created, before);
      StepIds(cfg, After(cfg, created, before), last.at, last.event);
    }
  }

  lemma {:induction false} SeedIsCreation(cfg: Config, created: nat, run: seq<Timed>)
    requires ValidRun(cfg, created, run)
    ensures After(cfg, created, run).seed == created
    decreases |run|
  {
    if run != [] {
      var before, last := run[..|run|-1], run[|run|-1];
      SeedIsCreation(cfg, created, before);
      ReachableInv(cfg, created, before);
      StepIds(cfg, After(cfg, created, before), last.at, last.event);
    }
  }

  /** In every run of a hub made at `recreated`, every snapshot id is above `last`. */
  ghost predicate AllIdsAbove(cfg: Config, recreated: nat, last: int) {
    forall run, c, j ::
      ValidRun(cfg, recreated, run) && c in After(cfg, recreated, run).inbox
      && SnapshotAt(After(cfg, recreated, run).inbox[c], j) ==>
        last < After(cfg, recreated, run).inbox[c][j].id
  }

  predicate SnapshotAt(frames: seq<Frame>, j: int) { 0 <= j < |frames| && frames[j].Snapshot? }

  lemma SnapshotAboveSeed(cfg: Config, created: nat, run: seq<Timed>, c: Client, j: int)
    requires ValidRun(cfg, created, run) && c in After(cfg, created, run).inbox
    requires SnapshotAt(After(cfg, created, run).inbox[c], j)
    ensures created < After(cfg, created, run).inbox[c][j].id
  {
    ReachableInv(cfg, created, run);
    SeedIsCreation(cfg, created, run);
    InboxAboveSeed(After(cfg, created, run), c, j);
  }

  lemma InboxAboveSeed(s: State, c: Client, j: int)
    requires Truthful(s) && c in s.inbox && SnapshotAt(s.inbox[c], j)
    ensures s.seed < s.inbox[c][j].id
  {
    assert InboxOk(s.seed, s.shots, s.inbox[c]);
    assert FrameOk(s.seed, s.shots, s.inbox[c][j]);
  }

  /** No frame of a hub names more than its current id, which counts its successful reads from its creation. */
  lemma IdsCountReads(cfg: Config, created: nat, run: seq<Timed>)
    requires ValidRun(cfg, created, run)
    ensures
      var s := After(cfg, created, run);
      && s.seq_ == created + |s.shots|
      && forall c, i :: c in s.inbox && 0 <= i < |s.inbox[c]| ==> s.inbox[c][i].id <= s.seq_
  {
    ReachableInv(cfg, created, run);
    SeedIsCreation(cfg, created, run);
    var s := After(cfg, created, run);
    forall c, i | c in s.inbox && 0 <= i < |s.inbox[c]| ensures s.inbox[c][i].id <= s.seq_ {
      assert InboxOk(s.seed, s.shots, s.inbox[c]);
      assert FrameOk(s.seed, s.shots, s.inbox[c][i]);
    }
  }

  /**
   A recreated hub starts above everything its predecessor can have named exactly when the predecessor
   completed no more reads than milliseconds went by between the two creations.
   */
  lemma {:induction false} RecreatedIdsAboveExactly(cfg: Config, created: nat, run: seq<Timed>, recreated: nat)
    requires ValidRun(cfg, created, run)
    ensures AllIdsAbove(cfg, recreated, After(cfg, created, run).seq_)
      <==> created + |After(cfg, created, run).shots| <= recreated
  {
    IdsCountReads(cfg, created, run);
    var last := After(cfg, created, run).seq_;
    if last <= recreated {
      forall run', c, j | ValidRun(cfg, recreated, run') && c in After(cfg, recreated, run').inbox
        && SnapshotAt(After(cfg, recreated, run').inbox[c], j)
        ensures last < After(cfg, recreated, run').inbox[c][j].id
      {
        SnapshotAboveSeed(cfg, recreated, run', c, j);
      }
    } else {
      LowestId(cfg, recreated, last);
    }
  }

  /** The first snapshot of a hub made at `recreated` has the next id. */
  lemma LowestId(cfg: Config, recreated: nat, last: int)
    requires recreated < last
    ensures !AllIdsAbove(cfg, recreated, last)
  {
    var c := Client(0, "public", 0, 0);
    OneRead(cfg, c, "", recreated, recreated);
    var run := [Timed(recreated, Join(c, None)), Timed(recreated, ReadDone(Some("")))];
    assert SnapshotAt(After(cfg, recreated, run).inbox[c], 0);
  }

  /** In particular when every read takes a millisecond and the old hub's callbacks are over. */
  lemma {:induction false} RecreatedIdsAbove(cfg: Config, created: nat, run: seq<Timed>, recreated: nat)
    requires ValidRun(cfg, created, run) && ReadsTakeTime(cfg, created, run)
    requires Now(created, run) <= recreated
    ensures AllIdsAbove(cfg, recreated, After(cfg, created, run).seq_)
  {
    IdsBehindClock(cfg, created, run);
    IdsCountReads(cfg, created, run);
    RecreatedIdsAboveExactly(cfg, created, run, recreated);
  }

  /**
   Some such condition is needed: a hub whose first read settles in the millisecond of its creation, and a
   hub recreated in that same millisecond, give one id to two different snapshots.
   */
  lemma {:induction false} InstantReadsCollide(cfg: Config, c: Client, p: Presence, q: Presence)
    ensures
      var run := [Timed(5, Join(c, None)), Timed(5, ReadDone(Some(p)))];
      var run' := [Timed(5, Join(c, None)), Timed(5, ReadDone(Some(q)))];
      && ValidRun(cfg, 5, run) && ValidRun(cfg, 5, run')
      && var box, box' := After(cfg, 5, run).inbox, After(cfg, 5, run').inbox;
      && c in box && box[c] == [Snapshot(6, p, 5)]
      && c in box' && box'[c] == [Snapshot(6, q, 5)]
  {
    OneInstantRead(cfg, c, p);
    OneInstantRead(cfg, c, q);
  }

  lemma OneInstantRead(cfg: Config, c: Client, p: Presence)
    ensures
      var run := [Timed(5, Join(c, None)), Timed(5, ReadDone(Some(p)))];
      && ValidRun(cfg, 5, run)
      && var box := After(cfg, 5, run).inbox;
      && c in box && box[c] == [Snapshot(6, p, 5)]
      && After(cfg, 5, run).lastPayload == None
  {
    OneRead(cfg, c, p, 5, 5);
  }

  /** A client joins a new hub and its read settles at `done`. */
  lemma OneRead(cfg: Config, c: Client, p: Presence, born: nat, done: nat)
    requires born <= done
    ensures
      var run := [Timed(born, Join(c, None)), Timed(done, ReadDone(Some(p)))];
      && ValidRun(cfg, born, run) && (born < done ==> ReadsTakeTime(cfg, born, run))
      && var box := After(cfg, born, run).inbox;
      && c in box && box[c] == [Snapshot(born + 1, p, done)]
      && After(cfg, born, run).lastPayload == None
  {
    var e0, e1 := Timed(born, Join(c, None)), Timed(done, ReadDone(Some(p)));
    assert [e0, e1][..1] == [e0] && [e0][..0] == [];
    assert ValidRun(cfg, born, []) && ValidRun(cfg, born, [e0]);
    var s := After(cfg, born, [e0]);
    assert s.waiters == [Initial(c)] && s.inbox == map[c := []] && s.lastComputeMs == born;
    assert ReadsTakeTime(cfg, born, []) && ReadsTakeTime(cfg, born, [e0]);
    var s1 := Settle(s, done, Some(p));
    assert ResumeAll(s1, done, [Initial(c)]) == FirstFrame(s1, c) by {
      assert [Initial(c)][1..] == [];
    }
    assert FanOut(s1.inbox, [c], Snapshot(born + 1, p, done)) == Deliver(s1.inbox, c, Snapshot(born + 1, p, done)) by {
      assert [c][..0] == [];
    }
  }
}
