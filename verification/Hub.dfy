/**
 The per-site snapshot hub of the realtime gateway (apps/realtime/src/hub.ts) as a
 transition function.  Every callback of the source (a joining client, a pub/sub
 message, a timer, a presence read that completes) is one event carrying the clock
 reading the callback makes; a read that completes resumes all its awaiters in the
 same event, in the order in which they began to wait.

 A presence snapshot is represented by its JSON text, the value the suppression rule
 compares.  `seq` stands for the two fields the source always assigns together.
 */
module Hub {
  import opened Options

  type Presence = string

  /** Half of the age, in milliseconds, at which a client calls its stream dead. */
  const RESEND_FLOOR := 20_000
  const MAX_AGE := 40_000
  const SITE_SUBJECT := "site"

  datatype Action = Degraded | Recovered | Disconnect

  datatype Frame =
    | Snapshot(id: int, presence: Presence, generatedAt: int)
    | Control(id: int, action: Action)

  /** A connected stream; `key` is its object identity. */
  datatype Client = Client(key: nat, subject: string, epoch: int, siteEpoch: int)

  /** Cache window and refresh period, in milliseconds. */
  datatype Config = Config(window: nat, refresh: nat)

  /** Who waits for the presence read in flight. */
  datatype Waiter = Broadcast | Initial(client: Client)

  datatype Shot = Shot(presence: Presence, generatedAt: int)

  /** What was announced to everyone, in order (history only). */
  datatype News = Told(action: Action, id: int) | Shown(id: int, audience: seq<Client>)

  /**
   The hub's fields.  `seed`, `shots`, `news`, `greeted` and `agreed` are history:
   the first id, every successful read, every announcement, the clients whose first
   frame was sent, and those of them that were connected at the last snapshot broadcast.
   */
  datatype State = State(
    clients: seq<Client>,
    cached: Option<Shot>,
    lastComputeMs: int,
    lastComputeSucceeded: bool,
    computing: bool,
    waiters: seq<Waiter>,
    outstanding: nat,
    seq_: int,
    lastBroadcastSeq: int,
    degraded: bool,
    trailing: Option<int>,
    refresh: Option<int>,
    lastPayload: Option<Presence>,
    lastBroadcastAt: int,
    inbox: map<Client, seq<Frame>>,
    closing: set<Client>,
    seed: int,
    shots: seq<Shot>,
    news: seq<News>,
    greeted: set<Client>,
    agreed: set<Client>)

  datatype Event =
    | Join(client: Client, lastEventId: Option<int>)
    | Leave(client: Client)
    | Update
    | ControlMessage(subject: string, epoch: int)
    | RefreshTick
    | TrailingFire
    | ReadDone(result: Option<Presence>)
    | Shutdown

  function Fresh(at: int): State {
    State([], None, 0, false, false, [], 0, at, 0, false, None, None, None, 0,
          map[], {}, at, [], [], {}, {})
  }

  // ----- delivery -----

  function Deliver(inbox: map<Client, seq<Frame>>, c: Client, f: Frame): map<Client, seq<Frame>> {
    inbox[c := (if c in inbox then inbox[c] else []) + [f]]
  }

  function FanOut(inbox: map<Client, seq<Frame>>, cs: seq<Client>, f: Frame): map<Client, seq<Frame>> {
    if cs == [] then inbox else Deliver(FanOut(inbox, cs[..|cs|-1], f), cs[|cs|-1], f)
  }

  function Post(s: State, cs: seq<Client>, f: Frame): State {
    s.(inbox := FanOut(s.inbox, cs, f))
  }

  // ----- the source's methods -----

  function Add(cfg: Config, s: State, at: int, c: Client): State {
    s.(clients := if c in s.clients then s.clients else s.clients + [c],
       inbox := if c in s.inbox then s.inbox else s.inbox[c := []],
       refresh := if s.refresh.Some? then s.refresh else Some(at + cfg.refresh))
  }

  function Without(cs: seq<Client>, c: Client): seq<Client> {
    if cs == [] then []
    else if cs[|cs|-1] == c then Without(cs[..|cs|-1], c)
    else Without(cs[..|cs|-1], c) + [cs[|cs|-1]]
  }

  function Remove(s: State, c: Client): State {
    var left := Without(s.clients, c);
    s.(clients := left, refresh := if left == [] then None else s.refresh)
  }

  function RunCompute(s: State, at: int, w: Waiter): State {
    if s.computing then s.(waiters := s.waiters + [w])
    else s.(computing := true, waiters := [w], outstanding := s.outstanding + 1, lastComputeMs := at)
  }

  function FirstFrame(s: State, c: Client): State {
    var s' := s.(greeted := s.greeted + {c});
    match s.cached
    case Some(shot) => Post(s', [c], Snapshot(s.seq_, shot.presence, shot.generatedAt))
    case None => Post(s', [c], Control(s.seq_, Degraded)).(degraded := true)
  }

  function SendInitial(cfg: Config, s: State, at: int, c: Client, lastEventId: Option<int>): State {
    var current := s.cached.Some? && lastEventId.Some? && lastEventId.value >= s.seq_;
    var warm := s.cached.Some? && at - s.lastComputeMs < cfg.window;
    if current || warm then FirstFrame(s, c) else RunCompute(s, at, Initial(c))
  }

  function OnUpdate(cfg: Config, s: State, at: int): State {
    var elapsed := at - s.lastComputeMs;
    if elapsed >= cfg.window then RunCompute(s, at, Broadcast)
    else if s.trailing.None? then s.(trailing := Some(at + (cfg.window - elapsed)))
    else s
  }

  function OnRefresh(cfg: Config, s: State, at: int): State {
    var s' := s.(refresh := Some(at + cfg.refresh));
    if s.clients == [] || s.trailing.Some? || at - s.lastComputeMs < cfg.window then s'
    else RunCompute(s', at, Broadcast)
  }

  /** The clients a control message cuts (see also the Stream module). */
  predicate Revokes(c: Client, subject: string, epoch: int) {
    if subject == SITE_SUBJECT then c.siteEpoch < epoch else c.subject == subject && c.epoch < epoch
  }

  function Revoked(cs: seq<Client>, subject: string, epoch: int): seq<Client> {
    if cs == [] then []
    else
      var before := Revoked(cs[..|cs|-1], subject, epoch);
      if Revokes(cs[|cs|-1], subject, epoch) then before + [cs[|cs|-1]] else before
  }

  function Cut(s: State, cs: seq<Client>): State {
    Post(s, cs, Control(s.seq_, Disconnect)).(closing := s.closing + (set c | c in cs))
  }

  function BroadcastControl(s: State, action: Action): State {
    Post(s, s.clients, Control(s.seq_, action)).(news := s.news + [Told(action, s.seq_)])
  }

  predicate Suppressed(s: State, at: int) {
    s.cached.Some? && s.lastPayload == Some(s.cached.value.presence) && at - s.lastBroadcastAt < RESEND_FLOOR
  }

  function BroadcastCurrent(s: State, at: int, force: bool): State {
    if s.cached.None? || s.seq_ == s.lastBroadcastSeq then s
    else if !force && Suppressed(s, at) then s
    else
      var shot := s.cached.value;
      Post(s, s.clients, Snapshot(s.seq_, shot.presence, shot.generatedAt))
      .(lastBroadcastSeq := s.seq_, lastPayload := Some(shot.presence), lastBroadcastAt := at,
        news := s.news + [Shown(s.seq_, s.clients)],
        agreed := set c | c in s.clients && c in s.greeted)
  }

  /** What `computeAndBroadcast` does once its read is over. */
  function AfterCompute(s: State, at: int): State {
    if s.lastComputeSucceeded then
      if s.degraded then BroadcastCurrent(BroadcastControl(s.(degraded := false), Recovered), at, true)
      else BroadcastCurrent(s, at, false)
    else if !s.degraded then BroadcastControl(s.(degraded := true), Degraded)
    else s
  }

  function Resume(s: State, at: int, w: Waiter): State {
    match w
    case Broadcast => AfterCompute(s, at)
    case Initial(c) => FirstFrame(s, c)
  }

  function ResumeAll(s: State, at: int, ws: seq<Waiter>): State
    decreases |ws|
  {
    if ws == [] then s else ResumeAll(Resume(s, at, ws[0]), at, ws[1..])
  }

  /** The read settles: the cache moves, the flight ends, nobody resumed yet. */
  function Settle(s: State, at: int, result: Option<Presence>): State
    requires s.outstanding > 0
  {
    var s' := s.(computing := false, waiters := [], outstanding := s.outstanding - 1);
    match result
    case Some(p) =>
      s'.(cached := Some(Shot(p, at)), seq_ := s.seq_ + 1, lastComputeSucceeded := true,
          shots := s.shots + [Shot(p, at)])
    case None => s'.(lastComputeSucceeded := false)
  }

  /** Which callbacks can run: a client joins once, a timer when it is due, a completion when a read is out. */
  predicate Enabled(s: State, at: int, e: Event) {
    match e
    case Join(c, _) => c !in s.inbox
    case RefreshTick => s.refresh.Some? && s.refresh.value <= at
    case TrailingFire => s.trailing.Some? && s.trailing.value <= at
    case ReadDone(_) => s.outstanding > 0
    case _ => true
  }

  function Step(cfg: Config, s: State, at: int, e: Event): State
    requires Enabled(s, at, e)
  {
    match e
    case Join(c, last) => SendInitial(cfg, Add(cfg, s, at, c), at, c, last)
    case Leave(c) => Remove(s, c)
    case Update => OnUpdate(cfg, s, at)
    case ControlMessage(subject, epoch) => Cut(s, Revoked(s.clients, subject, epoch))
    case RefreshTick => OnRefresh(cfg, s, at)
    case TrailingFire => RunCompute(s.(trailing := None), at, Broadcast)
    case ReadDone(result) => ResumeAll(Settle(s, at, result), at, s.waiters)
    case Shutdown => Cut(s, s.clients).(trailing := None, refresh := None)
  }

  // ----- runs -----

  datatype Timed = Timed(at: int, event: Event)

  function Now(created: int, run: seq<Timed>): int {
    if run == [] then created else run[|run|-1].at
  }

  /** Callbacks in clock order from the hub's construction at `created`, each one enabled. */
  ghost predicate ValidRun(cfg: Config, created: nat, run: seq<Timed>)
    decreases |run|, 0
  {
    run != [] ==>
      var before := run[..|run|-1];
      && ValidRun(cfg, created, before)
      && Now(created, before) <= run[|run|-1].at
      && Enabled(After(cfg, created, before), run[|run|-1].at, run[|run|-1].event)
  }

  ghost function After(cfg: Config, created: nat, run: seq<Timed>): State
    requires ValidRun(cfg, created, run)
    decreases |run|, 1
  {
    if run == [] then Fresh(created)
    else Step(cfg, After(cfg, created, run[..|run|-1]), run[|run|-1].at, run[|run|-1].event)
  }
}
