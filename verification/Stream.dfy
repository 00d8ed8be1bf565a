/**
 One connected stream (apps/realtime/src/stream.ts): the promise chain that serialises its
 writes, the close that travels through that chain, and the epoch check that, together with
 the hub's control messages, revokes it.
 */
module Streams {
  import opened Options
  import Hub

  // ----- the write chain -----

  datatype Item = Data(frame: Hub.Frame) | Keepalive

  datatype Job = Write(item: Item) | Close

  /**
   `chain` holds the jobs that have not run.  History: every item handed to the stream, how many of
   them have had their turn, how many preceded the first requested close, and whether the connection
   broke (an abort or a failed write).
   */
  datatype Pipe = Pipe(
    chain: seq<Job>,
    isClosed: bool,
    written: seq<Item>,
    enqueued: seq<Item>,
    turns: nat,
    closeAt: Option<nat>,
    broken: bool)

  const EMPTY := Pipe([], false, [], [], 0, None, false)

  function Enqueued(p: Pipe, item: Item): Pipe {
    p.(chain := p.chain + [Write(item)], enqueued := p.enqueued + [item])
  }

  function CloseRequested(p: Pipe): Pipe {
    p.(chain := p.chain + [Close], closeAt := if p.closeAt.Some? then p.closeAt else Some(|p.enqueued|))
  }

  /** `markClosed` called from outside the chain: the client went away. */
  function Abort(p: Pipe): Pipe {
    p.(isClosed := true, broken := true)
  }

  /** The next job of the chain; `ok` is the outcome of its write, if it makes one. */
  function RunJob(p: Pipe, ok: bool): Pipe
    requires p.chain != []
  {
    var rest := p.(chain := p.chain[1..]);
    match p.chain[0]
    case Close => rest.(isClosed := true)
    case Write(item) =>
      var turned := rest.(turns := p.turns + 1);
      if p.isClosed then turned
      else if ok then turned.(written := p.written + [item])
      else turned.(isClosed := true, broken := true)
  }

  /** The last word of a revoked stream: the control frame, then the close behind it. */
  function Disconnect(p: Pipe, id: int): Pipe {
    CloseRequested(Enqueued(p, Data(Hub.Control(id, Hub.Disconnect))))
  }

  // ----- what the chain keeps -----

  function Items(chain: seq<Job>): seq<Item> {
    if chain == [] then []
    else if chain[0].Write? then [chain[0].item] + Items(chain[1..])
    else Items(chain[1..])
  }

  function BeforeClose(chain: seq<Job>): seq<Item> {
    if chain == [] || chain[0].Close? then [] else [chain[0].item] + BeforeClose(chain[1..])
  }

  ghost predicate PipeInv(p: Pipe) {
    && p.turns <= |p.enqueued|
    && p.enqueued[p.turns..] == Items(p.chain)
    && p.written <= p.enqueued[..p.turns]
    && (!p.isClosed ==> p.written == p.enqueued[..p.turns] && !p.broken)
    && (p.closeAt.None? ==> Close !in p.chain && (p.isClosed ==> p.broken))
    && (p.closeAt.Some? ==>
          && |p.written| <= p.closeAt.value <= |p.enqueued|
          && (!p.isClosed ==>
                && Close in p.chain && p.turns <= p.closeAt.value
                && BeforeClose(p.chain) == p.enqueued[p.turns..p.closeAt.value])
          && (p.isClosed && !p.broken ==> |p.written| == p.closeAt.value))
  }

  lemma {:induction false} ItemsSnoc(chain: seq<Job>, j: Job)
    ensures Items(chain + [j]) == Items(chain) + Items([j])
    ensures Close in chain ==> BeforeClose(chain + [j]) == BeforeClose(chain)
    ensures Close !in chain && j.Close? ==> BeforeClose(chain + [j]) == Items(chain)
  {
    if chain == [] {
      assert chain + [j] == [j];
    } else {
      ItemsSnoc(chain[1..], j);
      assert (chain + [j])[1..] == chain[1..] + [j];
    }
  }

  lemma EnqueueKeeps(p: Pipe, item: Item)
    requires PipeInv(p)
    ensures PipeInv(Enqueued(p, item))
  {
    ItemsSnoc(p.chain, Write(item));
    assert Items([Write(item)]) == [item];
    var p' := Enqueued(p, item);
    assert p'.enqueued[p.turns..] == p.enqueued[p.turns..] + [item];
    assert p'.enqueued[..p.turns] == p.enqueued[..p.turns];
    if p.closeAt.Some? && !p.isClosed {
      assert p'.enqueued[p.turns..p.closeAt.value] == p.enqueued[p.turns..p.closeAt.value];
    }
  }

  lemma RequestCloseKeeps(p: Pipe)
    requires PipeInv(p)
    ensures PipeInv(CloseRequested(p)) && CloseRequested(p).closeAt.Some?
  {
    ItemsSnoc(p.chain, Close);
    assert Items([Close]) == [];
    assert p.enqueued[p.turns..] == p.enqueued[p.turns..|p.enqueued|];
  }

  lemma WriteTurnKeeps(p: Pipe, ok: bool)
    requires PipeInv(p) && p.chain != [] && p.chain[0].Write?
    ensures PipeInv(RunJob(p, ok))
  {
    assert p.chain == [p.chain[0]] + p.chain[1..];
    assert p.enqueued[p.turns..][1..] == p.enqueued[p.turns+1..];
    assert p.enqueued[..p.turns+1] == p.enqueued[..p.turns] + [p.enqueued[p.turns]];
    assert p.enqueued[p.turns] == p.enqueued[p.turns..][0];
    if p.closeAt.Some? && !p.isClosed {
      assert p.enqueued[p.turns..p.closeAt.value][1..] == p.enqueued[p.turns+1..p.closeAt.value];
    }
  }

  lemma CloseTurnKeeps(p: Pipe, ok: bool)
    requires PipeInv(p) && p.chain != [] && p.chain[0].Close?
    ensures PipeInv(RunJob(p, ok))
  {
    assert p.chain == [p.chain[0]] + p.chain[1..];
    assert p.closeAt.Some?;
  }

  lemma RunJobKeeps(p: Pipe, ok: bool)
    requires PipeInv(p) && p.chain != []
    ensures PipeInv(RunJob(p, ok))
  {
    if p.chain[0].Write? { WriteTurnKeeps(p, ok); } else { CloseTurnKeeps(p, ok); }
  }

  // ----- revocation -----

  /** What the token of the connection says, and which stream it is for the hub. */
  datatype Claims = Claims(subject: string, epoch: nat, siteEpoch: nat)

  function AsClient(c: Claims): Hub.Client { Hub.Client(0, c.subject, c.epoch, c.siteEpoch) }

  datatype Answer = Unreachable | Absent | Value(epoch: nat)

  predicate SubjectPasses(c: Claims, a: Answer) { a.Value? && a.epoch == c.epoch }

  /** An absent site key reads as epoch 0. */
  predicate SitePasses(c: Claims, a: Answer) {
    match a
    case Unreachable => false
    case Absent => true
    case Value(e) => e <= c.siteEpoch
  }

  /** A check in progress, with the live epochs at the moment each question was asked. */
  datatype Check = AskedSubject(subjectLive: nat) | AskedSite(subjectLive: nat, siteLive: nat)

  /** The epochs a check that came to an end had been asked about (the site question may not have come up). */
  datatype Ended = Ended(subjectLive: nat, siteLive: Option<nat>)

  /** History: the checks that ended and the control messages the hub handled for this site. */
  datatype State = State(
    pipe: Pipe,
    liveSubject: nat,
    liveSite: nat,
    checks: map<nat, Check>,
    ended: seq<Ended>,
    controls: seq<(string, int)>)

  datatype Event =
    | Send(item: Item)
    | WriteTurn(ok: bool)
    | GoneAway
    | BumpSubject(to: nat)
    | BumpSite(to: nat)
    | ControlMessage(subject: string, epoch: int, id: int)
    | TickStart(tick: nat)
    | SubjectAnswer(tick: nat, answer: Answer, id: int)
    | SiteAnswer(tick: nat, answer: Answer, id: int)

  /** An answer is a value the key had between the question and now; epochs only grow, and absent means never bumped. */
  predicate Plausible(a: Answer, asked: nat, live: nat) {
    match a
    case Unreachable => true
    case Absent => asked == 0
    case Value(e) => asked <= e <= live
  }

  predicate Enabled(s: State, e: Event) {
    match e
    case WriteTurn(_) => s.pipe.chain != []
    case BumpSubject(n) => s.liveSubject < n
    case BumpSite(n) => s.liveSite < n
    case TickStart(t) => t !in s.checks
    case SubjectAnswer(t, a, _) =>
      // A missing subject key may also mean that it was evicted.
      t in s.checks && s.checks[t].AskedSubject? && (a.Absent? || Plausible(a, s.checks[t].subjectLive, s.liveSubject))
    case SiteAnswer(t, a, _) =>
      t in s.checks && s.checks[t].AskedSite? && Plausible(a, s.checks[t].siteLive, s.liveSite)
    case _ => true
  }

  function Step(c: Claims, s: State, e: Event): State
    requires Enabled(s, e)
  {
    match e
    case Send(item) => s.(pipe := Enqueued(s.pipe, item))
    case WriteTurn(ok) => s.(pipe := RunJob(s.pipe, ok))
    case GoneAway => s.(pipe := Abort(s.pipe))
    case BumpSubject(n) => s.(liveSubject := n)
    case BumpSite(n) => s.(liveSite := n)
    case ControlMessage(subject, epoch, id) =>
      var s' := s.(controls := s.controls + [(subject, epoch)]);
      if Hub.Revokes(AsClient(c), subject, epoch) then s'.(pipe := Disconnect(s.pipe, id)) else s'
    case TickStart(t) =>
      s.(pipe := Enqueued(s.pipe, Keepalive), checks := s.checks[t := AskedSubject(s.liveSubject)])
    case SubjectAnswer(t, a, id) =>
      var asked := s.checks[t].subjectLive;
      if SubjectPasses(c, a) then s.(checks := s.checks[t := AskedSite(asked, s.liveSite)])
      else s.(pipe := Disconnect(s.pipe, id), checks := s.checks - {t}, ended := s.ended + [Ended(asked, None)])
    case SiteAnswer(t, a, id) =>
      var s' := s.(checks := s.checks - {t},
                   ended := s.ended + [Ended(s.checks[t].subjectLive, Some(s.checks[t].siteLive))]);
      if SitePasses(c, a) then s' else s'.(pipe := Disconnect(s.pipe, id))
  }

  /** The state after a run from a freshly accepted connection, or None if the run is impossible. */
  function After(c: Claims, liveSubject: nat, liveSite: nat, run: seq<Event>): Option<State> {
    if run == [] then Some(State(EMPTY, liveSubject, liveSite, map[], [], []))
    else
      var before := After(c, liveSubject, liveSite, run[..|run|-1]);
      if before.Some? && Enabled(before.value, run[|run|-1]) then Some(Step(c, before.value, run[|run|-1])) else None
  }

  /** Still to be cut: no check that ended and no control message has shown the claims to be behind. */
  ghost predicate Unrefuted(c: Claims, s: State) {
    && (forall k :: 0 <= k < |s.ended| ==>
          && s.ended[k].subjectLive <= c.epoch
          && s.ended[k].siteLive.Some? && s.ended[k].siteLive.value <= c.siteEpoch)
    && (forall k :: 0 <= k < |s.controls| ==> !Hub.Revokes(AsClient(c), s.controls[k].0, s.controls[k].1))
  }

  ghost predicate Inv(c: Claims, s: State) {
    PipeOk(s.pipe) && Vetted(c, s)
  }

  ghost predicate EndsInDisconnect(p: Pipe) {
    && p.closeAt.Some? && 0 < p.closeAt.value <= |p.enqueued|
    && var last := p.enqueued[p.closeAt.value - 1];
    last.Data? && last.frame.Control? && last.frame.action == Hub.Disconnect
  }

  lemma DisconnectKeeps(p: Pipe, id: int)
    requires PipeInv(p) && (p.closeAt.Some? ==> EndsInDisconnect(p))
    ensures PipeInv(Disconnect(p, id)) && EndsInDisconnect(Disconnect(p, id))
  {
    var item := Data(Hub.Control(id, Hub.Disconnect));
    EnqueueKeeps(p, item);
    RequestCloseKeeps(Enqueued(p, item));
  }

  ghost predicate PipeOk(p: Pipe) {
    PipeInv(p) && (p.closeAt.Some? ==> EndsInDisconnect(p))
  }

  lemma ItemOk(p: Pipe, item: Item)
    requires PipeOk(p)
    ensures PipeOk(Enqueued(p, item))
  {
    EnqueueKeeps(p, item);
  }

  lemma TurnOk(p: Pipe, ok: bool)
    requires PipeOk(p) && p.chain != []
    ensures PipeOk(RunJob(p, ok))
  {
    RunJobKeeps(p, ok);
    var p' := RunJob(p, ok);
    assert p'.closeAt == p.closeAt && p'.enqueued == p.enqueued;
  }

  lemma DisconnectOk(p: Pipe, id: int)
    requires PipeOk(p)
    ensures PipeOk(Disconnect(p, id))
  {
    DisconnectKeeps(p, id);
  }

  /** What an event can do to the pipe. */
  lemma StepPipe(c: Claims, s: State, e: Event)
    requires Enabled(s, e)
    ensures
      var p, p' := s.pipe, Step(c, s, e).pipe;
      || p' == p
      || (exists item :: p' == Enqueued(p, item))
      || (p.chain != [] && exists ok :: p' == RunJob(p, ok))
      || p' == Abort(p)
      || (exists id :: p' == Disconnect(p, id))
  {
    match e
    case TickStart(_) => assert Step(c, s, e).pipe == Enqueued(s.pipe, Keepalive);
    case _ =>
  }

  lemma StepKeepsPipe(c: Claims, s: State, e: Event)
    requires PipeOk(s.pipe) && Enabled(s, e)
    ensures PipeOk(Step(c, s, e).pipe)
  {
    var p := s.pipe;
    StepPipe(c, s, e);
    forall item ensures PipeOk(Enqueued(p, item)) { ItemOk(p, item); }
    forall id ensures PipeOk(Disconnect(p, id)) { DisconnectOk(p, id); }
    if p.chain != [] { TurnOk(p, true); TurnOk(p, false); }
  }

  /** The claims half of the invariant: what the checks and the controls have shown so far. */
  ghost predicate Vetted(c: Claims, s: State) {
    && (s.pipe.closeAt.None? ==> Unrefuted(c, s))
    && (forall t :: t in s.checks && s.checks[t].AskedSite? ==> s.checks[t].subjectLive <= c.epoch)
  }

  lemma StepKeepsVetted(c: Claims, s: State, e: Event)
    requires Vetted(c, s) && Enabled(s, e)
    ensures Vetted(c, Step(c, s, e))
  {
  }

  lemma StepKeeps(c: Claims, s: State, e: Event)
    requires Inv(c, s) && Enabled(s, e)
    ensures Inv(c, Step(c, s, e))
  {
    StepKeepsPipe(c, s, e);
    StepKeepsVetted(c, s, e);
  }

  lemma {:induction false} AfterInv(c: Claims, liveSubject: nat, liveSite: nat, run: seq<Event>)
    requires After(c, liveSubject, liveSite, run).Some?
    ensures Inv(c, After(c, liveSubject, liveSite, run).value)
    decreases |run|
  {
    if run != [] {
      AfterInv(c, liveSubject, liveSite, run[..|run|-1]);
      StepKeeps(c, After(c, liveSubject, liveSite, run[..|run|-1]).value, run[|run|-1]);
    }
  }

  /**
   Bounded revocation.  While no close has been requested, every check that ended had asked about epochs
   that did not exceed the claims, and no control message handled for the site revoked them; so once the
   live epochs are past the claims, the first check begun since then, or the first control, closes the stream.
   */
  lemma {:induction false} OpenMeansUnrefuted(c: Claims, liveSubject: nat, liveSite: nat, run: seq<Event>)
    requires After(c, liveSubject, liveSite, run).Some?
    ensures
      var s := After(c, liveSubject, liveSite, run).value;
      !s.pipe.isClosed && s.pipe.closeAt.None? ==> Unrefuted(c, s)
  {
    AfterInv(c, liveSubject, liveSite, run);
  }

  /** Items are written in order, without gaps, and none that was handed over after the disconnect. */
  lemma {:induction false} WrittenIsPrefix(c: Claims, liveSubject: nat, liveSite: nat, run: seq<Event>)
    requires After(c, liveSubject, liveSite, run).Some?
    ensures
      var p := After(c, liveSubject, liveSite, run).value.pipe;
      && p.written <= p.enqueued
      && (p.closeAt.Some? ==>
            && EndsInDisconnect(p)
            && p.written <= p.enqueued[..p.closeAt.value]
            && (p.isClosed && !p.broken ==> p.written == p.enqueued[..p.closeAt.value]))
  {
    AfterInv(c, liveSubject, liveSite, run);
    var p := After(c, liveSubject, liveSite, run).value.pipe;
    assert p.written <= p.enqueued[..p.turns] <= p.enqueued;
  }

  /** One pipe continues another. */
  ghost predicate Continues(p: Pipe, p': Pipe) {
    && p.enqueued <= p'.enqueued && p.written <= p'.written
    && (p.closeAt.Some? ==> p'.closeAt == p.closeAt)
  }

  lemma StepContinues(c: Claims, s: State, e: Event)
    requires Enabled(s, e)
    ensures Continues(s.pipe, Step(c, s, e).pipe)
  {
  }

  lemma {:induction false} RunContinues(c: Claims, liveSubject: nat, liveSite: nat, run: seq<Event>, more: seq<Event>)
    requires After(c, liveSubject, liveSite, run + more).Some?
    ensures After(c, liveSubject, liveSite, run).Some?
    ensures Continues(After(c, liveSubject, liveSite, run).value.pipe,
                      After(c, liveSubject, liveSite, run + more).value.pipe)
    decreases |more|
  {
    if more == [] {
      assert run + more == run;
    } else {
      var all := run + more;
      assert all[..|all|-1] == run + more[..|more|-1];
      RunContinues(c, liveSubject, liveSite, run, more[..|more|-1]);
      StepContinues(c, After(c, liveSubject, liveSite, all[..|all|-1]).value, all[|all|-1]);
    }
  }

  /** The cut-off is final: whatever happens after a requested close, nothing enqueued later is written. */
  lemma {:induction false} CutOffIsFinal(c: Claims, liveSubject: nat, liveSite: nat, run: seq<Event>, more: seq<Event>)
    requires After(c, liveSubject, liveSite, run + more).Some?
    ensures After(c, liveSubject, liveSite, run).Some?
    ensures
      var p, p' := After(c, liveSubject, liveSite, run).value.pipe, After(c, liveSubject, liveSite, run + more).value.pipe;
      && p.written <= p'.written
      && (p.closeAt.Some? ==> p.closeAt.value <= |p.enqueued| && p'.written <= p.enqueued[..p.closeAt.value])
  {
    RunContinues(c, liveSubject, liveSite, run, more);
    WrittenIsPrefix(c, liveSubject, liveSite, run + more);
    WrittenIsPrefix(c, liveSubject, liveSite, run);
  }

  // ----- exactly when a stream is cut -----

  /**
   The event shows that the stream must end: a control message that overtakes the claims (the subject `site` is
   everybody's), a subject epoch that is anything but the claims' own, or a site epoch that is unreachable or newer.
   */
  predicate Refutes(c: Claims, e: Event) {
    match e
    case ControlMessage(subject, epoch, _) =>
      if subject == "site" then c.siteEpoch < epoch else c.subject == subject && c.epoch < epoch
    case SubjectAnswer(_, answer, _) => !(answer.Value? && answer.epoch == c.epoch)
    case SiteAnswer(_, answer, _) => answer.Unreachable? || (answer.Value? && answer.epoch > c.siteEpoch)
    case _ => false
  }

  lemma StepAsks(c: Claims, s: State, e: Event)
    requires Enabled(s, e)
    ensures Step(c, s, e).pipe.closeAt.Some? <==> s.pipe.closeAt.Some? || Refutes(c, e)
  {
  }

  /** A stream is asked to close exactly when some event refuted its claims, so one that none refutes stays open. */
  lemma {:induction false} AskedToCloseExactly(c: Claims, liveSubject: nat, liveSite: nat, run: seq<Event>)
    requires After(c, liveSubject, liveSite, run).Some?
    ensures After(c, liveSubject, liveSite, run).value.pipe.closeAt.Some? <==> exists i :: 0 <= i < |run| && Refutes(c, run[i])
    decreases |run|
  {
    if run != [] {
      var before := run[..|run|-1];
      AskedToCloseExactly(c, liveSubject, liveSite, before);
      StepAsks(c, After(c, liveSubject, liveSite, before).value, run[|run|-1]);
      assert run == before + [run[|run|-1]];
    }
  }

  lemma StepHands(c: Claims, s: State, e: Event)
    requires Enabled(s, e)
    ensures Step(c, s, e).pipe.enqueued == s.pipe.enqueued
      + (if e.Send? then [e.item]
         else if e.TickStart? then [Keepalive]
         else if Refutes(c, e) then [Data(Hub.Control(e.id, Hub.Disconnect))]
         else [])
  {
  }

  lemma StepCloses(c: Claims, s: State, e: Event)
    requires Enabled(s, e)
    ensures Step(c, s, e).pipe.isClosed <==>
      || s.pipe.isClosed || e.GoneAway?
      || (e.WriteTurn? && s.pipe.chain != [] && (s.pipe.chain[0].Close? || !e.ok))
  {
  }

  /**
   What is handed to a stream, and what closes it: a frame sent, a keepalive with each tick, a disconnect with each
   refutation; closed are a stream whose client went, whose write failed, or whose close had its turn.
   */
  lemma {:induction false} HandedAndClosed(c: Claims, liveSubject: nat, liveSite: nat, run: seq<Event>)
    requires run != [] && After(c, liveSubject, liveSite, run).Some?
    ensures After(c, liveSubject, liveSite, run[..|run|-1]).Some?
    ensures
      var e := run[|run|-1];
      var p, p' := After(c, liveSubject, liveSite, run[..|run|-1]).value.pipe, After(c, liveSubject, liveSite, run).value.pipe;
      && p'.enqueued == p.enqueued
           + (if e.Send? then [e.item]
              else if e.TickStart? then [Keepalive]
              else if Refutes(c, e) then [Data(Hub.Control(e.id, Hub.Disconnect))]
              else [])
      && (p'.isClosed <==>
            || p.isClosed || e.GoneAway?
            || (e.WriteTurn? && p.chain != [] && (p.chain[0].Close? || !e.ok)))
  {
    var s := After(c, liveSubject, liveSite, run[..|run|-1]).value;
    StepHands(c, s, run[|run|-1]);
    StepCloses(c, s, run[|run|-1]);
  }

  /** A stream that is not closed has written all that had its turn; one with nothing left to do, all it was handed. */
  lemma {:induction false} OpenStreamsWrite(c: Claims, liveSubject: nat, liveSite: nat, run: seq<Event>)
    requires After(c, liveSubject, liveSite, run).Some?
    ensures
      var p := After(c, liveSubject, liveSite, run).value.pipe;
      !p.isClosed ==>
        p.turns <= |p.enqueued| && p.written == p.enqueued[..p.turns] && (p.chain == [] ==> p.written == p.enqueued)
  {
    AfterInv(c, liveSubject, liveSite, run);
    var p := After(c, liveSubject, liveSite, run).value.pipe;
    if p.chain == [] { assert p.enqueued[p.turns..] == []; }
  }

  lemma StepWritesNothing(c: Claims, s: State, e: Event)
    requires Enabled(s, e) && s.pipe.isClosed
    ensures Step(c, s, e).pipe.isClosed && Step(c, s, e).pipe.written == s.pipe.written
  {
  }

  /** Once closed, because the client went, a write failed or the close had its turn, a stream writes nothing more. */
  lemma {:induction false} ClosedWritesNothing(
    c: Claims, liveSubject: nat, liveSite: nat, run: seq<Event>, more: seq<Event>)
    requires After(c, liveSubject, liveSite, run + more).Some? && After(c, liveSubject, liveSite, run).Some?
    requires After(c, liveSubject, liveSite, run).value.pipe.isClosed
    ensures
      var p, p' := After(c, liveSubject, liveSite, run).value.pipe, After(c, liveSubject, liveSite, run + more).value.pipe;
      p'.isClosed && p'.written == p.written
    decreases |more|
  {
    if more == [] {
      assert run + more == run;
    } else {
      var all := run + more;
      assert all[..|all|-1] == run + more[..|more|-1];
      ClosedWritesNothing(c, liveSubject, liveSite, run, more[..|more|-1]);
      StepWritesNothing(c, After(c, liveSubject, liveSite, all[..|all|-1]).value, all[|all|-1]);
    }
  }

  // ----- the source's object -----

  class StreamClient {
    const claims: Claims
    var writeChain: seq<Job>
    var isClosed: bool
    var written: seq<Item>
    ghost var enqueued: seq<Item>
    ghost var turns: nat
    ghost var closeAt: Option<nat>
    ghost var broken: bool

    ghost function View(): Pipe
      reads this
    {
      Pipe(writeChain, isClosed, written, enqueued, turns, closeAt, broken)
    }

    constructor (claims: Claims)
      ensures View() == EMPTY && this.claims == claims
    {
      this.claims := claims;
      writeChain, isClosed, written := [], false, [];
      enqueued, turns, closeAt, broken := [], 0, None, false;
    }

    method Enqueue(item: Item)
      modifies this
      ensures View() == Enqueued(old(View()), item)
    {
      writeChain := writeChain + [Write(item)];
      enqueued := enqueued + [item];
    }

    method RequestClose()
      modifies this
      ensures View() == CloseRequested(old(View()))
    {
      writeChain := writeChain + [Close];
      if closeAt.None? { closeAt := Some(|enqueued|); }
    }

    method MarkClosed()
      modifies this`isClosed
      ensures isClosed
    {
      if isClosed { return; }
      isClosed := true;
    }

    /** The abort handler of the connection. */
    method OnAbort()
      modifies this
      ensures View() == Abort(old(View()))
    {
      MarkClosed();
      broken := true;
    }

    /** The chain's next link runs; `ok` says whether the connection takes its write. */
    method RunNext(ok: bool)
      requires writeChain != []
      modifies this
      ensures View() == RunJob(old(View()), ok)
    {
      var job := writeChain[0];
      writeChain := writeChain[1..];
      match job
      case Close => MarkClosed();
      case Write(item) =>
        turns := turns + 1;
        if isClosed { return; }
        if ok {
          written := written + [item];
        } else {
          broken := true;
          MarkClosed();
        }
    }

    /** First half of the tick: `pass` says whether the site question is asked next. */
    method OnSubjectAnswer(answer: Answer, id: int) returns (pass: bool)
      modifies this
      ensures pass <==> SubjectPasses(claims, answer)
      ensures View() == if pass then old(View()) else Disconnect(old(View()), id)
    {
      match answer
      case Unreachable => Cut(id); pass := false;
      case Absent => Cut(id); pass := false;
      case Value(epoch) =>
        if epoch != claims.epoch {
          Cut(id);
          pass := false;
        } else {
          pass := true;
        }
    }

    method OnSiteAnswer(answer: Answer, id: int)
      modifies this
      ensures View() == if SitePasses(claims, answer) then old(View()) else Disconnect(old(View()), id)
    {
      if answer.Unreachable? {
        Cut(id);
        return;
      }
      var current := if answer.Absent? then 0 else answer.epoch;
      if current > claims.siteEpoch { Cut(id); }
    }

    method Cut(id: int)
      modifies this
      ensures View() == Disconnect(old(View()), id)
    {
      Enqueue(Data(Hub.Control(id, Hub.Disconnect)));
      RequestClose();
    }
  }
}
