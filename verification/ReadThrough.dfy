/**
 The gateway's read-through path (apps/query-gateway/src/route.ts): bind, look up, read, cut, store.  The
 handler waits between the lookup and the store, so other requests' steps fall in between; a failed read
 changes nothing.
 */
module ReadThrough {
  import opened Options
  import opened QueryCaches
  import CacheKeys
  import Families = QueryFamilies

  /** A cacheable operation belongs to a family, which says what it binds. */
  datatype Operation = Operation(
    id: string, maxRows: nat, cacheable: bool, finalized: bool, family: Option<Families.Family>)

  /** A request after binding; an absent generation is generation 0. */
  datatype Query = Query(epoch: Option<nat>, operation: string, params: CacheKeys.Params)

  datatype Config = Config(
    registry: map<string, Operation>, maxEntries: nat, ttlMs: int, finalizedTtlMs: Option<int>)

  predicate Registered(c: Config) {
    forall id :: id in c.registry ==>
      && c.registry[id].id == id && CacheKeys.Lacks(id, 0 as char)
      && (c.registry[id].cacheable ==> c.registry[id].family.Some?)
  }

  datatype Reply = UnknownOperation | Served(value: Answer) | Missed

  datatype Event =
    | Asked(q: Query, now: int)
    | Answered(q: Query, rows: seq<string>, now: int)

  function Epoch(q: Query): nat { if q.epoch.Some? then q.epoch.value else 0 }

  function Key(q: Query): string { CacheKeys.FullKey(Epoch(q), q.operation, q.params) }

  /** The request's answers go through the cache. */
  predicate Cached(c: Config, q: Query) { q.operation in c.registry && c.registry[q.operation].cacheable }

  function LongTtl(c: Config, op: Operation): Option<int> { if op.finalized then c.finalizedTtlMs else None }

  function Ttl(c: Config, op: Operation): int {
    if LongTtl(c, op).Some? then LongTtl(c, op).value else c.ttlMs
  }

  function CutAt(rows: seq<string>, maxRows: nat): Answer {
    if |rows| > maxRows then Answer(rows[..maxRows], true) else Answer(rows, false)
  }

  function ReplyTo(c: Config, es: seq<Slot>, q: Query, now: int): Reply {
    if q.operation !in c.registry then UnknownOperation
    else if !Cached(c, q) then Missed
    else match Fetch(es, Key(q), now).1
      case Some(value) => Served(value)
      case None => Missed
  }

  /** What an event does to the cache, if anything. */
  function OpOf(c: Config, e: Event): Option<Op> {
    if !Cached(c, e.q) then None
    else match e
      case Asked(q, now) => Some(GetOp(Key(q), now))
      case Answered(q, rows, now) =>
        var op := c.registry[q.operation];
        Some(SetOp(Key(q), CutAt(rows, op.maxRows), Ttl(c, op), now))
  }

  function Step(c: Config, es: seq<Slot>, e: Event): seq<Slot> {
    match OpOf(c, e)
    case Some(op) => Apply(es, op, c.maxEntries)
    case None => es
  }

  function After(c: Config, events: seq<Event>): seq<Slot> {
    if events == [] then [] else Step(c, After(c, events[..|events|-1]), events[|events|-1])
  }

  class Gateway {
    const config: Config
    const cache: QueryCache

    ghost predicate Valid()
      reads cache
    {
      && Distinct(cache.entries)
      && cache.maxEntries == config.maxEntries && cache.ttlMs == config.ttlMs
    }

    constructor (config: Config)
      ensures Valid() && fresh(cache) && this.config == config && cache.entries == After(config, [])
    {
      this.config := config;
      cache := new QueryCache(config.maxEntries, config.ttlMs);
    }

    /** The handler up to its read: serve from the cache when that can be done. */
    method Ask(q: Query, now: int) returns (reply: Reply)
      requires Valid()
      modifies cache`entries
      ensures Valid()
      ensures reply == ReplyTo(config, old(cache.entries), q, now)
      ensures cache.entries == Step(config, old(cache.entries), Asked(q, now))
    {
      if q.operation !in config.registry { return UnknownOperation; }
      if !config.registry[q.operation].cacheable { return Missed; }
      var hit := cache.Get(Key(q), now);
      reply := match hit case Some(value) => Served(value) case None => Missed;
    }

    /** The handler once its read is in. */
    method Finish(q: Query, rows: seq<string>, now: int) returns (answer: Answer)
      requires Valid() && q.operation in config.registry
      modifies cache`entries
      ensures Valid()
      ensures answer == CutAt(rows, config.registry[q.operation].maxRows)
      ensures cache.entries == Step(config, old(cache.entries), Answered(q, rows, now))
    {
      var operation := config.registry[q.operation];
      var truncated := |rows| > operation.maxRows;
      answer := Answer(if truncated then rows[..operation.maxRows] else rows, truncated);
      if operation.cacheable {
        cache.Set(Key(q), answer, LongTtl(config, operation), now);
      }
    }
  }

  // ----- the path is a run of the cache -----

  function OpsOf(c: Config, events: seq<Event>): seq<Op> {
    if events == [] then [] else OpsOf(c, events[..|events|-1]) + Listed(OpOf(c, events[|events|-1]))
  }

  function Listed(op: Option<Op>): seq<Op> { if op.Some? then [op.value] else [] }

  /** So the cache's own laws (recency, lifetime, size) hold of the whole path. */
  lemma {:induction false} AfterIsRun(c: Config, events: seq<Event>)
    ensures After(c, events) == Run([], OpsOf(c, events), c.maxEntries)
    ensures Bounded(After(c, events), c.maxEntries)
  {
    if events != [] {
      var init, last := events[..|events|-1], events[|events|-1];
      AfterIsRun(c, init);
      var more := Listed(OpOf(c, last));
      RunAppend([], OpsOf(c, init), more, c.maxEntries);
      if OpOf(c, last).Some? {
        assert Run(After(c, init), more, c.maxEntries) == Apply(After(c, init), more[0], c.maxEntries) by {
          assert more[1..] == [];
        }
        StepBounded(After(c, init), more[0], c.maxEntries);
      }
    }
  }

  // ----- where served answers come from -----

  predicate Writes(c: Config, e: Event, key: string) {
    e.Answered? && Cached(c, e.q) && Key(e.q) == key
  }

  /** The slot holds the answer of event `i`, the last one stored under its key. */
  predicate Holds(c: Config, events: seq<Event>, i: nat, slot: Slot) {
    && i < |events| && Writes(c, events[i], slot.key)
    && slot.value == CutAt(events[i].rows, c.registry[events[i].q.operation].maxRows)
    && slot.expiresAt == events[i].now + Ttl(c, c.registry[events[i].q.operation])
    && forall j :: i < j < |events| ==> !Writes(c, events[j], slot.key)
  }

  ghost predicate Sourced(c: Config, events: seq<Event>, slot: Slot) {
    exists i: nat :: Holds(c, events, i, slot)
  }

  lemma StepSlots(c: Config, es: seq<Slot>, e: Event, slot: Slot)
    requires slot in Step(c, es, e)
    ensures (slot in es && !Writes(c, e, slot.key))
         || (Writes(c, e, slot.key)
             && slot.value == CutAt(e.rows, c.registry[e.q.operation].maxRows)
             && slot.expiresAt == e.now + Ttl(c, c.registry[e.q.operation]))
  {
    match OpOf(c, e)
    case None =>
    case Some(op) =>
      WithoutIs(es, op.key);
      FindIs(es, op.key);
  }

  lemma {:induction false} EverySlotIsSourced(c: Config, events: seq<Event>, slot: Slot)
    requires slot in After(c, events)
    ensures Sourced(c, events, slot)
  {
    var n := |events| - 1;
    var init := events[..n];
    StepSlots(c, After(c, init), events[n], slot);
    if Writes(c, events[n], slot.key) {
      assert Holds(c, events, n, slot);
    } else {
      EverySlotIsSourced(c, init, slot);
      var i: nat :| Holds(c, init, i, slot);
      assert Holds(c, events, i, slot);
    }
  }

  /** `value`, served for `q` at `now`, is what the reader answered at event `i`. */
  predicate Explains(c: Config, events: seq<Event>, i: nat, q: Query, value: Answer, now: int) {
    && i < |events| && events[i].Answered? && Cached(c, events[i].q)
    && Epoch(events[i].q) == Epoch(q) && events[i].q.operation == q.operation
    && CacheKeys.Canonical(events[i].q.params) == CacheKeys.Canonical(q.params)
    && value == CutAt(events[i].rows, c.registry[q.operation].maxRows)
    && now < events[i].now + Ttl(c, c.registry[q.operation])
    && forall j :: i < j < |events| ==> !Writes(c, events[j], Key(q))
  }

  /**
   Whatever the interleaving, a served answer is the newest one the reader gave for the same generation,
   operation and canonical parameters, still inside its lifetime and cut at the operation's row cap.
   */
  lemma {:induction false} ServedIsAnAnswer(c: Config, events: seq<Event>, q: Query, now: int)
    requires Registered(c) && ReplyTo(c, After(c, events), q, now).Served?
    ensures exists i: nat :: Explains(c, events, i, q, ReplyTo(c, After(c, events), q, now).value, now)
  {
    var es := After(c, events);
    FindIs(es, Key(q));
    var slot := Find(es, Key(q)).value;
    EverySlotIsSourced(c, events, slot);
    var i: nat :| Holds(c, events, i, slot);
    var p := events[i].q;
    CacheKeys.FullKeyParts(Epoch(p), p.operation, p.params, Epoch(q), q.operation, q.params);
    assert Explains(c, events, i, q, slot.value, now);
  }

  /** The request binds what its operation's family does; requests that are not cached may bind anything. */
  ghost predicate BoundBy(c: Config, q: Query)
    requires Registered(c)
  {
    Cached(c, q) ==> Families.Bound(c.registry[q.operation].family.value, q.params)
  }

  function SiteFor(c: Config, q: Query): string
    requires Registered(c) && Cached(c, q) && BoundBy(c, q)
  {
    Families.SiteOf(c.registry[q.operation].family.value, q.params)
  }

  /**
   No site is ever served another's rows: a served answer was given for the request's own site, and, except to
   a funnel, for the very parameters of the request.
   */
  lemma {:induction false} ServedForItsSite(c: Config, events: seq<Event>, q: Query, now: int)
    requires Registered(c) && ReplyTo(c, After(c, events), q, now).Served?
    requires BoundBy(c, q) && forall i :: 0 <= i < |events| ==> BoundBy(c, events[i].q)
    ensures exists i: nat ::
      && Explains(c, events, i, q, ReplyTo(c, After(c, events), q, now).value, now)
      && SiteFor(c, events[i].q) == SiteFor(c, q)
      && (c.registry[q.operation].family != Some(Families.Funnel) ==> events[i].q.params == q.params)
  {
    ServedIsAnAnswer(c, events, q, now);
    var i: nat :| Explains(c, events, i, q, ReplyTo(c, After(c, events), q, now).value, now);
    var f := c.registry[q.operation].family.value;
    Families.FamilyNeverMixesSites(f, events[i].q.params, q.params);
    Families.FamilyKeysDetermine(f);
  }

  /** An answer just stored is served again, cut the same, until its lifetime is over. */
  lemma {:induction false} AskedAgain(c: Config, events: seq<Event>, q: Query, rows: seq<string>, at: int, now: int)
    requires Cached(c, q) && c.maxEntries > 0
    ensures
      var op := c.registry[q.operation];
      ReplyTo(c, After(c, events + [Answered(q, rows, at)]), q, now)
        == if now < at + Ttl(c, op) then Served(CutAt(rows, op.maxRows)) else Missed
  {
    var all := events + [Answered(q, rows, at)];
    assert all[..|all|-1] == events;
    AfterIsRun(c, events);
    var es, op := After(c, events), OpOf(c, Answered(q, rows, at)).value;
    var p := AfterUse(es, op, c.maxEntries);
    StepBounded(es, op, c.maxEntries);
    SplitFinds(p, c.maxEntries);
  }

  /** A request is unknown exactly when nothing of its name is registered, and then leaves the cache alone. */
  lemma UnknownExactly(c: Config, events: seq<Event>, q: Query, now: int)
    ensures ReplyTo(c, After(c, events), q, now) == UnknownOperation <==> q.operation !in c.registry
    ensures q.operation !in c.registry || !c.registry[q.operation].cacheable ==>
      After(c, events + [Asked(q, now)]) == After(c, events)
  {
    assert (events + [Asked(q, now)])[..|events|] == events;
  }

  // ----- rows and lifetimes -----

  /** What becomes of the reader's rows: the first of them, as many as the cap admits, and whether any were left out. */
  predicate FirstRows(rows: seq<string>, maxRows: nat, answer: Answer) {
    && |answer.rows| == (if |rows| <= maxRows then |rows| else maxRows)
    && (forall k :: 0 <= k < |answer.rows| ==> answer.rows[k] == rows[k])
    && (answer.truncated <==> maxRows < |rows|)
  }

  lemma CutIs(rows: seq<string>, maxRows: nat)
    ensures FirstRows(rows, maxRows, CutAt(rows, maxRows))
  {
  }

  /** An operation of the finalized layer has the long lifetime where one is configured, any other the short one. */
  function Lifetime(c: Config, op: Operation): int {
    match c.finalizedTtlMs
    case Some(long) => if op.finalized then long else c.ttlMs
    case None => c.ttlMs
  }

  /** Event `i` answered the same operation, generation and parameters, and `value` is what the cap leaves of it. */
  predicate AnsweredBy(c: Config, events: seq<Event>, i: nat, q: Query, value: Answer, now: int) {
    && i < |events| && events[i].Answered? && q.operation in c.registry && c.registry[q.operation].cacheable
    && Epoch(events[i].q) == Epoch(q) && events[i].q.operation == q.operation
    && CacheKeys.Canonical(events[i].q.params) == CacheKeys.Canonical(q.params)
    && FirstRows(events[i].rows, c.registry[q.operation].maxRows, value)
    && now < events[i].now + Lifetime(c, c.registry[q.operation])
  }

  /**
   A served answer is the first rows of one the reader gave, as many as the operation's cap admits, marked
   truncated exactly when some were left out, and not older than the lifetime of the operation's layer.
   */
  lemma {:induction false} ServedRows(c: Config, events: seq<Event>, q: Query, now: int)
    requires Registered(c) && ReplyTo(c, After(c, events), q, now).Served?
    ensures exists i: nat :: AnsweredBy(c, events, i, q, ReplyTo(c, After(c, events), q, now).value, now)
  {
    ServedIsAnAnswer(c, events, q, now);
    var value := ReplyTo(c, After(c, events), q, now).value;
    var i: nat :| Explains(c, events, i, q, value, now);
    CutIs(events[i].rows, c.registry[q.operation].maxRows);
    assert AnsweredBy(c, events, i, q, value, now);
  }

  /**
   Right after the reader's answer the request is served those first rows while the lifetime of the operation's
   layer lasts, and no longer; an operation that is not cacheable is never served.
   */
  lemma {:induction false} ServedWhileItLives(
    c: Config, events: seq<Event>, q: Query, rows: seq<string>, at: int, now: int)
    requires q.operation in c.registry && c.maxEntries > 0
    ensures
      var op := c.registry[q.operation];
      var reply := ReplyTo(c, After(c, events + [Answered(q, rows, at)]), q, now);
      && (reply.Served? <==> op.cacheable && now < at + Lifetime(c, op))
      && (reply.Served? ==> FirstRows(rows, op.maxRows, reply.value))
  {
    if Cached(c, q) { AskedAgain(c, events, q, rows, at, now); }
    CutIs(rows, c.registry[q.operation].maxRows);
  }
}
