/**
 Reads over versioned session facts (apps/query-gateway/src/operations.ts, `defineSessionProvisional` and
 `definePageSessions`): a session is its newest version, unless that one is retracted.
 */
module SessionReads {
  import opened Rollups

  /** One stored version of a session. */
  datatype Fact = Fact(
    site: nat, session: int, version: int, start: int, engaged: bool, pageviews: nat,
    duration: nat, active: nat, entry: string, exit: string, retracted: bool)

  datatype Range = Range(site: nat, from: int, until: int)

  predicate Matches(q: Range, f: Fact) { f.site == q.site && q.from <= f.start < q.until }

  /** The matching versions of one session. */
  function Versions(q: Range, facts: seq<Fact>, session: int): seq<Fact> {
    if facts == [] then []
    else if Matches(q, facts[0]) && facts[0].session == session then [facts[0]] + Versions(q, facts[1..], session)
    else Versions(q, facts[1..], session)
  }

  /** `argMax(..., version)`, the same row for every column; the first of equals. */
  function Newest(facts: seq<Fact>): Fact
    requires facts != []
  {
    if |facts| == 1 then facts[0]
    else
      var rest := Newest(facts[1..]);
      if rest.version > facts[0].version then rest else facts[0]
  }

  /** The sessions that occur, each once. */
  function Ids(q: Range, facts: seq<Fact>): seq<int> {
    if facts == [] then []
    else if Matches(q, facts[0]) then InsertKey(facts[0].session, Ids(q, facts[1..]))
    else Ids(q, facts[1..])
  }

  function CurrentOf(q: Range, ids: seq<int>, facts: seq<Fact>): seq<Fact> {
    if ids == [] then []
    else
      var versions := Versions(q, facts, ids[0]);
      if versions == [] then CurrentOf(q, ids[1..], facts)
      else [Newest(versions)] + CurrentOf(q, ids[1..], facts)
  }

  /** The subquery: `GROUP BY site_id, session_id`. */
  function Current(q: Range, facts: seq<Fact>): seq<Fact> { CurrentOf(q, Ids(q, facts), facts) }

  /** `WHERE retracted = 0`. */
  function Unretracted(facts: seq<Fact>): seq<Fact> {
    if facts == [] then []
    else if facts[0].retracted then Unretracted(facts[1..])
    else [facts[0]] + Unretracted(facts[1..])
  }

  function LiveSessions(q: Range, facts: seq<Fact>): seq<Fact> { Unretracted(Current(q, facts)) }

  // ----- the session chart -----

  datatype Tally = Tally(
    sessions: nat, engaged: nat, bounced: nat, pageviews: nat, duration: nat, active: nat)
  {
    function Plus(t: Tally): Tally {
      Tally(sessions + t.sessions, engaged + t.engaged, bounced + t.bounced,
            pageviews + t.pageviews, duration + t.duration, active + t.active)
    }
  }

  function TallyOf(f: Fact): Tally {
    Tally(1, if f.engaged then 1 else 0, if f.engaged then 0 else 1, f.pageviews, f.duration, f.active)
  }

  function Tallied(facts: seq<Fact>): Tally {
    if facts == [] then Tally(0, 0, 0, 0, 0, 0) else TallyOf(facts[0]).Plus(Tallied(facts[1..]))
  }

  function InBucket(facts: seq<Fact>, place: int -> int, b: int): seq<Fact> {
    if facts == [] then []
    else if place(facts[0].start) == b then [facts[0]] + InBucket(facts[1..], place, b)
    else InBucket(facts[1..], place, b)
  }

  function Buckets(facts: seq<Fact>, place: int -> int): seq<int> {
    if facts == [] then [] else InsertKey(place(facts[0].start), Buckets(facts[1..], place))
  }

  datatype SessionPoint = SessionPoint(bucket: int, tally: Tally)

  function ChartOf(keys: seq<int>, facts: seq<Fact>, place: int -> int): seq<SessionPoint> {
    if keys == [] then []
    else [SessionPoint(keys[0], Tallied(InBucket(facts, place, keys[0])))] + ChartOf(keys[1..], facts, place)
  }

  function SessionChart(q: Range, place: int -> int, facts: seq<Fact>): seq<SessionPoint> {
    var live := LiveSessions(q, facts);
    ChartOf(Buckets(live, place), live, place)
  }

  // ----- what the versions promise -----

  /** A session's version names one row, and a session never moves in time. */
  ghost predicate Consistent(facts: seq<Fact>) {
    forall f, g :: f in facts && g in facts && f.site == g.site && f.session == g.session ==>
      f.start == g.start && (f.version == g.version ==> f == g)
  }

  /** `f` says nothing that some row of `facts` does not already say or overrule. */
  ghost predicate Superseded(f: Fact, facts: seq<Fact>) {
    exists g :: g in facts && g.site == f.site && g.session == f.session && g.version >= f.version
  }

  lemma {:induction false} VersionsAre(q: Range, facts: seq<Fact>, session: int)
    ensures forall f :: f in Versions(q, facts, session) <==> f in facts && Matches(q, f) && f.session == session
  {
    if facts != [] {
      VersionsAre(q, facts[1..], session);
      assert facts == [facts[0]] + facts[1..];
    }
  }

  lemma {:induction false} NewestIs(facts: seq<Fact>)
    requires facts != []
    ensures Newest(facts) in facts && forall f :: f in facts ==> f.version <= Newest(facts).version
  {
    assert facts == [facts[0]] + facts[1..];
    if |facts| > 1 { NewestIs(facts[1..]); }
  }

  lemma {:induction false} IdsAre(q: Range, facts: seq<Fact>)
    ensures Ascending(Ids(q, facts))
    ensures forall k :: k in Ids(q, facts) <==> Versions(q, facts, k) != []
  {
    if facts != [] {
      IdsAre(q, facts[1..]);
      InsertKeyIs(facts[0].session, Ids(q, facts[1..]));
    }
  }

  lemma {:induction false} AscendingUnique(a: seq<int>, b: seq<int>)
    requires Ascending(a) && Ascending(b) && forall k :: k in a <==> k in b
    ensures a == b
  {
    assert a != [] ==> a[0] in a;
    assert b != [] ==> b[0] in b;
    if a != [] {
      assert a[0] == b[0];
      TailMembers(a);
      TailMembers(b);
      AscendingUnique(a[1..], b[1..]);
    }
  }

  lemma TailMembers(a: seq<int>)
    requires Ascending(a) && a != []
    ensures Ascending(a[1..]) && forall k :: k in a[1..] <==> k in a && k != a[0]
  {
    assert a == [a[0]] + a[1..];
    forall k | k in a[1..] ensures k != a[0] {
      var i :| 0 <= i < |a[1..]| && a[1..][i] == k;
      assert a[i+1] == k;
    }
  }

  /** The current row of a session. */
  lemma NewestOf(q: Range, facts: seq<Fact>, k: int, n: Fact)
    requires Consistent(facts) && Versions(q, facts, k) != []
    requires n in Versions(q, facts, k) && forall f :: f in Versions(q, facts, k) ==> f.version <= n.version
    ensures Newest(Versions(q, facts, k)) == n
  {
    NewestIs(Versions(q, facts, k));
    VersionsAre(q, facts, k);
  }

  /** Both lists say the same of session `k`. */
  ghost predicate SameSession(q: Range, facts: seq<Fact>, facts': seq<Fact>, k: int) {
    var v, v' := Versions(q, facts, k), Versions(q, facts', k);
    (v == [] <==> v' == []) && (v != [] ==> Newest(v) == Newest(v'))
  }

  lemma {:induction false} SameCurrentOf(q: Range, ids: seq<int>, facts: seq<Fact>, facts': seq<Fact>)
    requires forall i :: 0 <= i < |ids| ==> SameSession(q, facts, facts', ids[i])
    ensures CurrentOf(q, ids, facts) == CurrentOf(q, ids, facts')
  {
    if ids != [] {
      assert SameSession(q, facts, facts', ids[0]);
      SameCurrentOf(q, ids[1..], facts, facts');
    }
  }

  lemma SupersededSession(q: Range, facts: seq<Fact>, facts': seq<Fact>, k: int)
    requires Consistent(facts') && (forall f :: f in facts ==> f in facts')
    requires forall f {:trigger Superseded(f, facts)} :: f in facts' ==> Superseded(f, facts)
    ensures SameSession(q, facts, facts', k)
  {
    var v, v' := Versions(q, facts, k), Versions(q, facts', k);
    VersionsAre(q, facts, k);
    VersionsAre(q, facts', k);
    assert v != [] ==> v[0] in v && v[0] in v';
    if v' != [] {
      NewestIs(v');
      assert Superseded(Newest(v'), facts);
      NewestStored(facts, facts', Newest(v'));
      NewestOf(q, facts, k, Newest(v'));
    }
  }

  lemma NewestStored(facts: seq<Fact>, facts': seq<Fact>, n: Fact)
    requires Consistent(facts') && (forall f :: f in facts ==> f in facts')
    requires n in facts' && Superseded(n, facts)
    requires forall f :: f in facts' && f.site == n.site && f.session == n.session ==> f.version <= n.version
    ensures n in facts && Consistent(facts)
  {
    var g :| g in facts && g.site == n.site && g.session == n.session && g.version >= n.version;
    assert g in facts';
  }

  /**
   Reads depend on current truth only: rows that repeat or trail what is stored, added anywhere in the
   table, leave every session read as it was.
   */
  lemma {:induction false} SupersededRowsChangeNothing(q: Range, facts: seq<Fact>, facts': seq<Fact>)
    requires Consistent(facts') && (forall f :: f in facts ==> f in facts')
    requires forall f {:trigger Superseded(f, facts)} :: f in facts' ==> Superseded(f, facts)
    ensures LiveSessions(q, facts) == LiveSessions(q, facts')
    ensures forall place :: SessionChart(q, place, facts) == SessionChart(q, place, facts')
  {
    forall k ensures SameSession(q, facts, facts', k) { SupersededSession(q, facts, facts', k); }
    IdsAre(q, facts);
    IdsAre(q, facts');
    forall k ensures k in Ids(q, facts) <==> k in Ids(q, facts') { assert SameSession(q, facts, facts', k); }
    AscendingUnique(Ids(q, facts), Ids(q, facts'));
    SameCurrentOf(q, Ids(q, facts), facts, facts');
  }

  // ----- retraction -----

  function Without(facts: seq<Fact>, session: int): seq<Fact> {
    if facts == [] then []
    else if facts[0].session == session then Without(facts[1..], session)
    else [facts[0]] + Without(facts[1..], session)
  }

  /** `t` is a retraction newer than every version of its session in `facts`. */
  ghost predicate Retracts(t: Fact, facts: seq<Fact>) {
    && t.retracted
    && forall f :: f in facts && f.site == t.site && f.session == t.session ==> f.version < t.version
  }

  lemma OtherSession(q: Range, facts: seq<Fact>, facts': seq<Fact>, t: Fact, k: int)
    requires Consistent(facts') && (forall f :: f in facts' <==> f in facts || f == t)
    requires k != t.session || !Matches(q, t)
    ensures SameSession(q, facts, facts', k)
  {
    var v, v' := Versions(q, facts, k), Versions(q, facts', k);
    VersionsAre(q, facts, k);
    VersionsAre(q, facts', k);
    assert v' != [] ==> v'[0] in v';
    if v != [] {
      assert v[0] in v';
      NewestIs(v);
      NewestOf(q, facts', k, Newest(v));
    }
  }

  lemma RetractedSession(q: Range, facts: seq<Fact>, facts': seq<Fact>, t: Fact)
    requires Consistent(facts') && (forall f :: f in facts' <==> f in facts || f == t)
    requires Retracts(t, facts) && Matches(q, t)
    ensures Versions(q, facts', t.session) != [] && Newest(Versions(q, facts', t.session)) == t
  {
    VersionsAre(q, facts', t.session);
    assert t in Versions(q, facts', t.session);
    NewestOf(q, facts', t.session, t);
  }

  /** The live row of one session, if it has one. */
  function LiveRowOf(q: Range, facts: seq<Fact>, k: int): seq<Fact> {
    var v := Versions(q, facts, k);
    if v == [] || Newest(v).retracted then [] else [Newest(v)]
  }

  function LiveList(q: Range, ids: seq<int>, facts: seq<Fact>): seq<Fact> {
    if ids == [] then [] else LiveRowOf(q, facts, ids[0]) + LiveList(q, ids[1..], facts)
  }

  lemma {:induction false} UnretractedIs(q: Range, ids: seq<int>, facts: seq<Fact>)
    ensures Unretracted(CurrentOf(q, ids, facts)) == LiveList(q, ids, facts)
  {
    if ids != [] {
      UnretractedIs(q, ids[1..], facts);
      var v := Versions(q, facts, ids[0]);
      if v != [] { UnretractedCons(Newest(v), CurrentOf(q, ids[1..], facts)); }
    }
  }

  lemma UnretractedCons(f: Fact, facts: seq<Fact>)
    ensures Unretracted([f] + facts) == (if f.retracted then [] else [f]) + Unretracted(facts)
  {
    assert ([f] + facts)[1..] == facts;
  }

  /** A session without a live row takes no place in the list. */
  lemma {:induction false} DeadTakesNoPlace(q: Range, ids: seq<int>, facts: seq<Fact>, k: int)
    requires LiveRowOf(q, facts, k) == []
    ensures LiveList(q, InsertKey(k, ids), facts) == LiveList(q, ids, facts)
  {
    assert ([k] + ids)[1..] == ids;
    if ids != [] && k > ids[0] {
      DeadTakesNoPlace(q, ids[1..], facts, k);
      var more := InsertKey(k, ids[1..]);
      assert ([ids[0]] + more)[1..] == more;
    }
  }

  lemma {:induction false} OthersKept(q: Range, ids: seq<int>, facts: seq<Fact>, facts': seq<Fact>, k: int)
    requires forall i :: i != k ==> SameSession(q, facts, facts', i)
    requires LiveRowOf(q, facts', k) == []
    ensures LiveList(q, ids, facts') == Without(LiveList(q, ids, facts), k)
  {
    if ids != [] {
      OthersKept(q, ids[1..], facts, facts', k);
      var row, row' := LiveRowOf(q, facts, ids[0]), LiveRowOf(q, facts', ids[0]);
      var rest := LiveList(q, ids[1..], facts);
      assert ids[0] != k ==> SameSession(q, facts, facts', ids[0]);
      assert row' == if ids[0] == k then [] else row;
      assert [] + rest == rest && [] + Without(rest, k) == Without(rest, k);
      if row != [] {
        LiveRowSession(q, facts, ids[0]);
        assert row == [row[0]] && row[0] in row;
        WithoutCons(row[0], rest, k);
      }
    }
  }

  lemma LiveRowSession(q: Range, facts: seq<Fact>, k: int)
    ensures forall f :: f in LiveRowOf(q, facts, k) ==> f.session == k && !f.retracted
  {
    VersionsAre(q, facts, k);
    if Versions(q, facts, k) != [] { NewestIs(Versions(q, facts, k)); }
  }

  lemma WithoutCons(f: Fact, facts: seq<Fact>, k: int)
    ensures Without([f] + facts, k) == (if f.session == k then [] else [f]) + Without(facts, k)
  {
    assert ([f] + facts)[1..] == facts;
  }

  /** Adding the newest, retracted version of a session takes exactly that session out of every read. */
  lemma {:induction false} RetractionRemovesOneSession(q: Range, facts: seq<Fact>, facts': seq<Fact>, t: Fact)
    requires Consistent(facts') && (forall f :: f in facts' <==> f in facts || f == t)
    requires Retracts(t, facts) && Matches(q, t)
    ensures LiveSessions(q, facts') == Without(LiveSessions(q, facts), t.session)
  {
    var k, ids, ids' := t.session, Ids(q, facts), Ids(q, facts');
    RetractedSession(q, facts, facts', t);
    forall i | i != k ensures SameSession(q, facts, facts', i) { OtherSession(q, facts, facts', t, i); }
    IdsAre(q, facts);
    IdsAre(q, facts');
    InsertKeyIs(k, ids);
    forall i ensures i in ids' <==> i in InsertKey(k, ids) {
      if i != k { assert SameSession(q, facts, facts', i); }
    }
    AscendingUnique(ids', InsertKey(k, ids));
    UnretractedIs(q, ids', facts');
    UnretractedIs(q, ids, facts);
    DeadTakesNoPlace(q, ids, facts', k);
    OthersKept(q, ids, facts, facts', k);
  }

  // ----- entry and exit pages -----

  datatype Slot = Slot(session: int, engaged: bool, path: string, enters: bool, exits: bool)

  /** `arrayJoin`: an entry slot and an exit slot for each session. */
  function Slots(live: seq<Fact>): seq<Slot> {
    if live == [] then []
    else
      var f := live[0];
      [Slot(f.session, f.engaged, f.entry, true, false), Slot(f.session, f.engaged, f.exit, false, true)]
        + Slots(live[1..])
  }

  datatype Page = Page(path: string, entrances: nat, exits: nat, bounces: nat, sessions: nat)

  function Tick(b: bool): nat { if b then 1 else 0 }

  function Entrances(slots: seq<Slot>, path: string): nat {
    if slots == [] then 0 else Tick(slots[0].path == path && slots[0].enters) + Entrances(slots[1..], path)
  }

  function Exits(slots: seq<Slot>, path: string): nat {
    if slots == [] then 0 else Tick(slots[0].path == path && slots[0].exits) + Exits(slots[1..], path)
  }

  function Bounces(slots: seq<Slot>, path: string): nat {
    if slots == [] then 0
    else Tick(slots[0].path == path && slots[0].enters && !slots[0].engaged) + Bounces(slots[1..], path)
  }

  function SessionsAt(slots: seq<Slot>, path: string): set<int> {
    if slots == [] then {} else (if slots[0].path == path then {slots[0].session} else {}) + SessionsAt(slots[1..], path)
  }

  function PageOf(slots: seq<Slot>, path: string): Page {
    Page(path, Entrances(slots, path), Exits(slots, path), Bounces(slots, path), |SessionsAt(slots, path)|)
  }

  function Paths(slots: seq<Slot>): set<string> {
    if slots == [] then {} else (if slots[0].path != "" then {slots[0].path} else {}) + Paths(slots[1..])
  }

  predicate Distinct(paths: seq<string>) { forall i, j :: 0 <= i < j < |paths| ==> paths[i] != paths[j] }

  /** The page read before its `LIMIT`: a row per path, in whatever order. */
  ghost predicate IsPageRead(pages: seq<Page>, paths: seq<string>, live: seq<Fact>) {
    && Distinct(paths) && (forall p :: p in paths <==> p in Paths(Slots(live)))
    && |pages| == |paths| && forall i :: 0 <= i < |pages| ==> pages[i] == PageOf(Slots(live), paths[i])
  }

  function SumEntrances(pages: seq<Page>): nat {
    if pages == [] then 0 else pages[0].entrances + SumEntrances(pages[1..])
  }

  /** Sessions that start on a page. */
  function Entering(live: seq<Fact>): nat {
    if live == [] then 0 else Tick(live[0].entry != "") + Entering(live[1..])
  }

  /** Sessions that start and end at `path`. */
  function Single(live: seq<Fact>, path: string): nat {
    if live == [] then 0 else Tick(live[0].entry == path && live[0].exit == path) + Single(live[1..], path)
  }

  predicate DistinctSessions(live: seq<Fact>) {
    forall i, j :: 0 <= i < j < |live| ==> live[i].session != live[j].session
  }

  /** One session's share of a page. */
  lemma SlotsCons(f: Fact, live: seq<Fact>, path: string)
    ensures Slots([f] + live) == [Slot(f.session, f.engaged, f.entry, true, false)]
      + ([Slot(f.session, f.engaged, f.exit, false, true)] + Slots(live))
    ensures
      var all, rest := Slots([f] + live), Slots(live);
      && Entrances(all, path) == Tick(f.entry == path) + Entrances(rest, path)
      && Exits(all, path) == Tick(f.exit == path) + Exits(rest, path)
      && Bounces(all, path) == Tick(f.entry == path && !f.engaged) + Bounces(rest, path)
      && SessionsAt(all, path)
           == (if f.entry == path || f.exit == path then {f.session} else {}) + SessionsAt(rest, path)
  {
    var first := Slot(f.session, f.engaged, f.entry, true, false);
    var second := Slot(f.session, f.engaged, f.exit, false, true);
    var rest := Slots(live);
    assert ([f] + live)[1..] == live;
    assert Slots([f] + live) == [first] + ([second] + rest);
    assert ([first] + ([second] + rest))[1..] == [second] + rest;
    assert ([second] + rest)[1..] == rest;
  }

  lemma {:induction false} NotAmong(live: seq<Fact>, path: string, k: int)
    requires forall i :: 0 <= i < |live| ==> live[i].session != k
    ensures k !in SessionsAt(Slots(live), path)
  {
    if live != [] {
      assert live == [live[0]] + live[1..];
      SlotsCons(live[0], live[1..], path);
      NotAmong(live[1..], path, k);
    }
  }

  /** A page's sessions are its entrances and exits, the sessions that do both counted once. */
  lemma {:induction false} PageAddsUp(live: seq<Fact>, path: string)
    requires DistinctSessions(live)
    ensures
      var p := PageOf(Slots(live), path);
      && p.sessions + Single(live, path) == p.entrances + p.exits
      && Single(live, path) <= p.entrances && Single(live, path) <= p.exits
      && p.bounces <= p.entrances
  {
    if live != [] {
      var rest := live[1..];
      assert live == [live[0]] + rest;
      assert DistinctSessions(rest) by { assert forall i :: 0 <= i < |rest| ==> rest[i] == live[i+1]; }
      PageAddsUp(rest, path);
      SlotsCons(live[0], rest, path);
      NotAmong(rest, path, live[0].session);
    }
  }

  function EntrancesOver(paths: seq<string>, slots: seq<Slot>): nat {
    if paths == [] then 0 else Entrances(slots, paths[0]) + EntrancesOver(paths[1..], slots)
  }

  lemma {:induction false} OneMoreSlot(paths: seq<string>, s: Slot, slots: seq<Slot>)
    requires Distinct(paths)
    ensures EntrancesOver(paths, [s] + slots) == Tick(s.enters && s.path in paths) + EntrancesOver(paths, slots)
  {
    assert ([s] + slots)[1..] == slots;
    if paths != [] {
      var rest := paths[1..];
      assert paths == [paths[0]] + rest;
      assert forall i :: 0 <= i < |rest| ==> rest[i] == paths[i+1];
      OneMoreSlot(rest, s, slots);
    }
  }

  function EnteringIn(live: seq<Fact>, paths: seq<string>): nat {
    if live == [] then 0 else Tick(live[0].entry in paths) + EnteringIn(live[1..], paths)
  }

  lemma {:induction false} NoSlotsNoEntrances(paths: seq<string>)
    ensures EntrancesOver(paths, []) == 0
  {
    if paths != [] { NoSlotsNoEntrances(paths[1..]); }
  }

  lemma {:induction false} EntrancesAre(paths: seq<string>, live: seq<Fact>)
    requires Distinct(paths)
    ensures EntrancesOver(paths, Slots(live)) == EnteringIn(live, paths)
  {
    if live == [] {
      NoSlotsNoEntrances(paths);
    } else {
      var f, rest := live[0], Slots(live[1..]);
      EntrancesAre(paths, live[1..]);
      var first := Slot(f.session, f.engaged, f.entry, true, false);
      var second := Slot(f.session, f.engaged, f.exit, false, true);
      assert Slots(live) == [first] + ([second] + rest);
      OneMoreSlot(paths, second, rest);
      OneMoreSlot(paths, first, [second] + rest);
    }
  }

  lemma {:induction false} EntriesListed(live: seq<Fact>, i: nat)
    requires i < |live|
    ensures "" !in Paths(Slots(live)) && (live[i].entry != "" ==> live[i].entry in Paths(Slots(live)))
  {
    var f, rest := live[0], Slots(live[1..]);
    var first := Slot(f.session, f.engaged, f.entry, true, false);
    var second := Slot(f.session, f.engaged, f.exit, false, true);
    assert Slots(live) == [first] + ([second] + rest);
    PathsCons(first, [second] + rest);
    PathsCons(second, rest);
    if |live| > 1 {
      EntriesListed(live[1..], if i > 0 then i - 1 else 0);
    } else {
      assert Paths(rest) == {};
    }
  }

  lemma PathsCons(s: Slot, slots: seq<Slot>)
    ensures Paths([s] + slots) == (if s.path != "" then {s.path} else {}) + Paths(slots)
  {
    assert ([s] + slots)[1..] == slots;
  }

  lemma {:induction false} EnteringIs(live: seq<Fact>, paths: seq<string>)
    requires forall i :: 0 <= i < |live| ==> (live[i].entry in paths <==> live[i].entry != "")
    ensures EnteringIn(live, paths) == Entering(live)
  {
    if live != [] {
      assert forall i :: 0 <= i < |live[1..]| ==> live[1..][i] == live[i+1];
      EnteringIs(live[1..], paths);
    }
  }

  lemma {:induction false} SumIsOver(pages: seq<Page>, paths: seq<string>, slots: seq<Slot>)
    requires |pages| == |paths| && forall i :: 0 <= i < |pages| ==> pages[i] == PageOf(slots, paths[i])
    ensures SumEntrances(pages) == EntrancesOver(paths, slots)
  {
    if pages != [] { SumIsOver(pages[1..], paths[1..], slots); }
  }

  lemma {:induction false} LiveListSessions(q: Range, ids: seq<int>, facts: seq<Fact>)
    requires Ascending(ids)
    ensures DistinctSessions(LiveList(q, ids, facts))
    ensures forall i :: 0 <= i < |LiveList(q, ids, facts)| ==> LiveList(q, ids, facts)[i].session in ids
  {
    if ids != [] {
      LiveListSessions(q, ids[1..], facts);
      LiveRowSession(q, facts, ids[0]);
      TailMembers(ids);
      FirstThenRest(LiveRowOf(q, facts, ids[0]), LiveList(q, ids[1..], facts), ids);
    }
  }

  lemma FirstThenRest(row: seq<Fact>, rest: seq<Fact>, ids: seq<int>)
    requires ids != [] && |row| <= 1 && DistinctSessions(rest)
    requires forall f :: f in row ==> f.session == ids[0]
    requires forall i :: 0 <= i < |rest| ==> rest[i].session in ids && rest[i].session != ids[0]
    ensures DistinctSessions(row + rest)
    ensures forall i :: 0 <= i < |row + rest| ==> (row + rest)[i].session in ids
  {
    assert row != [] ==> row[0] in row;
  }

  /**
   The page read adds up: its entrances are the live sessions that have an entry page, and on every page
   bounces are entrances and sessions are entrances and exits with the single-page sessions counted once.
   */
  lemma {:induction false} PageReadAddsUp(q: Range, facts: seq<Fact>, pages: seq<Page>, paths: seq<string>)
    requires IsPageRead(pages, paths, LiveSessions(q, facts))
    ensures SumEntrances(pages) == Entering(LiveSessions(q, facts))
    ensures forall i :: 0 <= i < |pages| ==>
      var p := pages[i];
      && p.bounces <= p.entrances
      && p.sessions + Single(LiveSessions(q, facts), p.path) == p.entrances + p.exits
      && p.entrances <= p.sessions && p.exits <= p.sessions && p.sessions <= p.entrances + p.exits
  {
    var live := LiveSessions(q, facts);
    IdsAre(q, facts);
    UnretractedIs(q, Ids(q, facts), facts);
    LiveListSessions(q, Ids(q, facts), facts);
    SumIsOver(pages, paths, Slots(live));
    EntrancesAre(paths, live);
    forall i | 0 <= i < |live| ensures live[i].entry in paths <==> live[i].entry != "" { EntriesListed(live, i); }
    EnteringIs(live, paths);
    forall i | 0 <= i < |pages|
      ensures pages[i].sessions + Single(live, pages[i].path) == pages[i].entrances + pages[i].exits
        && pages[i].bounces <= pages[i].entrances
        && Single(live, pages[i].path) <= pages[i].entrances && Single(live, pages[i].path) <= pages[i].exits
    {
      PageAddsUp(live, paths[i]);
    }
  }
}
