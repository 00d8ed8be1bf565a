/**
 What session charts and page reads count (apps/query-gateway/src/operations.ts, `defineSessionProvisional` and
 `definePageSessions`), session by session.
 */
module SessionCounts {
  import Rollups
  import opened SessionReads

  /** The session's newest version, of the site and the range, and not a retraction. */
  ghost predicate InEffect(q: Range, facts: seq<Fact>, f: Fact) {
    && f in facts && f.site == q.site && q.from <= f.start < q.until && !f.retracted
    && forall g :: g in facts && g.site == f.site && g.session == f.session ==> g.version <= f.version
  }

  function Count(live: seq<Fact>, keep: Fact -> bool): nat {
    if live == [] then 0 else (if keep(live[0]) then 1 else 0) + Count(live[1..], keep)
  }

  function Total(live: seq<Fact>, keep: Fact -> bool, of: Fact -> nat): nat {
    if live == [] then 0 else (if keep(live[0]) then of(live[0]) else 0) + Total(live[1..], keep, of)
  }

  function At(place: int -> int, b: int): Fact -> bool { (f: Fact) => place(f.start) == b }

  function EngagedAt(place: int -> int, b: int, engaged: bool): Fact -> bool {
    (f: Fact) => place(f.start) == b && f.engaged == engaged
  }

  function Pageviews(): Fact -> nat { (f: Fact) => f.pageviews }

  function Duration(): Fact -> nat { (f: Fact) => f.duration }

  function Active(): Fact -> nat { (f: Fact) => f.active }

  function Enters(path: string): Fact -> bool { (f: Fact) => f.entry == path }

  function Leaves(path: string): Fact -> bool { (f: Fact) => f.exit == path }

  function EntersOnly(path: string): Fact -> bool { (f: Fact) => f.entry == path && !f.engaged }

  function Touches(path: string): Fact -> bool { (f: Fact) => f.entry == path || f.exit == path }

  // ----- the sessions -----

  lemma {:induction false} UnretractedAre(facts: seq<Fact>, f: Fact)
    ensures f in Unretracted(facts) <==> f in facts && !f.retracted
  {
    if facts != [] {
      UnretractedAre(facts[1..], f);
      assert facts == [facts[0]] + facts[1..];
      UnretractedCons(facts[0], facts[1..]);
    }
  }

  lemma {:induction false} CurrentOfAre(q: Range, ids: seq<int>, facts: seq<Fact>, f: Fact)
    ensures f in CurrentOf(q, ids, facts)
      <==> f.session in ids && Versions(q, facts, f.session) != [] && f == Newest(Versions(q, facts, f.session))
  {
    if ids != [] {
      assert ids == [ids[0]] + ids[1..];
      CurrentOfAre(q, ids[1..], facts, f);
      var v := Versions(q, facts, ids[0]);
      if v != [] {
        VersionsAre(q, facts, ids[0]);
        NewestIs(v);
      }
    }
  }

  lemma NewestInEffect(q: Range, facts: seq<Fact>, f: Fact)
    requires Consistent(facts)
    ensures Versions(q, facts, f.session) != [] && f == Newest(Versions(q, facts, f.session)) && !f.retracted
      <==> InEffect(q, facts, f)
  {
    var v := Versions(q, facts, f.session);
    VersionsAre(q, facts, f.session);
    if v != [] { NewestIs(v); }
    if InEffect(q, facts, f) {
      assert f in v;
      NewestOf(q, facts, f.session, f);
    }
  }

  /** The live sessions are the ones in effect, each once. */
  lemma {:induction false} LiveSessionsAre(q: Range, facts: seq<Fact>)
    requires Consistent(facts)
    ensures forall f :: f in LiveSessions(q, facts) <==> InEffect(q, facts, f)
    ensures forall i, j :: 0 <= i < j < |LiveSessions(q, facts)| ==>
      LiveSessions(q, facts)[i].session != LiveSessions(q, facts)[j].session
  {
    var ids := Ids(q, facts);
    IdsAre(q, facts);
    forall f ensures f in LiveSessions(q, facts) <==> InEffect(q, facts, f) {
      UnretractedAre(Current(q, facts), f);
      CurrentOfAre(q, ids, facts, f);
      NewestInEffect(q, facts, f);
    }
    UnretractedIs(q, ids, facts);
    LiveListSessions(q, ids, facts);
  }

  // ----- the chart -----

  lemma {:induction false} TalliedIs(live: seq<Fact>, place: int -> int, b: int)
    ensures
      var t := Tallied(InBucket(live, place, b));
      && t.sessions == Count(live, At(place, b))
      && t.engaged == Count(live, EngagedAt(place, b, true)) && t.bounced == Count(live, EngagedAt(place, b, false))
      && t.pageviews == Total(live, At(place, b), Pageviews())
      && t.duration == Total(live, At(place, b), Duration())
      && t.active == Total(live, At(place, b), Active())
  {
    if live != [] {
      var rest := InBucket(live[1..], place, b);
      TalliedIs(live[1..], place, b);
      assert ([live[0]] + rest)[1..] == rest;
    }
  }

  lemma {:induction false} ChartOfIs(keys: seq<int>, live: seq<Fact>, place: int -> int)
    ensures |ChartOf(keys, live, place)| == |keys|
    ensures forall i :: 0 <= i < |keys| ==>
      ChartOf(keys, live, place)[i] == SessionPoint(keys[i], Tallied(InBucket(live, place, keys[i])))
  {
    if keys != [] { ChartOfIs(keys[1..], live, place); }
  }

  lemma {:induction false} BucketsAre(live: seq<Fact>, place: int -> int, b: int)
    ensures Rollups.Ascending(Buckets(live, place))
    ensures b in Buckets(live, place) <==> exists i :: 0 <= i < |live| && place(live[i].start) == b
  {
    if live != [] {
      BucketsAre(live[1..], place, b);
      Rollups.InsertKeyIs(place(live[0].start), Buckets(live[1..], place));
      assert live == [live[0]] + live[1..];
    }
  }

  /**
   Each point of the session chart counts its bucket's sessions in effect: how many there are, how many engaged and
   how many did not, and their page views and durations.
   */
  lemma {:induction false} SessionPointIs(q: Range, place: int -> int, facts: seq<Fact>, i: nat)
    requires i < |SessionChart(q, place, facts)|
    ensures
      var b, t := SessionChart(q, place, facts)[i].bucket, SessionChart(q, place, facts)[i].tally;
      var live := LiveSessions(q, facts);
      && t.sessions == Count(live, At(place, b))
      && t.engaged == Count(live, EngagedAt(place, b, true)) && t.bounced == Count(live, EngagedAt(place, b, false))
      && t.pageviews == Total(live, At(place, b), Pageviews())
      && t.duration == Total(live, At(place, b), Duration())
      && t.active == Total(live, At(place, b), Active())
  {
    var live := LiveSessions(q, facts);
    ChartOfIs(Buckets(live, place), live, place);
    TalliedIs(live, place, SessionChart(q, place, facts)[i].bucket);
  }

  /** The chart's points ascend, one for each bucket with a session in effect. */
  lemma {:induction false} SessionBucketsAre(q: Range, place: int -> int, facts: seq<Fact>, b: int)
    requires Consistent(facts)
    ensures
      var chart := SessionChart(q, place, facts);
      && (forall i, j :: 0 <= i < j < |chart| ==> chart[i].bucket < chart[j].bucket)
      && ((exists i :: 0 <= i < |chart| && chart[i].bucket == b) <==>
            exists f :: InEffect(q, facts, f) && place(f.start) == b)
  {
    var live := LiveSessions(q, facts);
    var keys, chart := Buckets(live, place), SessionChart(q, place, facts);
    BucketsAre(live, place, b);
    ChartOfIs(keys, live, place);
    LiveSessionsAre(q, facts);
    if b in keys {
      var k :| 0 <= k < |keys| && keys[k] == b;
      assert chart[k].bucket == b;
      var i :| 0 <= i < |live| && place(live[i].start) == b;
      assert live[i] in live;
    }
    if f :| InEffect(q, facts, f) && place(f.start) == b {
      assert f in live;
      var i :| 0 <= i < |live| && live[i] == f;
    }
  }

  // ----- entry and exit pages -----

  lemma {:induction false} SlotsCount(live: seq<Fact>, path: string)
    ensures
      var s := Slots(live);
      && Entrances(s, path) == Count(live, Enters(path)) && Exits(s, path) == Count(live, Leaves(path))
      && Bounces(s, path) == Count(live, EntersOnly(path))
  {
    if live != [] {
      assert live == [live[0]] + live[1..];
      SlotsCount(live[1..], path);
      SlotsCons(live[0], live[1..], path);
    }
  }

  lemma {:induction false} SessionsCount(live: seq<Fact>, path: string)
    requires DistinctSessions(live)
    ensures |SessionsAt(Slots(live), path)| == Count(live, Touches(path))
  {
    if live != [] {
      var rest := live[1..];
      assert live == [live[0]] + rest;
      assert DistinctSessions(rest) by { assert forall i :: 0 <= i < |rest| ==> rest[i] == live[i+1]; }
      SessionsCount(rest, path);
      SlotsCons(live[0], rest, path);
      NotAmong(rest, path, live[0].session);
    }
  }

  lemma {:induction false} PathsAre(live: seq<Fact>, p: string)
    ensures p in Paths(Slots(live)) <==> p != "" && exists i :: 0 <= i < |live| && (live[i].entry == p || live[i].exit == p)
  {
    if live != [] {
      assert live == [live[0]] + live[1..];
      PathsAre(live[1..], p);
      var f, rest := live[0], Slots(live[1..]);
      var first := Slot(f.session, f.engaged, f.entry, true, false);
      var second := Slot(f.session, f.engaged, f.exit, false, true);
      assert Slots(live) == [first] + ([second] + rest);
      PathsCons(first, [second] + rest);
      PathsCons(second, rest);
    }
  }

  /**
   A page's row counts the sessions in effect that begin there, that end there, that begin there without engaging
   (its bounces), and that do either; every page some session begins or ends on has a row.
   */
  lemma {:induction false} PageRowIs(q: Range, facts: seq<Fact>, pages: seq<Page>, paths: seq<string>, p: string)
    requires Consistent(facts) && IsPageRead(pages, paths, LiveSessions(q, facts))
    ensures forall i :: 0 <= i < |pages| ==>
      var live, path := LiveSessions(q, facts), paths[i];
      && pages[i].path == path && pages[i].entrances == Count(live, Enters(path))
      && pages[i].exits == Count(live, Leaves(path)) && pages[i].bounces == Count(live, EntersOnly(path))
      && pages[i].sessions == Count(live, Touches(path))
    ensures p in paths <==> p != "" && exists f :: InEffect(q, facts, f) && (f.entry == p || f.exit == p)
  {
    var live := LiveSessions(q, facts);
    LiveSessionsAre(q, facts);
    forall i | 0 <= i < |pages|
      ensures pages[i] == Page(paths[i], Count(live, Enters(paths[i])), Count(live, Leaves(paths[i])),
                               Count(live, EntersOnly(paths[i])), Count(live, Touches(paths[i])))
    {
      SlotsCount(live, paths[i]);
      SessionsCount(live, paths[i]);
    }
    PathsAre(live, p);
    if f :| InEffect(q, facts, f) && (f.entry == p || f.exit == p) {
      assert f in live;
      var i :| 0 <= i < |live| && live[i] == f;
    }
    if i :| 0 <= i < |live| && (live[i].entry == p || live[i].exit == p) { assert live[i] in live; }
  }
}
