/**
 What charts and overviews count, row by row (apps/query-gateway/src/operations.ts): the filters of the
 statements written out, and plain sums over all stored rows.
 */
module RollupTotals {
  import opened Rollups

  /** The site's own row, in the range and from the cutover on. */
  predicate Counted(q: Request, r: LiveRow) {
    r.site == q.site && q.from <= r.bucketStart < q.until && q.zone.dayStart(q.cutover) <= r.bucketStart
  }

  /** The site's own day of the named run, before the cutover, whose local midnight is in the range. */
  predicate DayCounted(q: Request, d: ImportedRow) {
    d.site == q.site && d.run == q.run && d.date < q.cutover && q.from <= q.zone.dayStart(d.date) < q.until
  }

  function LiveEvents(q: Request, rows: seq<LiveRow>, at: int -> bool): nat {
    if rows == [] then 0
    else (if Counted(q, rows[0]) && at(rows[0].bucketStart) then rows[0].events else 0) + LiveEvents(q, rows[1..], at)
  }

  function LivePageviews(q: Request, rows: seq<LiveRow>, at: int -> bool): nat {
    if rows == [] then 0
    else
      var r := rows[0];
      (if Counted(q, r) && at(r.bucketStart) && r.eventType == "page_view" then r.events else 0)
        + LivePageviews(q, rows[1..], at)
  }

  function LiveBillable(q: Request, rows: seq<LiveRow>): nat {
    if rows == [] then 0 else (if Counted(q, rows[0]) then rows[0].billable else 0) + LiveBillable(q, rows[1..])
  }

  /** Whoever has a page view among the rows. */
  function People(q: Request, rows: seq<LiveRow>, at: int -> bool): set<string> {
    set i, v | 0 <= i < |rows| && v in rows[i].visitors && Counted(q, rows[i]) && at(rows[i].bucketStart)
      && rows[i].eventType == "page_view" :: v
  }

  function DayPageviews(q: Request, days: seq<ImportedRow>, at: int -> bool): nat {
    if days == [] then 0
    else (if DayCounted(q, days[0]) && at(days[0].date) then days[0].pageviews else 0) + DayPageviews(q, days[1..], at)
  }

  function DayVisitors(q: Request, days: seq<ImportedRow>, at: int -> bool): nat {
    if days == [] then 0
    else (if DayCounted(q, days[0]) && at(days[0].date) then days[0].visitors else 0) + DayVisitors(q, days[1..], at)
  }

  function Anywhere(): int -> bool { t => true }

  function InBucket(place: int -> int, b: int): int -> bool { t => place(t) == b }

  // ----- one bucket -----

  lemma {:induction false} LiveAtCounts(q: Request, rows: seq<LiveRow>, place: int -> int, b: int)
    ensures
      var m := LiveAt(Live(q, rows), place, b);
      m.events == LiveEvents(q, rows, InBucket(place, b)) && m.pageviews == LivePageviews(q, rows, InBucket(place, b))
  {
    if rows != [] {
      LiveAtCounts(q, rows[1..], place, b);
      var rest := Live(q, rows[1..]);
      if Counted(q, rows[0]) {
        var all := [rows[0]] + rest;
        assert all[1..] == rest;
        AtCons(LivePoints(all, place)[0], LivePoints(rest, place), b);
      }
    }
  }

  lemma {:induction false} VisitorsAre(rows: seq<LiveRow>, v: string)
    ensures v in Visitors(rows) <==> exists i :: 0 <= i < |rows| && rows[i].eventType == "page_view" && v in rows[i].visitors
  {
    if rows != [] {
      VisitorsAre(rows[1..], v);
      assert rows == [rows[0]] + rows[1..];
    }
  }

  lemma {:induction false} PeopleAt(q: Request, rows: seq<LiveRow>, place: int -> int, b: int)
    ensures Visitors(RowsAt(Live(q, rows), place, b)) == People(q, rows, InBucket(place, b))
  {
    if rows != [] {
      var r, rest := rows[0], rows[1..];
      PeopleAt(q, rest, place, b);
      PeopleCons(q, rows, InBucket(place, b));
      if Counted(q, r) {
        var all := [r] + Live(q, rest);
        assert all[1..] == Live(q, rest);
        if place(r.bucketStart) == b { VisitorsCons(r, RowsAt(Live(q, rest), place, b)); }
      }
    }
  }

  lemma PeopleCons(q: Request, rows: seq<LiveRow>, at: int -> bool)
    requires rows != []
    ensures
      var r := rows[0];
      People(q, rows, at) == People(q, rows[1..], at)
        + (if Counted(q, r) && at(r.bucketStart) && r.eventType == "page_view" then r.visitors else {})
  {
    assert rows == [rows[0]] + rows[1..];
  }

  lemma {:induction false} DaysAt(q: Request, days: seq<ImportedRow>, place: int -> int, b: int)
    ensures
      var m := ImportedAt(Imported(q, days), place, b);
      && m.events == m.pageviews == DayPageviews(q, days, InBucket(place, b))
      && m.visitors == DayVisitors(q, days, InBucket(place, b))
  {
    if days != [] {
      DaysAt(q, days[1..], place, b);
      var rest := Imported(q, days[1..]);
      if DayCounted(q, days[0]) {
        var all := [days[0]] + rest;
        assert all[1..] == rest;
        AtCons(ImportedPoints(all, place)[0], ImportedPoints(rest, place), b);
      }
    }
  }

  /** Each point of a chart: the sums of its bucket's rows and days, and its distinct people. */
  lemma {:induction false} ChartPointIs(
    q: Request, place: Bucketing, live: seq<LiveRow>, imported: seq<ImportedRow>, i: nat)
    requires i < |Chart(q, place, live, imported)|
    ensures
      var p := Chart(q, place, live, imported)[i];
      var l, d := InBucket(place.live, p.bucket), InBucket(place.imported, p.bucket);
      && p.m.events == LiveEvents(q, live, l) + DayPageviews(q, imported, d)
      && p.m.pageviews == LivePageviews(q, live, l) + DayPageviews(q, imported, d)
      && p.m.visitors == |People(q, live, l)| + DayVisitors(q, imported, d)
  {
    var b := Chart(q, place, live, imported)[i].bucket;
    PointIs(q, place, live, imported, i);
    LiveAtCounts(q, live, place.live, b);
    PeopleAt(q, live, place.live, b);
    DaysAt(q, imported, place.imported, b);
  }

  // ----- which buckets -----

  lemma {:induction false} KeysOccur(ps: seq<Point>, b: int)
    ensures b in Keys(ps) <==> exists i :: 0 <= i < |ps| && ps[i].bucket == b
  {
    if ps != [] {
      KeysOccur(ps[1..], b);
      KeysAre(ps[1..]);
      InsertKeyIs(ps[0].bucket, Keys(ps[1..]));
      assert ps == [ps[0]] + ps[1..];
    }
  }

  predicate Shows(ps: seq<Point>, b: int) { exists i :: 0 <= i < |ps| && ps[i].bucket == b }

  lemma GroupedShows(ps: seq<Point>, b: int)
    ensures Shows(Grouped(ps), b) <==> Shows(ps, b)
  {
    KeysOccur(ps, b);
    PointsForLength(Keys(ps), ps);
    forall i | 0 <= i < |Keys(ps)| ensures Grouped(ps)[i].bucket == Keys(ps)[i] { PointsForAt(Keys(ps), ps, i); }
    if b in Keys(ps) {
      var i :| 0 <= i < |Keys(ps)| && Keys(ps)[i] == b;
      assert Grouped(ps)[i].bucket == b;
    }
  }

  lemma {:induction false} CountedShows(ps: seq<Point>, rows: seq<LiveRow>, place: int -> int, b: int)
    ensures Shows(CountVisitors(ps, rows, place), b) <==> Shows(ps, b)
  {
    if ps != [] {
      CountedShows(ps[1..], rows, place, b);
      ShowsCons(ps, b);
      ShowsCons(CountVisitors(ps, rows, place), b);
    }
  }

  lemma ShowsCons(ps: seq<Point>, b: int)
    requires ps != []
    ensures Shows(ps, b) <==> ps[0].bucket == b || Shows(ps[1..], b)
  {
    assert ps == [ps[0]] + ps[1..];
    if ps[0].bucket == b { assert ps[0].bucket == b; }
  }

  predicate LiveIn(q: Request, rows: seq<LiveRow>, at: int -> bool) {
    exists i :: 0 <= i < |rows| && Counted(q, rows[i]) && at(rows[i].bucketStart)
  }

  predicate DayIn(q: Request, days: seq<ImportedRow>, at: int -> bool) {
    exists i :: 0 <= i < |days| && DayCounted(q, days[i]) && at(days[i].date)
  }

  lemma {:induction false} LiveShows(q: Request, rows: seq<LiveRow>, place: int -> int, b: int)
    ensures Shows(LivePoints(Live(q, rows), place), b) <==> LiveIn(q, rows, InBucket(place, b))
  {
    if rows != [] {
      LiveShows(q, rows[1..], place, b);
      assert rows == [rows[0]] + rows[1..];
      if Counted(q, rows[0]) {
        var all := [rows[0]] + Live(q, rows[1..]);
        assert all[1..] == Live(q, rows[1..]);
        ShowsCons(LivePoints(all, place), b);
      }
    }
  }

  lemma {:induction false} DayShows(q: Request, days: seq<ImportedRow>, place: int -> int, b: int)
    ensures Shows(ImportedPoints(Imported(q, days), place), b) <==> DayIn(q, days, InBucket(place, b))
  {
    if days != [] {
      DayShows(q, days[1..], place, b);
      assert days == [days[0]] + days[1..];
      if DayCounted(q, days[0]) {
        var all := [days[0]] + Imported(q, days[1..]);
        assert all[1..] == Imported(q, days[1..]);
        ShowsCons(ImportedPoints(all, place), b);
      }
    }
  }

  lemma ShowsAppend(a: seq<Point>, c: seq<Point>, b: int)
    ensures Shows(a + c, b) <==> Shows(a, b) || Shows(c, b)
  {
    if Shows(a, b) {
      var i :| 0 <= i < |a| && a[i].bucket == b;
      assert (a + c)[i].bucket == b;
    }
    if Shows(c, b) {
      var i :| 0 <= i < |c| && c[i].bucket == b;
      assert (a + c)[|a| + i].bucket == b;
    }
  }

  /** A chart's points ascend, one for each bucket that holds a counted row or day. */
  lemma {:induction false} ChartBucketsAre(
    q: Request, place: Bucketing, live: seq<LiveRow>, imported: seq<ImportedRow>, b: int)
    ensures
      var chart := Chart(q, place, live, imported);
      && (forall i, j :: 0 <= i < j < |chart| ==> chart[i].bucket < chart[j].bucket)
      && ((exists i :: 0 <= i < |chart| && chart[i].bucket == b) <==>
            LiveIn(q, live, InBucket(place.live, b)) || DayIn(q, imported, InBucket(place.imported, b)))
  {
    var points, days := LivePoints(Live(q, live), place.live), ImportedPoints(Imported(q, imported), place.imported);
    var branch := LiveBranch(Live(q, live), place.live);
    var all := branch + Grouped(days);
    ChartAscends(all);
    GroupedShows(all, b);
    ShowsAppend(branch, Grouped(days), b);
    CountedShows(Grouped(points), Live(q, live), place.live, b);
    GroupedShows(points, b);
    GroupedShows(days, b);
    LiveShows(q, live, place.live, b);
    DayShows(q, imported, place.imported, b);
    assert Shows(Chart(q, place, live, imported), b) <==> Shows(all, b);
  }

  lemma ChartAscends(ps: seq<Point>)
    ensures forall i, j :: 0 <= i < j < |Grouped(ps)| ==> Grouped(ps)[i].bucket < Grouped(ps)[j].bucket
  {
    KeysAre(ps);
    PointsForLength(Keys(ps), ps);
    forall i | 0 <= i < |Keys(ps)| ensures Grouped(ps)[i].bucket == Keys(ps)[i] { PointsForAt(Keys(ps), ps, i); }
  }

  // ----- totals -----

  lemma {:induction false} FlatCounts(q: Request, rows: seq<LiveRow>)
    ensures
      var m := Sum(LivePoints(Live(q, rows), Unplaced));
      && m.events == LiveEvents(q, rows, Anywhere()) && m.pageviews == LivePageviews(q, rows, Anywhere())
      && Billable(Live(q, rows)) == LiveBillable(q, rows)
  {
    if rows != [] {
      FlatCounts(q, rows[1..]);
      if Counted(q, rows[0]) {
        var all := [rows[0]] + Live(q, rows[1..]);
        assert all[1..] == Live(q, rows[1..]);
      }
    }
  }

  lemma {:induction false} FlatPeople(q: Request, rows: seq<LiveRow>)
    ensures Visitors(Live(q, rows)) == People(q, rows, Anywhere())
  {
    if rows != [] {
      FlatPeople(q, rows[1..]);
      PeopleCons(q, rows, Anywhere());
      if Counted(q, rows[0]) { VisitorsCons(rows[0], Live(q, rows[1..])); }
    }
  }

  lemma {:induction false} FlatDays(q: Request, days: seq<ImportedRow>)
    ensures
      var m := Sum(ImportedPoints(Imported(q, days), Unplaced));
      && m.events == m.pageviews == DayPageviews(q, days, Anywhere()) && m.visitors == DayVisitors(q, days, Anywhere())
  {
    if days != [] {
      FlatDays(q, days[1..]);
      if DayCounted(q, days[0]) {
        var all := [days[0]] + Imported(q, days[1..]);
        assert all[1..] == Imported(q, days[1..]);
      }
    }
  }

  lemma OverviewEvents(q: Request, live: seq<LiveRow>, imported: seq<ImportedRow>)
    ensures OverviewOf(q, live, imported).m.events
      == Sum(LivePoints(Live(q, live), Unplaced)).events + Sum(ImportedPoints(Imported(q, imported), Unplaced)).events
  {
  }

  lemma OverviewPageviews(q: Request, live: seq<LiveRow>, imported: seq<ImportedRow>)
    ensures OverviewOf(q, live, imported).m.pageviews
      == Sum(LivePoints(Live(q, live), Unplaced)).pageviews + Sum(ImportedPoints(Imported(q, imported), Unplaced)).pageviews
  {
  }

  lemma OverviewVisitors(q: Request, live: seq<LiveRow>, imported: seq<ImportedRow>)
    ensures OverviewOf(q, live, imported).m.visitors
      == |Visitors(Live(q, live))| + Sum(ImportedPoints(Imported(q, imported), Unplaced)).visitors
  {
  }

  lemma OverviewBillable(q: Request, live: seq<LiveRow>, imported: seq<ImportedRow>)
    ensures OverviewOf(q, live, imported).billable == Billable(Live(q, live))
  {
  }

  /** The overview: the sums of all counted rows and days, the distinct people, and nothing billable imported. */
  lemma {:induction false} OverviewIs(q: Request, live: seq<LiveRow>, imported: seq<ImportedRow>)
    ensures
      var o := OverviewOf(q, live, imported);
      && o.m.events == LiveEvents(q, live, Anywhere()) + DayPageviews(q, imported, Anywhere())
      && o.m.pageviews == LivePageviews(q, live, Anywhere()) + DayPageviews(q, imported, Anywhere())
      && o.m.visitors == |People(q, live, Anywhere())| + DayVisitors(q, imported, Anywhere())
      && o.billable == LiveBillable(q, live)
  {
    OverviewEvents(q, live, imported);
    OverviewPageviews(q, live, imported);
    OverviewVisitors(q, live, imported);
    OverviewBillable(q, live, imported);
    FlatCounts(q, live);
    FlatPeople(q, live);
    FlatDays(q, imported);
  }

  // ----- one row more -----

  lemma {:induction false} LiveAppend(q: Request, a: seq<LiveRow>, b: seq<LiveRow>)
    ensures Live(q, a + b) == Live(q, a) + Live(q, b)
  {
    if a == [] {
      assert a + b == b;
    } else {
      assert (a + b)[1..] == a[1..] + b;
      LiveAppend(q, a[1..], b);
    }
  }

  lemma {:induction false} ImportedAppend(q: Request, a: seq<ImportedRow>, b: seq<ImportedRow>)
    ensures Imported(q, a + b) == Imported(q, a) + Imported(q, b)
  {
    if a == [] {
      assert a + b == b;
    } else {
      assert (a + b)[1..] == a[1..] + b;
      ImportedAppend(q, a[1..], b);
    }
  }

  lemma OutsideRow(q: Request, a: seq<LiveRow>, r: LiveRow, b: seq<LiveRow>)
    requires !Counted(q, r)
    ensures Live(q, a + [r] + b) == Live(q, a + b)
  {
    LiveAppend(q, a + [r], b);
    LiveAppend(q, a, [r]);
    LiveAppend(q, a, b);
    assert Live(q, [r]) == [];
  }

  lemma OutsideDay(q: Request, a: seq<ImportedRow>, day: ImportedRow, b: seq<ImportedRow>)
    requires !DayCounted(q, day)
    ensures Imported(q, a + [day] + b) == Imported(q, a + b)
  {
    ImportedAppend(q, a + [day], b);
    ImportedAppend(q, a, [day]);
    ImportedAppend(q, a, b);
    assert Imported(q, [day]) == [];
  }

  /** A row that is not counted changes no chart and no overview, wherever it stands. */
  lemma {:induction false} OtherRowsChangeNothing(
    q: Request, place: Bucketing, a: seq<LiveRow>, r: LiveRow, b: seq<LiveRow>, imported: seq<ImportedRow>)
    requires !Counted(q, r)
    ensures Chart(q, place, a + [r] + b, imported) == Chart(q, place, a + b, imported)
    ensures OverviewOf(q, a + [r] + b, imported) == OverviewOf(q, a + b, imported)
  {
    OutsideRow(q, a, r, b);
  }

  /** Nor does a provider day that is not counted. */
  lemma {:induction false} OtherDaysChangeNothing(
    q: Request, place: Bucketing, live: seq<LiveRow>, a: seq<ImportedRow>, day: ImportedRow, b: seq<ImportedRow>)
    requires !DayCounted(q, day)
    ensures Chart(q, place, live, a + [day] + b) == Chart(q, place, live, a + b)
    ensures OverviewOf(q, live, a + [day] + b) == OverviewOf(q, live, a + b)
  {
    OutsideDay(q, a, day, b);
  }

  lemma {:induction false} SumsAppend(q: Request, a: seq<LiveRow>, b: seq<LiveRow>, at: int -> bool)
    ensures LiveEvents(q, a + b, at) == LiveEvents(q, a, at) + LiveEvents(q, b, at)
    ensures LivePageviews(q, a + b, at) == LivePageviews(q, a, at) + LivePageviews(q, b, at)
    ensures LiveBillable(q, a + b) == LiveBillable(q, a) + LiveBillable(q, b)
  {
    if a == [] {
      assert a + b == b;
    } else {
      assert (a + b)[1..] == a[1..] + b;
      SumsAppend(q, a[1..], b, at);
    }
  }

  lemma RowInserted(q: Request, a: seq<LiveRow>, r: LiveRow, b: seq<LiveRow>, at: int -> bool)
    requires Counted(q, r) && at(r.bucketStart)
    ensures LiveEvents(q, a + [r] + b, at) == LiveEvents(q, a + b, at) + r.events
    ensures LivePageviews(q, a + [r] + b, at)
      == LivePageviews(q, a + b, at) + if r.eventType == "page_view" then r.events else 0
    ensures LiveBillable(q, a + [r] + b) == LiveBillable(q, a + b) + r.billable
  {
    SumsAppend(q, a, b, at);
    SumsAppend(q, a + [r], b, at);
    SumsAppend(q, a, [r], at);
  }

  /** A counted row adds its events, its billable events and, if they are page views, as many page views. */
  lemma {:induction false} RowAddsItself(
    q: Request, a: seq<LiveRow>, r: LiveRow, b: seq<LiveRow>, imported: seq<ImportedRow>)
    requires Counted(q, r)
    ensures
      var before, after := OverviewOf(q, a + b, imported), OverviewOf(q, a + [r] + b, imported);
      && after.m.events == before.m.events + r.events && after.billable == before.billable + r.billable
      && after.m.pageviews == before.m.pageviews + if r.eventType == "page_view" then r.events else 0
  {
    var rows := a + [r] + b;
    RowInserted(q, a, r, b, Anywhere());
    OverviewIs(q, a + b, imported);
    OverviewIs(q, rows, imported);
  }

  lemma {:induction false} DaysAppend(q: Request, a: seq<ImportedRow>, b: seq<ImportedRow>, at: int -> bool)
    ensures DayPageviews(q, a + b, at) == DayPageviews(q, a, at) + DayPageviews(q, b, at)
    ensures DayVisitors(q, a + b, at) == DayVisitors(q, a, at) + DayVisitors(q, b, at)
  {
    if a == [] {
      assert a + b == b;
    } else {
      assert (a + b)[1..] == a[1..] + b;
      DaysAppend(q, a[1..], b, at);
    }
  }

  /** A counted provider day adds its page views, to events too, and its visitors; nothing of it is billable. */
  lemma {:induction false} DayAddsItself(
    q: Request, live: seq<LiveRow>, a: seq<ImportedRow>, day: ImportedRow, b: seq<ImportedRow>)
    requires DayCounted(q, day)
    ensures
      var before, after := OverviewOf(q, live, a + b), OverviewOf(q, live, a + [day] + b);
      && after.m.events == before.m.events + day.pageviews && after.m.pageviews == before.m.pageviews + day.pageviews
      && after.m.visitors == before.m.visitors + day.visitors && after.billable == before.billable
  {
    DaysAppend(q, a, b, Anywhere());
    DaysAppend(q, a + [day], b, Anywhere());
    DaysAppend(q, a, [day], Anywhere());
    OverviewIs(q, live, a + b);
    OverviewIs(q, live, a + [day] + b);
  }
}
