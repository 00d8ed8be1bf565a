/**
 Charts and range totals over the rollup tables (apps/query-gateway/src/operations.ts, `defineTimeseries`
 and `defineOverview`): what the statements mean over finite lists of rows.  Time zones are abstract.
 */
module Rollups {
  import opened Sets

  /** One stored rollup row; merging visitor states is taken as exact set union. */
  datatype LiveRow = LiveRow(
    site: nat, bucketStart: int, eventType: string, events: nat, billable: nat, visitors: set<string>)

  /** One provider day of an import. */
  datatype ImportedRow = ImportedRow(site: nat, run: nat, date: int, pageviews: nat, visitors: nat)

  /** Calendar dates are day numbers; a zone gives a date's first instant and an instant's date. */
  datatype Zone = Zone(dayStart: int -> int, dayOf: int -> int)

  function Start(z: Zone, date: int): int { z.dayStart(date) }

  function DateOf(z: Zone, t: int): int { z.dayOf(t) }

  ghost predicate Proper(z: Zone) {
    && (forall d, e :: d < e ==> Start(z, d) < Start(z, e))
    && forall t :: Start(z, DateOf(z, t)) <= t < Start(z, DateOf(z, t) + 1)
  }

  datatype Request = Request(site: nat, from: int, until: int, run: nat, cutover: int, zone: Zone)

  datatype Measures = Measures(events: nat, pageviews: nat, visitors: nat) {
    function Plus(m: Measures): Measures {
      Measures(events + m.events, pageviews + m.pageviews, visitors + m.visitors)
    }
  }

  /** Imported data is never billable. */
  const IMPORTED_BILLABLE: nat := 0

  const ZERO := Measures(0, 0, 0)

  datatype Point = Point(bucket: int, m: Measures)

  datatype Overview = Overview(m: Measures, billable: nat)

  /** Where a chart puts an instant and a provider day. */
  datatype Bucketing = Bucketing(live: int -> int, imported: int -> int)

  function Monday(date: int): int { date - (date + 3) % 7 }

  function DayBuckets(z: Zone): Bucketing {
    Bucketing(t => Start(z, DateOf(z, t)), d => Start(z, d))
  }

  function WeekBuckets(z: Zone): Bucketing {
    Bucketing(t => Start(z, Monday(DateOf(z, t))), d => Start(z, Monday(d)))
  }

  // ----- filters -----

  predicate LiveMatches(q: Request, r: LiveRow) {
    r.site == q.site && q.from <= r.bucketStart < q.until && r.bucketStart >= Start(q.zone, q.cutover)
  }

  predicate ImportedMatches(q: Request, r: ImportedRow) {
    r.site == q.site && r.run == q.run && r.date < q.cutover && q.from <= Start(q.zone, r.date) < q.until
  }

  function Live(q: Request, rows: seq<LiveRow>): seq<LiveRow> {
    if rows == [] then []
    else if LiveMatches(q, rows[0]) then [rows[0]] + Live(q, rows[1..])
    else Live(q, rows[1..])
  }

  function Imported(q: Request, rows: seq<ImportedRow>): seq<ImportedRow> {
    if rows == [] then []
    else if ImportedMatches(q, rows[0]) then [rows[0]] + Imported(q, rows[1..])
    else Imported(q, rows[1..])
  }

  // ----- grouping -----

  function Sum(ps: seq<Point>): Measures {
    if ps == [] then ZERO else ps[0].m.Plus(Sum(ps[1..]))
  }

  function AtBucket(ps: seq<Point>, b: int): seq<Point> {
    if ps == [] then []
    else if ps[0].bucket == b then [ps[0]] + AtBucket(ps[1..], b)
    else AtBucket(ps[1..], b)
  }

  function InsertKey(b: int, keys: seq<int>): seq<int> {
    if keys == [] || b < keys[0] then [b] + keys
    else if b == keys[0] then keys
    else [keys[0]] + InsertKey(b, keys[1..])
  }

  /** The buckets that occur, ascending. */
  function Keys(ps: seq<Point>): seq<int> {
    if ps == [] then [] else InsertKey(ps[0].bucket, Keys(ps[1..]))
  }

  function PointsFor(keys: seq<int>, ps: seq<Point>): seq<Point> {
    if keys == [] then [] else [Point(keys[0], Sum(AtBucket(ps, keys[0])))] + PointsFor(keys[1..], ps)
  }

  /** `SELECT bucket, sum(...) GROUP BY bucket ORDER BY bucket`. */
  function Grouped(ps: seq<Point>): seq<Point> { PointsFor(Keys(ps), ps) }

  // ----- the statements -----

  function PageviewsOf(r: LiveRow): nat { if r.eventType == "page_view" then r.events else 0 }

  function LivePoints(rows: seq<LiveRow>, place: int -> int): seq<Point> {
    if rows == [] then []
    else
      [Point(place(rows[0].bucketStart), Measures(rows[0].events, PageviewsOf(rows[0]), 0))]
        + LivePoints(rows[1..], place)
  }

  /** Distinct visitors with a page view among the rows. */
  function Visitors(rows: seq<LiveRow>): set<string> {
    if rows == [] then {}
    else (if rows[0].eventType == "page_view" then rows[0].visitors else {}) + Visitors(rows[1..])
  }

  function RowsAt(rows: seq<LiveRow>, place: int -> int, b: int): seq<LiveRow> {
    if rows == [] then []
    else if place(rows[0].bucketStart) == b then [rows[0]] + RowsAt(rows[1..], place, b)
    else RowsAt(rows[1..], place, b)
  }

  function CountVisitors(ps: seq<Point>, rows: seq<LiveRow>, place: int -> int): seq<Point> {
    if ps == [] then []
    else
      [ps[0].(m := ps[0].m.(visitors := |Visitors(RowsAt(rows, place, ps[0].bucket))|))]
        + CountVisitors(ps[1..], rows, place)
  }

  function LiveBranch(rows: seq<LiveRow>, place: int -> int): seq<Point> {
    CountVisitors(Grouped(LivePoints(rows, place)), rows, place)
  }

  function ImportedPoints(rows: seq<ImportedRow>, place: int -> int): seq<Point> {
    if rows == [] then []
    else
      var r := rows[0];
      [Point(place(r.date), Measures(r.pageviews, r.pageviews, r.visitors))] + ImportedPoints(rows[1..], place)
  }

  function Chart(q: Request, place: Bucketing, live: seq<LiveRow>, imported: seq<ImportedRow>): seq<Point> {
    Grouped(LiveBranch(Live(q, live), place.live) + Grouped(ImportedPoints(Imported(q, imported), place.imported)))
  }

  function Billable(rows: seq<LiveRow>): nat {
    if rows == [] then 0 else rows[0].billable + Billable(rows[1..])
  }

  /** A total has no buckets. */
  function Unplaced(t: int): int { 0 }

  function OverviewOf(q: Request, live: seq<LiveRow>, imported: seq<ImportedRow>): Overview {
    var rows := Live(q, live);
    var l := Sum(LivePoints(rows, Unplaced)).(visitors := |Visitors(rows)|);
    Overview(l.Plus(Sum(ImportedPoints(Imported(q, imported), Unplaced))), Billable(rows) + IMPORTED_BILLABLE)
  }

  // ----- sums survive grouping -----

  lemma SumCons(p: Point, ps: seq<Point>)
    ensures Sum([p] + ps) == p.m.Plus(Sum(ps))
  {
    assert ([p] + ps)[1..] == ps;
  }

  lemma AtCons(p: Point, ps: seq<Point>, b: int)
    ensures AtBucket([p] + ps, b) == if p.bucket == b then [p] + AtBucket(ps, b) else AtBucket(ps, b)
    ensures Sum(AtBucket([p] + ps, b)) == if p.bucket == b then p.m.Plus(Sum(AtBucket(ps, b))) else Sum(AtBucket(ps, b))
  {
    assert ([p] + ps)[1..] == ps;
    SumCons(p, AtBucket(ps, b));
  }

  predicate Ascending(keys: seq<int>) { forall i, j :: 0 <= i < j < |keys| ==> keys[i] < keys[j] }

  predicate Covers(keys: seq<int>, ps: seq<Point>) { forall i :: 0 <= i < |ps| ==> ps[i].bucket in keys }

  lemma {:induction false} InsertKeyIs(b: int, keys: seq<int>)
    requires Ascending(keys)
    ensures Ascending(InsertKey(b, keys))
    ensures forall k :: k in InsertKey(b, keys) <==> k == b || k in keys
  {
    if keys != [] && b > keys[0] {
      assert keys == [keys[0]] + keys[1..];
      InsertKeyIs(b, keys[1..]);
      var r := InsertKey(b, keys[1..]);
      forall j | 0 <= j < |r| ensures keys[0] < r[j] { assert r[j] in r; }
    }
  }

  lemma {:induction false} KeysAre(ps: seq<Point>)
    ensures Ascending(Keys(ps)) && Covers(Keys(ps), ps)
  {
    if ps != [] {
      KeysAre(ps[1..]);
      InsertKeyIs(ps[0].bucket, Keys(ps[1..]));
      forall i | 0 <= i < |ps| ensures ps[i].bucket in Keys(ps) {
        if i > 0 { assert ps[1..][i-1] == ps[i]; }
      }
    }
  }

  /** One more point adds to its own group and to no other. */
  lemma {:induction false} OneMore(keys: seq<int>, p: Point, ps: seq<Point>)
    requires Ascending(keys)
    ensures
      var before, after := Sum(PointsFor(keys, ps)), Sum(PointsFor(keys, [p] + ps));
      after == if p.bucket in keys then p.m.Plus(before) else before
  {
    if keys != [] {
      OneMore(keys[1..], p, ps);
      AtCons(p, ps, keys[0]);
      SumCons(Point(keys[0], Sum(AtBucket(ps, keys[0]))), PointsFor(keys[1..], ps));
      SumCons(Point(keys[0], Sum(AtBucket([p] + ps, keys[0]))), PointsFor(keys[1..], [p] + ps));
      assert keys == [keys[0]] + keys[1..];
    }
  }

  lemma {:induction false} PartitionSums(keys: seq<int>, ps: seq<Point>)
    requires Ascending(keys) && Covers(keys, ps)
    ensures Sum(PointsFor(keys, ps)) == Sum(ps)
  {
    if ps == [] {
      EmptyGroups(keys);
    } else {
      assert ps == [ps[0]] + ps[1..];
      assert Covers(keys, ps[1..]) by { assert forall i :: 0 <= i < |ps[1..]| ==> ps[1..][i] == ps[i+1]; }
      PartitionSums(keys, ps[1..]);
      OneMore(keys, ps[0], ps[1..]);
    }
  }

  lemma {:induction false} EmptyGroups(keys: seq<int>)
    ensures Sum(PointsFor(keys, [])) == ZERO
  {
    if keys != [] {
      EmptyGroups(keys[1..]);
      var none: seq<Point> := [];
      assert AtBucket(none, keys[0]) == none && Sum(none) == ZERO;
      SumCons(Point(keys[0], Sum(none)), PointsFor(keys[1..], none));
    }
  }

  /** Grouping moves no count in or out. */
  lemma GroupedSum(ps: seq<Point>)
    ensures Sum(Grouped(ps)) == Sum(ps)
  {
    KeysAre(ps);
    PartitionSums(Keys(ps), ps);
  }

  lemma {:induction false} SumAppend(a: seq<Point>, b: seq<Point>)
    ensures Sum(a + b) == Sum(a).Plus(Sum(b))
  {
    if a == [] {
      assert a + b == b;
    } else {
      assert a + b == [a[0]] + (a[1..] + b) && a == [a[0]] + a[1..];
      SumAppend(a[1..], b);
      SumCons(a[0], a[1..] + b);
    }
  }

  lemma {:induction false} CountsKept(ps: seq<Point>, rows: seq<LiveRow>, place: int -> int)
    ensures
      var c := CountVisitors(ps, rows, place);
      Sum(c).events == Sum(ps).events && Sum(c).pageviews == Sum(ps).pageviews
  {
    if ps != [] { CountsKept(ps[1..], rows, place); }
  }

  lemma {:induction false} LiveSumIgnoresBuckets(rows: seq<LiveRow>, place: int -> int, place': int -> int)
    ensures Sum(LivePoints(rows, place)) == Sum(LivePoints(rows, place'))
  {
    if rows != [] { LiveSumIgnoresBuckets(rows[1..], place, place'); }
  }

  lemma {:induction false} ImportedSumIgnoresBuckets(rows: seq<ImportedRow>, place: int -> int, place': int -> int)
    ensures Sum(ImportedPoints(rows, place)) == Sum(ImportedPoints(rows, place'))
  {
    if rows != [] { ImportedSumIgnoresBuckets(rows[1..], place, place'); }
  }

  // ----- visitors -----

  /** Visitors with a page view in some listed bucket. */
  function VisitorsUnder(keys: seq<int>, rows: seq<LiveRow>, place: int -> int): set<string> {
    if keys == [] then {} else Visitors(RowsAt(rows, place, keys[0])) + VisitorsUnder(keys[1..], rows, place)
  }

  lemma {:induction false} UnderBound(keys: seq<int>, ps: seq<Point>, rows: seq<LiveRow>, place: int -> int)
    ensures |VisitorsUnder(keys, rows, place)| <= Sum(CountVisitors(PointsFor(keys, ps), rows, place)).visitors
  {
    if keys != [] {
      UnderBound(keys[1..], ps, rows, place);
      UnionBound(Visitors(RowsAt(rows, place, keys[0])), VisitorsUnder(keys[1..], rows, place));
    }
  }

  lemma {:induction false} RowAtItsBucket(rows: seq<LiveRow>, i: nat, place: int -> int)
    requires i < |rows| && rows[i].eventType == "page_view"
    ensures rows[i].visitors <= Visitors(RowsAt(rows, place, place(rows[i].bucketStart)))
  {
    var b := place(rows[i].bucketStart);
    VisitorsCons(rows[0], RowsAt(rows[1..], place, b));
    if i > 0 {
      RowAtItsBucket(rows[1..], i - 1, place);
    }
  }

  lemma VisitorsCons(r: LiveRow, rows: seq<LiveRow>)
    ensures Visitors([r] + rows) == (if r.eventType == "page_view" then r.visitors else {}) + Visitors(rows)
  {
    assert ([r] + rows)[1..] == rows;
  }

  lemma {:induction false} KeyUnder(keys: seq<int>, b: int, rows: seq<LiveRow>, place: int -> int)
    requires b in keys
    ensures Visitors(RowsAt(rows, place, b)) <= VisitorsUnder(keys, rows, place)
  {
    if b != keys[0] { KeyUnder(keys[1..], b, rows, place); }
  }

  lemma {:induction false} VisitorFrom(rows: seq<LiveRow>, v: string) returns (i: nat)
    requires v in Visitors(rows)
    ensures i < |rows| && rows[i].eventType == "page_view" && v in rows[i].visitors
  {
    if rows[0].eventType == "page_view" && v in rows[0].visitors {
      i := 0;
    } else {
      i := VisitorFrom(rows[1..], v);
      i := i + 1;
    }
  }

  lemma {:induction false} LivePointAt(rows: seq<LiveRow>, place: int -> int, i: nat)
    requires i < |rows|
    ensures |LivePoints(rows, place)| == |rows| && LivePoints(rows, place)[i].bucket == place(rows[i].bucketStart)
  {
    if |rows| > 1 { LivePointAt(rows[1..], place, if i > 0 then i - 1 else 0); }
  }

  lemma AllUnderKeys(rows: seq<LiveRow>, place: int -> int)
    ensures Visitors(rows) <= VisitorsUnder(Keys(LivePoints(rows, place)), rows, place)
  {
    var ps := LivePoints(rows, place);
    KeysAre(ps);
    forall v | v in Visitors(rows) ensures v in VisitorsUnder(Keys(ps), rows, place) {
      var i := VisitorFrom(rows, v);
      LivePointAt(rows, place, i);
      RowAtItsBucket(rows, i, place);
      KeyUnder(Keys(ps), ps[i].bucket, rows, place);
    }
  }

  /** Distinct people of the whole range are at most the buckets' people added up. */
  lemma LiveVisitorsAtMost(rows: seq<LiveRow>, place: int -> int)
    ensures |Visitors(rows)| <= Sum(LiveBranch(rows, place)).visitors
  {
    var keys := Keys(LivePoints(rows, place));
    AllUnderKeys(rows, place);
    SmallerSet(Visitors(rows), VisitorsUnder(keys, rows, place));
    UnderBound(keys, LivePoints(rows, place), rows, place);
  }

  lemma {:induction false} RowsAtFewer(rows: seq<LiveRow>, place: int -> int, b: int)
    ensures Visitors(RowsAt(rows, place, b)) <= Visitors(rows)
  {
    if rows != [] {
      RowsAtFewer(rows[1..], place, b);
      VisitorsCons(rows[0], RowsAt(rows[1..], place, b));
    }
  }

  // ----- single points -----

  lemma {:induction false} AtAppend(a: seq<Point>, c: seq<Point>, b: int)
    ensures AtBucket(a + c, b) == AtBucket(a, b) + AtBucket(c, b)
  {
    if a == [] {
      assert a + c == c;
    } else {
      assert (a + c)[1..] == a[1..] + c;
      AtAppend(a[1..], c, b);
    }
  }

  lemma {:induction false} AtAbsent(keys: seq<int>, ps: seq<Point>, b: int)
    requires b !in keys
    ensures AtBucket(PointsFor(keys, ps), b) == []
  {
    if keys != [] { AtAbsent(keys[1..], ps, b); }
  }

  lemma {:induction false} NothingAt(ps: seq<Point>, b: int)
    requires forall i :: 0 <= i < |ps| ==> ps[i].bucket != b
    ensures AtBucket(ps, b) == []
  {
    if ps != [] { NothingAt(ps[1..], b); }
  }

  lemma {:induction false} GroupAt(keys: seq<int>, ps: seq<Point>, b: int)
    requires Ascending(keys) && b in keys
    ensures AtBucket(PointsFor(keys, ps), b) == [Point(b, Sum(AtBucket(ps, b)))]
  {
    if b == keys[0] {
      AtAbsent(keys[1..], ps, b);
    } else {
      GroupAt(keys[1..], ps, b);
    }
  }

  /** Grouping again at one bucket finds the sums that were there. */
  lemma GroupedAt(ps: seq<Point>, b: int)
    ensures Sum(AtBucket(Grouped(ps), b)) == Sum(AtBucket(ps, b))
  {
    KeysAre(ps);
    if b in Keys(ps) {
      GroupAt(Keys(ps), ps, b);
      assert AtBucket(Grouped(ps), b)[1..] == [];
    } else {
      AtAbsent(Keys(ps), ps, b);
      forall i | 0 <= i < |ps| ensures ps[i].bucket != b { assert ps[i].bucket in Keys(ps); }
      NothingAt(ps, b);
    }
  }

  lemma {:induction false} CountedAt(ps: seq<Point>, rows: seq<LiveRow>, place: int -> int, b: int)
    ensures AtBucket(CountVisitors(ps, rows, place), b) == CountVisitors(AtBucket(ps, b), rows, place)
  {
    if ps != [] {
      CountedAt(ps[1..], rows, place, b);
      var head := ps[0].(m := ps[0].m.(visitors := |Visitors(RowsAt(rows, place, ps[0].bucket))|));
      AtCons(head, CountVisitors(ps[1..], rows, place), b);
      if ps[0].bucket == b { assert ([ps[0]] + AtBucket(ps[1..], b))[1..] == AtBucket(ps[1..], b); }
    }
  }

  /** What the live rows of one bucket measure. */
  function LiveAt(rows: seq<LiveRow>, place: int -> int, b: int): Measures {
    Sum(AtBucket(LivePoints(rows, place), b)).(visitors := |Visitors(RowsAt(rows, place, b))|)
  }

  lemma {:induction false} NoRowsAt(rows: seq<LiveRow>, place: int -> int, b: int)
    requires AtBucket(LivePoints(rows, place), b) == []
    ensures RowsAt(rows, place, b) == []
  {
    if rows != [] { NoRowsAt(rows[1..], place, b); }
  }

  lemma LiveBranchAt(rows: seq<LiveRow>, place: int -> int, b: int)
    ensures Sum(AtBucket(LiveBranch(rows, place), b)) == LiveAt(rows, place, b)
  {
    var ps := LivePoints(rows, place);
    KeysAre(ps);
    CountedAt(Grouped(ps), rows, place, b);
    if b in Keys(ps) {
      GroupAt(Keys(ps), ps, b);
      var one := CountVisitors([Point(b, Sum(AtBucket(ps, b)))], rows, place);
      assert one == [Point(b, LiveAt(rows, place, b))];
    } else {
      AtAbsent(Keys(ps), ps, b);
      forall i | 0 <= i < |ps| ensures ps[i].bucket != b { assert ps[i].bucket in Keys(ps); }
      NothingAt(ps, b);
      NoRowsAt(rows, place, b);
    }
  }

  function ImportedAt(rows: seq<ImportedRow>, place: int -> int, b: int): Measures {
    Sum(AtBucket(ImportedPoints(rows, place), b))
  }

  lemma {:induction false} PointsForAt(keys: seq<int>, ps: seq<Point>, i: nat)
    requires i < |keys|
    ensures |PointsFor(keys, ps)| == |keys| && PointsFor(keys, ps)[i] == Point(keys[i], Sum(AtBucket(ps, keys[i])))
  {
    if |keys| > 1 { PointsForAt(keys[1..], ps, if i > 0 then i - 1 else 0); }
  }

  lemma {:induction false} PointsForLength(keys: seq<int>, ps: seq<Point>)
    ensures |PointsFor(keys, ps)| == |keys|
  {
    if keys != [] { PointsForLength(keys[1..], ps); }
  }

  /** A chart point is its bucket's live rows plus its bucket's provider days. */
  lemma {:induction false} PointIs(q: Request, place: Bucketing, live: seq<LiveRow>, imported: seq<ImportedRow>, i: nat)
    requires i < |Chart(q, place, live, imported)|
    ensures
      var p := Chart(q, place, live, imported)[i];
      p.m == LiveAt(Live(q, live), place.live, p.bucket).Plus(ImportedAt(Imported(q, imported), place.imported, p.bucket))
  {
    var rows, days := Live(q, live), ImportedPoints(Imported(q, imported), place.imported);
    var branch := LiveBranch(rows, place.live);
    var all := branch + Grouped(days);
    PointsForLength(Keys(all), all);
    PointsForAt(Keys(all), all, i);
    var b := Keys(all)[i];
    AtAppend(branch, Grouped(days), b);
    SumAppend(AtBucket(branch, b), AtBucket(Grouped(days), b));
    LiveBranchAt(rows, place.live, b);
    GroupedAt(days, b);
  }

  lemma {:induction false} ImportedAtMost(rows: seq<ImportedRow>, place: int -> int, b: int)
    ensures ImportedAt(rows, place, b).visitors <= Sum(ImportedPoints(rows, place)).visitors
  {
    if rows != [] {
      ImportedAtMost(rows[1..], place, b);
      AtCons(ImportedPoints(rows, place)[0], ImportedPoints(rows[1..], place), b);
    }
  }

  // ----- charts and totals -----

  lemma ChartCounts(q: Request, place: Bucketing, live: seq<LiveRow>, imported: seq<ImportedRow>)
    ensures
      var chart, overview := Chart(q, place, live, imported), OverviewOf(q, live, imported);
      && Sum(chart).events == overview.m.events
      && Sum(chart).pageviews == overview.m.pageviews
      && Sum(chart).visitors - Sum(LiveBranch(Live(q, live), place.live)).visitors
           == overview.m.visitors - |Visitors(Live(q, live))|
  {
    var rows := Live(q, live);
    ChartSum(q, place, live, imported);
    LiveCounts(rows, place.live);
    SameCounts(Sum(LiveBranch(rows, place.live)), Sum(LivePoints(rows, Unplaced)), |Visitors(rows)|,
               Sum(ImportedPoints(Imported(q, imported), Unplaced)));
  }

  lemma SameCounts(branch: Measures, flat: Measures, people: nat, days: Measures)
    requires branch.events == flat.events && branch.pageviews == flat.pageviews
    ensures
      var chart, overview := branch.Plus(days), flat.(visitors := people).Plus(days);
      && chart.events == overview.events && chart.pageviews == overview.pageviews
      && chart.visitors - branch.visitors == overview.visitors - people
  {
  }

  /** A chart adds up its live branch and the imported rows. */
  lemma ChartSum(q: Request, place: Bucketing, live: seq<LiveRow>, imported: seq<ImportedRow>)
    ensures Sum(Chart(q, place, live, imported))
      == Sum(LiveBranch(Live(q, live), place.live)).Plus(Sum(ImportedPoints(Imported(q, imported), Unplaced)))
  {
    var days := ImportedPoints(Imported(q, imported), place.imported);
    BranchesSum(LiveBranch(Live(q, live), place.live), days);
    ImportedSumIgnoresBuckets(Imported(q, imported), place.imported, Unplaced);
  }

  lemma BranchesSum(branch: seq<Point>, days: seq<Point>)
    ensures Sum(Grouped(branch + Grouped(days))) == Sum(branch).Plus(Sum(days))
  {
    GroupedSum(branch + Grouped(days));
    SumAppend(branch, Grouped(days));
    GroupedSum(days);
  }

  lemma LiveCounts(rows: seq<LiveRow>, place: int -> int)
    ensures Sum(LiveBranch(rows, place)).events == Sum(LivePoints(rows, Unplaced)).events
    ensures Sum(LiveBranch(rows, place)).pageviews == Sum(LivePoints(rows, Unplaced)).pageviews
  {
    CountsKept(Grouped(LivePoints(rows, place)), rows, place);
    GroupedSum(LivePoints(rows, place));
    LiveSumIgnoresBuckets(rows, place, Unplaced);
  }

  lemma PointVisitors(q: Request, place: Bucketing, live: seq<LiveRow>, imported: seq<ImportedRow>, i: nat)
    requires i < |Chart(q, place, live, imported)|
    ensures Chart(q, place, live, imported)[i].m.visitors <= OverviewOf(q, live, imported).m.visitors
  {
    PointIs(q, place, live, imported, i);
    var b := Chart(q, place, live, imported)[i].bucket;
    var rows := Live(q, live);
    RowsAtFewer(rows, place.live, b);
    SmallerSet(Visitors(RowsAt(rows, place.live, b)), Visitors(rows));
    ImportedAtMost(Imported(q, imported), place.imported, b);
    ImportedSumIgnoresBuckets(Imported(q, imported), place.imported, Unplaced);
  }

  /**
   Chart equals totals: whatever the buckets, a chart's events and pageviews add up to the overview of the
   same request over the same rows, and its visitors bracket the overview's.
   */
  lemma {:induction false} ChartEqualsTotals(q: Request, place: Bucketing, live: seq<LiveRow>, imported: seq<ImportedRow>)
    ensures
      var chart, overview := Chart(q, place, live, imported), OverviewOf(q, live, imported);
      && Sum(chart).events == overview.m.events
      && Sum(chart).pageviews == overview.m.pageviews
      && overview.m.visitors <= Sum(chart).visitors
      && forall i :: 0 <= i < |chart| ==> chart[i].m.visitors <= overview.m.visitors
  {
    ChartCounts(q, place, live, imported);
    LiveVisitorsAtMost(Live(q, live), place.live);
    forall i | 0 <= i < |Chart(q, place, live, imported)|
      ensures Chart(q, place, live, imported)[i].m.visitors <= OverviewOf(q, live, imported).m.visitors
    {
      PointVisitors(q, place, live, imported, i);
    }
  }

  /** Each stored state's visitors were seen by its own page views. */
  ghost predicate Seen(live: seq<LiveRow>, imported: seq<ImportedRow>) {
    && (forall i :: 0 <= i < |live| && live[i].eventType == "page_view" ==> |live[i].visitors| <= live[i].events)
    && forall i :: 0 <= i < |imported| ==> imported[i].visitors <= imported[i].pageviews
  }

  lemma {:induction false} LiveSeen(q: Request, live: seq<LiveRow>, place: int -> int, b: int)
    requires Seen(live, [])
    ensures LiveAt(Live(q, live), place, b).visitors <= LiveAt(Live(q, live), place, b).pageviews
  {
    if live != [] {
      var rest := live[1..];
      assert Seen(rest, []) by { assert forall i :: 0 <= i < |rest| ==> rest[i] == live[i+1]; }
      LiveSeen(q, rest, place, b);
      if LiveMatches(q, live[0]) { OneMoreRow(live[0], Live(q, rest), place, b); }
    }
  }

  lemma OneMoreRow(r: LiveRow, rows: seq<LiveRow>, place: int -> int, b: int)
    requires r.eventType == "page_view" ==> |r.visitors| <= r.events
    requires LiveAt(rows, place, b).visitors <= LiveAt(rows, place, b).pageviews
    ensures LiveAt([r] + rows, place, b).visitors <= LiveAt([r] + rows, place, b).pageviews
  {
    assert ([r] + rows)[1..] == rows;
    AtCons(LivePoints([r] + rows, place)[0], LivePoints(rows, place), b);
    VisitorsCons(r, RowsAt(rows, place, b));
    UnionBound(if r.eventType == "page_view" then r.visitors else {}, Visitors(RowsAt(rows, place, b)));
  }

  lemma {:induction false} ImportedSeen(q: Request, imported: seq<ImportedRow>, place: int -> int, b: int)
    requires Seen([], imported)
    ensures ImportedAt(Imported(q, imported), place, b).visitors <= ImportedAt(Imported(q, imported), place, b).pageviews
  {
    if imported != [] {
      var rest := imported[1..];
      assert Seen([], rest) by { assert forall i :: 0 <= i < |rest| ==> rest[i] == imported[i+1]; }
      ImportedSeen(q, rest, place, b);
      if ImportedMatches(q, imported[0]) {
        var rows := [imported[0]] + Imported(q, rest);
        assert rows[1..] == Imported(q, rest);
        AtCons(ImportedPoints(rows, place)[0], ImportedPoints(rows[1..], place), b);
      }
    }
  }

  /** A visitor is someone with a page view in the bucket: no point shows more visitors than page views. */
  lemma {:induction false} NoVisitorWithoutPageview(q: Request, at: Bucketing, live: seq<LiveRow>, imported: seq<ImportedRow>, i: nat)
    requires Seen(live, imported) && i < |Chart(q, at, live, imported)|
    ensures Chart(q, at, live, imported)[i].m.visitors <= Chart(q, at, live, imported)[i].m.pageviews
  {
    PointIs(q, at, live, imported, i);
    var b := Chart(q, at, live, imported)[i].bucket;
    LiveSeen(q, live, at.live, b);
    ImportedSeen(q, imported, at.imported, b);
  }

  // ----- buckets -----

  /** Weeks begin on Mondays: the fifth of January 1970, day 4, is one. */
  lemma MondaysAre(date: int)
    ensures Monday(date) <= date < Monday(date) + 7 && (Monday(date) - 4) % 7 == 0 && Monday(4) == 4
  {
  }

  /** A day's bucket begins at its local midnight and a week's at its Monday's, for instants and provider days alike. */
  lemma BucketsBegin(z: Zone, t: int, date: int)
    requires Proper(z) && z.dayStart(date) <= t < z.dayStart(date + 1)
    ensures DayBuckets(z).live(t) == z.dayStart(date) == DayBuckets(z).imported(date)
    ensures WeekBuckets(z).live(t) == z.dayStart(Monday(date)) == WeekBuckets(z).imported(date)
  {
    DayNotBefore(z, date, t);
    var d := DateOf(z, t);
    if d > date { assert Start(z, d) >= Start(z, date + 1) by { if d > date + 1 { assert Start(z, date + 1) < Start(z, d); } } }
  }

  // ----- the seam -----

  lemma {:induction false} LiveAre(q: Request, rows: seq<LiveRow>)
    ensures forall i :: 0 <= i < |Live(q, rows)| ==> LiveMatches(q, Live(q, rows)[i])
  {
    if rows != [] { LiveAre(q, rows[1..]); }
  }

  lemma {:induction false} ImportedAre(q: Request, rows: seq<ImportedRow>)
    ensures forall i :: 0 <= i < |Imported(q, rows)| ==> ImportedMatches(q, Imported(q, rows)[i])
  {
    if rows != [] { ImportedAre(q, rows[1..]); }
  }

  lemma {:induction false} NoLiveAt(rows: seq<LiveRow>, place: int -> int, b: int)
    requires forall i :: 0 <= i < |rows| ==> place(rows[i].bucketStart) != b
    ensures LiveAt(rows, place, b) == ZERO
  {
    if rows != [] {
      NoLiveAt(rows[1..], place, b);
      AtCons(LivePoints(rows, place)[0], LivePoints(rows[1..], place), b);
    }
  }

  lemma {:induction false} NoImportedAt(rows: seq<ImportedRow>, place: int -> int, b: int)
    requires forall i :: 0 <= i < |rows| ==> place(rows[i].date) != b
    ensures ImportedAt(rows, place, b) == ZERO
  {
    if rows != [] {
      NoImportedAt(rows[1..], place, b);
      AtCons(ImportedPoints(rows, place)[0], ImportedPoints(rows[1..], place), b);
    }
  }

  lemma DayNotBefore(z: Zone, date: int, t: int)
    requires Proper(z) && t >= Start(z, date)
    ensures DateOf(z, t) >= date && Start(z, DateOf(z, t)) >= Start(z, date)
  {
    assert DateOf(z, t) + 1 < date ==> Start(z, DateOf(z, t) + 1) < Start(z, date);
    assert DateOf(z, t) > date ==> Start(z, date) < Start(z, DateOf(z, t));
  }

  lemma LiveDayNotBefore(q: Request, r: LiveRow)
    requires Proper(q.zone) && LiveMatches(q, r)
    ensures DayBuckets(q.zone).live(r.bucketStart) >= Start(q.zone, q.cutover)
  {
    DayNotBefore(q.zone, q.cutover, r.bucketStart);
  }

  lemma ImportedDayBefore(q: Request, r: ImportedRow)
    requires Proper(q.zone) && ImportedMatches(q, r)
    ensures DayBuckets(q.zone).imported(r.date) < Start(q.zone, q.cutover)
  {
  }

  lemma AllLiveAfter(q: Request, live: seq<LiveRow>, b: int)
    requires Proper(q.zone) && b < Start(q.zone, q.cutover)
    ensures LiveAt(Live(q, live), DayBuckets(q.zone).live, b) == ZERO
  {
    var rows, place := Live(q, live), DayBuckets(q.zone).live;
    LiveAre(q, live);
    forall k | 0 <= k < |rows| ensures place(rows[k].bucketStart) != b { LiveDayNotBefore(q, rows[k]); }
    NoLiveAt(rows, place, b);
  }

  lemma AllImportedBefore(q: Request, imported: seq<ImportedRow>, b: int)
    requires Proper(q.zone) && b >= Start(q.zone, q.cutover)
    ensures ImportedAt(Imported(q, imported), DayBuckets(q.zone).imported, b) == ZERO
  {
    var rows, place := Imported(q, imported), DayBuckets(q.zone).imported;
    ImportedAre(q, imported);
    forall k | 0 <= k < |rows| ensures place(rows[k].date) != b { ImportedDayBefore(q, rows[k]); }
    NoImportedAt(rows, place, b);
  }

  lemma PlusZero(m: Measures)
    ensures ZERO.Plus(m) == m && m.Plus(ZERO) == m
  {
  }

  lemma SeamAt(q: Request, live: seq<LiveRow>, imported: seq<ImportedRow>, b: int)
    requires Proper(q.zone)
    ensures
      var l := LiveAt(Live(q, live), DayBuckets(q.zone).live, b);
      var m := ImportedAt(Imported(q, imported), DayBuckets(q.zone).imported, b);
      l.Plus(m) == if b < Start(q.zone, q.cutover) then m else l
  {
    PlusZero(ImportedAt(Imported(q, imported), DayBuckets(q.zone).imported, b));
    PlusZero(LiveAt(Live(q, live), DayBuckets(q.zone).live, b));
    if b < Start(q.zone, q.cutover) { AllLiveAfter(q, live, b); } else { AllImportedBefore(q, imported, b); }
  }

  /** On a day chart no point mixes sources: before the cutover it is the import's, from it on it is live. */
  lemma {:induction false} DayPointsNeverMix(q: Request, live: seq<LiveRow>, imported: seq<ImportedRow>, i: nat)
    requires Proper(q.zone) && i < |Chart(q, DayBuckets(q.zone), live, imported)|
    ensures
      var p, place := Chart(q, DayBuckets(q.zone), live, imported)[i], DayBuckets(q.zone);
      p.m == if p.bucket < Start(q.zone, q.cutover)
             then ImportedAt(Imported(q, imported), place.imported, p.bucket)
             else LiveAt(Live(q, live), place.live, p.bucket)
  {
    PointIs(q, DayBuckets(q.zone), live, imported, i);
    SeamAt(q, live, imported, Chart(q, DayBuckets(q.zone), live, imported)[i].bucket);
  }

  lemma SameStart(z: Zone, d: int, e: int)
    requires Proper(z) && Start(z, d) == Start(z, e)
    ensures d == e
  {
  }

  /** On a week chart only the cutover's own week can mix, and only when the cutover is not its Monday. */
  lemma {:induction false} OnlyTheCutoverWeekMixes(q: Request, r: LiveRow, day: ImportedRow)
    requires Proper(q.zone) && LiveMatches(q, r) && ImportedMatches(q, day)
    requires WeekBuckets(q.zone).live(r.bucketStart) == WeekBuckets(q.zone).imported(day.date)
    ensures WeekBuckets(q.zone).live(r.bucketStart) == Start(q.zone, Monday(q.cutover))
    ensures Monday(q.cutover) != q.cutover
  {
    var day' := DateOf(q.zone, r.bucketStart);
    DayNotBefore(q.zone, q.cutover, r.bucketStart);
    SameWeek(q.zone, r.bucketStart, day.date);
    WeekBetween(day.date, q.cutover, day');
  }

  lemma SameWeek(z: Zone, t: int, d: int)
    requires Proper(z) && WeekBuckets(z).live(t) == WeekBuckets(z).imported(d)
    ensures Monday(DateOf(z, t)) == Monday(d)
    ensures WeekBuckets(z).live(t) == Start(z, Monday(d))
  {
    SameStart(z, Monday(DateOf(z, t)), Monday(d));
  }

  lemma WeekBetween(d: int, c: int, e: int)
    requires d < c <= e && Monday(d) == Monday(e)
    ensures Monday(c) == Monday(d) != c
  {
  }
}
