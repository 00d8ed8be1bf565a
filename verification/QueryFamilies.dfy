/**
 What the cacheable operations bind (apps/query-gateway/src/operations.ts), and so which requests their cache
 keys tell apart.
 */
module QueryFamilies {
  import opened Text
  import opened CacheKeys
  import Json = Canonical

  /** The cacheable operations, by the parameters they bind. */
  datatype Family =
    | Timeseries(tz: bool, run: bool)
    | Overview
    | Report(cutover: bool)
    | Samples
    | ImportedReport
    | Sessions(tz: bool)
    | PageSessions(filtered: bool)
    | Funnel
    | RevenueChart(tz: bool)
    | RevenueSummary
    | RevenueUnconverted
    | RevenueTransactions
    | RevenueJourney
    | RevenueOrder
    | FilteredReport
    | FilteredOverview
    | FilteredTimeseries(tz: bool)

  /** The names they bind, numbered in key order. */
  function Name(column: nat): string {
    match column
    case 0 => "cursor_object_id"
    case 1 => "cursor_occurred_at"
    case 2 => "f_city"
    case 3 => "f_city" + "_on"
    case 4 => "f_country"
    case 5 => "f_country" + "_on"
    case 6 => "f_device_type"
    case 7 => "f_device_type" + "_on"
    case 8 => "f_referrer_domain"
    case 9 => "f_referrer_domain" + "_on"
    case 10 => "from"
    case 11 => "import_cutover"
    case 12 => "import_run_id"
    case 13 => "limit"
    case 14 => "object_id"
    case 15 => "session_from"
    case 16 => "site_id"
    case 17 => "step_1"
    case 18 => "step_2"
    case 19 => "step_3"
    case 20 => "step_4"
    case 21 => "step_5"
    case 22 => "step_6"
    case 23 => "step_7"
    case 24 => "step_8"
    case 25 => "step_count"
    case 26 => "to"
    case 27 => "tz"
    case _ => "window_ms"
  }

  const CURSOR_ID := 0
  const CURSOR_AT := 1
  const FROM := 10
  const CUTOVER := 11
  const RUN := 12
  const LIMIT := 13
  const OBJECT := 14
  const SESSION_FROM := 15
  const SITE := 16
  const STEP_1 := 17
  const STEP_8 := 24
  const STEP_COUNT := 25
  const TO := 26
  const TZ := 27
  const WINDOW := 28

  /** A filter's flag and values, for each of the four dimensions, and then the rest. */
  function Filtered(rest: seq<nat>): seq<nat> { [2, 3, 4, 5, 6, 7, 8, 9] + rest }

  function WithZone(columns: seq<nat>, tz: bool): seq<nat> { if tz then columns + [TZ] else columns }

  function Columns(f: Family): seq<nat> {
    match f
    case Timeseries(tz, run) =>
      WithZone(if run then [FROM, CUTOVER, RUN, SITE, TO] else [FROM, CUTOVER, SITE, TO], tz)
    case Overview => [FROM, CUTOVER, RUN, SITE, TO, TZ]
    case Report(cutover) => if cutover then [FROM, CUTOVER, LIMIT, SITE, TO, TZ] else [FROM, LIMIT, SITE, TO]
    case Samples => [FROM, LIMIT, SITE, TO]
    case ImportedReport => [FROM, CUTOVER, RUN, LIMIT, SITE, TO, TZ]
    case Sessions(tz) => WithZone([FROM, SITE, TO], tz)
    case PageSessions(filtered) => if filtered then Filtered([FROM, LIMIT, SITE, TO]) else [FROM, LIMIT, SITE, TO]
    case Funnel => [FROM, SITE, 17, 18, 19, 20, 21, 22, 23, 24, STEP_COUNT, TO, WINDOW]
    case RevenueChart(tz) => WithZone([FROM, SITE, TO], tz)
    case RevenueSummary => [FROM, SITE, TO]
    case RevenueUnconverted => [FROM, SITE, TO]
    case RevenueTransactions => [CURSOR_ID, CURSOR_AT, FROM, LIMIT, SITE, TO]
    case RevenueJourney => [OBJECT, SITE]
    case RevenueOrder => [FROM, OBJECT, SITE, TO]
    case FilteredReport => Filtered([FROM, LIMIT, SESSION_FROM, SITE, TO])
    case FilteredOverview => Filtered([FROM, SESSION_FROM, SITE, TO])
    case FilteredTimeseries(tz) => Filtered(WithZone([FROM, SESSION_FROM, SITE, TO], tz))
  }

  /** Free text: a cursor's or an object's id, a funnel step. */
  predicate FreeColumn(column: nat) {
    column == CURSOR_ID || column == OBJECT || STEP_1 <= column <= STEP_8
  }

  /** The JSON text of a list of strings: a filter's values. */
  predicate ListColumn(column: nat) { column == 2 || column == 4 || column == 6 || column == 8 }

  function Strings(items: seq<string>): seq<Json.Json> {
    if items == [] then [] else [Json.Str(items[0])] + Strings(items[1..])
  }

  function ListText(items: seq<string>): string { Json.Stringify(Json.Arr(Strings(items))) }

  ghost predicate ValueOk(column: nat, value: string) {
    if FreeColumn(column) then true
    else if ListColumn(column) then exists items :: value == ListText(items)
    else Lacks(value, '&')
  }

  /** `params` are what an operation of the family binds, in key order. */
  ghost predicate Bound(f: Family, params: Params) {
    var columns := Columns(f);
    && |params| == |columns|
    && forall i :: 0 <= i < |columns| ==>
         columns[i] <= WINDOW && params[i].key == Name(columns[i]) && ValueOk(columns[i], params[i].value)
  }

  // ----- the names in order -----

  /** Strings that part at `k` are in order there. */
  lemma {:induction false} LessAt(a: string, b: string, k: nat)
    requires k <= |a| && k < |b| && a[..k] == b[..k] && (k == |a| || a[k] < b[k])
    ensures Less(a, b)
  {
    if k > 0 {
      assert a[0] == a[..k][0] == b[..k][0] == b[0];
      assert a[1..][..k-1] == a[..k][1..] && b[1..][..k-1] == b[..k][1..];
      LessAt(a[1..], b[1..], k - 1);
    }
  }

  /** Where each name parts from the next. */
  function Parting(i: nat): nat
    requires i < WINDOW
  {
    match i
    case 0 => 8
    case 1 => 0
    case 2 => |Name(2)|
    case 3 => 3
    case 4 => |Name(4)|
    case 5 => 2
    case 6 => |Name(6)|
    case 7 => 2
    case 8 => |Name(8)|
    case 9 => 1
    case 11 => 7
    case 15 => 1
    case 16 => 1
    case 26 => 1
    case _ => if 17 <= i <= 24 then 5 else 0
  }

  lemma EarlyName(i: nat)
    requires i < FROM
    ensures Less(Name(i), Name(i + 1))
  {
    LessAt(Name(i), Name(i + 1), Parting(i));
  }

  lemma LateName(i: nat)
    requires FROM <= i < WINDOW
    ensures Less(Name(i), Name(i + 1))
  {
    LessAt(Name(i), Name(i + 1), Parting(i));
  }

  lemma NextName(i: nat)
    requires i < WINDOW
    ensures Less(Name(i), Name(i + 1))
  {
    if i < FROM { EarlyName(i); } else { LateName(i); }
  }

  lemma {:induction false} Chained(name: nat -> string, i: nat, j: nat)
    requires i < j && forall k: nat :: k < j ==> Less(name(k), name(k + 1))
    ensures Less(name(i), name(j))
    decreases j
  {
    if i < j - 1 {
      Chained(name, i, j - 1);
      LessTransitive(name(i), name(j - 1), name(j));
    }
  }

  lemma NamesAscend(i: nat, j: nat)
    requires i < j <= WINDOW
    ensures Less(Name(i), Name(j))
  {
    forall k: nat | k < j ensures Less(Name(k), Name(k + 1)) { NextName(k); }
    Chained(Name, i, j);
  }

  // ----- sites -----

  predicate Ascending(columns: seq<nat>) {
    && (forall i :: 0 <= i < |columns| ==> columns[i] <= WINDOW)
    && forall i, j :: 0 <= i < j < |columns| ==> columns[i] < columns[j]
  }

  /** Where the site stands among a family's parameters. */
  function SiteAt(f: Family): nat {
    match f
    case Timeseries(_, run) => if run then 3 else 2
    case Overview => 3
    case Report(cutover) => if cutover then 3 else 2
    case Samples => 2
    case ImportedReport => 4
    case Sessions(_) => 1
    case PageSessions(filtered) => if filtered then 10 else 2
    case Funnel => 1
    case RevenueChart(_) => 1
    case RevenueSummary => 1
    case RevenueUnconverted => 1
    case RevenueTransactions => 4
    case RevenueJourney => 1
    case RevenueOrder => 2
    case FilteredReport => 11
    case FilteredOverview => 10
    case FilteredTimeseries(_) => 10
  }

  /** What a family's columns are like: in order, the site among them, and free text on one side of it only. */
  predicate Shaped(columns: seq<nat>, site: nat, funnel: bool) {
    && Ascending(columns) && site < |columns| && columns[site] == SITE
    && forall i :: 0 <= i < |columns| ==>
         if funnel then columns[i] != CURSOR_ID && columns[i] != OBJECT && !ListColumn(columns[i])
         else !(STEP_1 <= columns[i] <= STEP_8)
  }

  lemma ZoneShaped(columns: seq<nat>, tz: bool, site: nat)
    requires Shaped(columns, site, false) && columns[|columns|-1] < TZ
    ensures Shaped(WithZone(columns, tz), site, false)
  {
  }

  lemma FilteredShaped(rest: seq<nat>, site: nat)
    requires Shaped(rest, site, false) && rest[0] >= FROM
    ensures Shaped(Filtered(rest), 8 + site, false)
  {
    var all := Filtered(rest);
    assert all[8 + site] == rest[site];
    forall i, j | 0 <= i < j < |all| ensures all[i] < all[j] {
      if j >= 8 { assert rest[0] <= rest[j-8]; }
    }
  }

  lemma ReportShape(f: Family)
    requires f.Overview? || f.Report? || f.Samples? || f.ImportedReport?
    ensures Shaped(Columns(f), SiteAt(f), false)
  {
  }

  lemma RevenueShape(f: Family)
    requires f.RevenueSummary? || f.RevenueUnconverted? || f.RevenueTransactions? || f.RevenueJourney? || f.RevenueOrder?
    ensures Shaped(Columns(f), SiteAt(f), false)
  {
  }

  lemma FunnelShape()
    ensures Shaped(Columns(Funnel), SiteAt(Funnel), true)
  {
  }

  lemma RangeShape(tz: bool)
    ensures Shaped(WithZone([FROM, SITE, TO], tz), 1, false)
  {
    ZoneShaped([FROM, SITE, TO], tz, 1);
  }

  lemma TimeseriesShape(tz: bool, run: bool)
    ensures Shaped(Columns(Timeseries(tz, run)), SiteAt(Timeseries(tz, run)), false)
  {
    if run { ZoneShaped([FROM, CUTOVER, RUN, SITE, TO], tz, 3); } else { ZoneShaped([FROM, CUTOVER, SITE, TO], tz, 2); }
  }

  lemma FilteredShape(f: Family)
    requires f.FilteredReport? || f.FilteredOverview? || f.FilteredTimeseries? || f.PageSessions?
    ensures Shaped(Columns(f), SiteAt(f), false)
  {
    match f
    case PageSessions(filtered) => FilteredShaped([FROM, LIMIT, SITE, TO], 2);
    case FilteredReport => FilteredShaped([FROM, LIMIT, SESSION_FROM, SITE, TO], 3);
    case FilteredOverview => FilteredShaped([FROM, SESSION_FROM, SITE, TO], 2);
    case FilteredTimeseries(tz) =>
      ZoneShaped([FROM, SESSION_FROM, SITE, TO], tz, 2);
      FilteredShaped(WithZone([FROM, SESSION_FROM, SITE, TO], tz), 2);
  }

  lemma FamilyShape(f: Family)
    ensures Shaped(Columns(f), SiteAt(f), f.Funnel?)
  {
    match f
    case Timeseries(tz, run) => TimeseriesShape(tz, run);
    case Sessions(tz) => RangeShape(tz);
    case RevenueChart(tz) => RangeShape(tz);
    case Funnel => FunnelShape();
    case Overview => ReportShape(f);
    case Report(_) => ReportShape(f);
    case Samples => ReportShape(f);
    case ImportedReport => ReportShape(f);
    case RevenueSummary => RevenueShape(f);
    case RevenueUnconverted => RevenueShape(f);
    case RevenueTransactions => RevenueShape(f);
    case RevenueJourney => RevenueShape(f);
    case RevenueOrder => RevenueShape(f);
    case _ => FilteredShape(f);
  }

  lemma BoundInOrder(f: Family, params: Params)
    requires Bound(f, params)
    ensures Amp(params) == "&" + Canonical(params)
  {
    FamilyShape(f);
    forall i, j | 0 <= i < j < |params| ensures Less(params[i].key, params[j].key) {
      NamesAscend(Columns(f)[i], Columns(f)[j]);
    }
    InOrder(params);
  }

  lemma SameTexts(f: Family, a: Params, b: Params)
    requires Bound(f, a) && Bound(f, b) && CacheKeys.Canonical(a) == CacheKeys.Canonical(b)
    ensures Amp(a) == Amp(b) && forall i :: 0 <= i < |a| ==> a[i].key == b[i].key
  {
    BoundInOrder(f, a);
    BoundInOrder(f, b);
  }

  // ----- values -----

  /** A JSON list of strings ends where it says, whatever follows. */
  lemma ListsPart(t: string, u: string, x: seq<string>, y: seq<string>)
    requires t == ListText(x) && u == ListText(y)
    ensures Parts(t, u)
  {
    var a, b := Json.Arr(Strings(x)), Json.Arr(Strings(y));
    StringsOk(x);
    StringsOk(y);
    Json.ItemsCut(a, b);
    var ts, us := Json.StringifyAll(a.items), Json.StringifyAll(b.items);
    forall p, q | Follows(p) && Follows(q) && t + p == u + q ensures t == u && p == q {
      ListClosed(ts, p);
      ListClosed(us, q);
      SameTail("[", Join(ts, ",") + [']'] + p, Join(us, ",") + [']'] + q);
      Json.ListsCut(ts, us, ']', p, q);
    }
  }

  lemma ListClosed(ts: seq<string>, p: string)
    ensures ("[" + Join(ts, ",") + "]") + p == "[" + (Join(ts, ",") + [']'] + p)
  {
  }

  lemma {:induction false} StringsOk(items: seq<string>)
    ensures forall i :: 0 <= i < |Strings(items)| ==> Strings(items)[i].Str?
  {
    if items != [] { StringsOk(items[1..]); }
  }

  lemma ValuesPart(column: nat, t: string, u: string)
    requires !FreeColumn(column) && ValueOk(column, t) && ValueOk(column, u)
    ensures Parts(t, u)
  {
    if ListColumn(column) {
      var x :| t == ListText(x);
      var y :| u == ListText(y);
      ListsPart(t, u, x, y);
    } else {
      CleanParts(t, u);
    }
  }

  lemma SiteNamesClean()
    ensures Lacks(Name(SITE), '&') && Lacks(Name(TO), '&') && Lacks(Name(TZ), '&')
  {
  }

  lemma OtherNamesClean()
    ensures Lacks(Name(CURSOR_AT), '&') && Lacks(Name(FROM), '&') && Lacks(Name(LIMIT), '&')
  {
  }

  // ----- sites -----

  function SiteOf(f: Family, params: Params): string
    requires Bound(f, params)
  {
    FamilyShape(f);
    params[SiteAt(f)].value
  }

  /** No cacheable operation's key mixes sites. */
  lemma FamilyNeverMixesSites(f: Family, a: Params, b: Params)
    requires Bound(f, a) && Bound(f, b) && CacheKeys.Canonical(a) == CacheKeys.Canonical(b)
    ensures SiteOf(f, a) == SiteOf(f, b)
  {
    var columns, site := Columns(f), SiteAt(f);
    FamilyShape(f);
    SameTexts(f, a, b);
    if f.Funnel? {
      forall i | 0 <= i <= site ensures Parts(a[i].value, b[i].value) {
        assert columns[i] <= columns[site];
        ValuesPart(columns[i], a[i].value, b[i].value);
      }
      FromTheLeft(a, b, site);
    } else {
      SiteNamesClean();
      forall i | site <= i < |a| ensures Lacks(a[i].key, '&') && Lacks(a[i].value, '&') && Lacks(b[i].value, '&') {
        AfterSite(f, i);
      }
      FromTheRight(a, b, site);
    }
  }

  lemma AfterSite(f: Family, i: nat)
    requires !f.Funnel? && SiteAt(f) <= i < |Columns(f)|
    ensures Columns(f)[i] == SITE || Columns(f)[i] == TO || Columns(f)[i] == TZ
  {
  }

  // ----- whole requests -----

  /** Requests of the family with one key bind the same values. */
  ghost predicate KeysDetermine(f: Family) {
    forall a: Params, b: Params :: Bound(f, a) && Bound(f, b) && CacheKeys.Canonical(a) == CacheKeys.Canonical(b)
      ==> a == b
  }

  /** The one column of free text, in the families that have just one. */
  predicate HasHole(f: Family) { f.RevenueTransactions? || f.RevenueJourney? || f.RevenueOrder? }

  function Hole(f: Family): nat { if f.RevenueOrder? then 1 else 0 }

  lemma HoleShape(f: Family, i: nat)
    requires HasHole(f) && i < |Columns(f)|
    ensures Hole(f) < |Columns(f)|
    ensures i != Hole(f) ==>
      var c := Columns(f)[i];
      c == CURSOR_AT || c == FROM || c == LIMIT || c == SITE || c == TO
  {
  }

  lemma NoHoleShape(f: Family, i: nat)
    requires !HasHole(f) && !f.Funnel? && i < |Columns(f)|
    ensures !FreeColumn(Columns(f)[i])
  {
    match f
    case Timeseries(tz, run) =>
    case PageSessions(filtered) => NoneFree([FROM, LIMIT, SITE, TO], i);
    case FilteredReport => NoneFree([FROM, LIMIT, SESSION_FROM, SITE, TO], i);
    case FilteredOverview => NoneFree([FROM, SESSION_FROM, SITE, TO], i);
    case FilteredTimeseries(tz) => NoneFree(WithZone([FROM, SESSION_FROM, SITE, TO], tz), i);
    case _ =>
  }

  lemma NoneFree(rest: seq<nat>, i: nat)
    requires i < 8 + |rest| && forall k :: 0 <= k < |rest| ==> !FreeColumn(rest[k])
    ensures !FreeColumn(Filtered(rest)[i])
  {
    if i >= 8 { assert Filtered(rest)[i] == rest[i-8]; }
  }

  lemma SameWithoutHole(f: Family, a: Params, b: Params)
    requires !HasHole(f) && !f.Funnel? && Bound(f, a) && Bound(f, b)
    requires CacheKeys.Canonical(a) == CacheKeys.Canonical(b)
    ensures a == b
  {
    SameTexts(f, a, b);
    forall i | 0 <= i < |a| ensures Parts(a[i].value, b[i].value) {
      NoHoleShape(f, i);
      ValuesPart(Columns(f)[i], a[i].value, b[i].value);
    }
    forall i | 0 <= i < |a| ensures a[i] == b[i] { FromTheLeft(a, b, i); }
  }

  lemma CleanButHole(f: Family, params: Params, i: nat)
    requires HasHole(f) && Bound(f, params) && i < |params| && i != Hole(f)
    ensures Lacks(params[i].key, '&') && Lacks(params[i].value, '&')
  {
    SiteNamesClean();
    OtherNamesClean();
    HoleShape(f, i);
  }

  lemma SameAroundHole(f: Family, a: Params, b: Params, k: nat)
    requires HasHole(f) && Bound(f, a) && Bound(f, b) && Amp(a) == Amp(b) && k < |a| && k != Hole(f)
    ensures a[k] == b[k]
  {
    forall i | 0 <= i < |a| && i != Hole(f)
      ensures Lacks(a[i].key, '&') && Lacks(a[i].value, '&') && Lacks(b[i].value, '&')
    {
      CleanButHole(f, a, i);
      CleanButHole(f, b, i);
    }
    if k < Hole(f) {
      forall i | 0 <= i <= k ensures Parts(a[i].value, b[i].value) { CleanParts(a[i].value, b[i].value); }
      FromTheLeft(a, b, k);
    } else {
      FromTheRight(a, b, k);
    }
  }

  lemma SameWithHole(f: Family, a: Params, b: Params)
    requires HasHole(f) && Bound(f, a) && Bound(f, b) && CacheKeys.Canonical(a) == CacheKeys.Canonical(b)
    ensures a == b
  {
    var h := Hole(f);
    HoleShape(f, 0);
    SameTexts(f, a, b);
    forall k | 0 <= k < |a| && k != h ensures a[k] == b[k] { SameAroundHole(f, a, b, k); }
    SameButOne(a, b, h);
    MiddlePinned(a, b, h);
    assert forall k :: 0 <= k < |a| ==> a[k] == b[k];
  }

  lemma SameButOne(a: Params, b: Params, h: nat)
    requires |a| == |b| && h < |a| && forall k :: 0 <= k < |a| && k != h ==> a[k] == b[k]
    ensures a[..h] == b[..h] && a[h+1..] == b[h+1..]
  {
  }

  /** What a funnel binds besides its steps. */
  datatype Scope = Scope(site: string, start: string, end: string, window: string)

  predicate Clean(scope: Scope) {
    Lacks(scope.site, '&') && Lacks(scope.start, '&') && Lacks(scope.end, '&') && Lacks(scope.window, '&')
  }

  /** A funnel of two steps: the other six are bound to the empty text. */
  function FunnelParams(scope: Scope, first: string, second: string): Params {
    seq(13, i requires 0 <= i < 13 => Entry(Name(Columns(Funnel)[i]), FunnelValue(scope, first, second, i)))
  }

  function FunnelValue(scope: Scope, first: string, second: string, i: nat): string {
    match i
    case 0 => scope.start
    case 1 => scope.site
    case 2 => first
    case 3 => second
    case 10 => "2"
    case 11 => scope.end
    case 12 => scope.window
    case _ => ""
  }

  lemma FunnelBound(scope: Scope, first: string, second: string)
    requires Clean(scope)
    ensures Bound(Funnel, FunnelParams(scope, first, second))
  {
  }

  /** Lists that differ in two neighbours which print alike print alike. */
  lemma AlikeAround(before: Params, two: Params, two': Params, after: Params)
    requires Amp(two) == Amp(two')
    ensures Amp(before + (two + after)) == Amp(before + (two' + after))
  {
    AmpAppend(before, two + after);
    AmpAppend(before, two' + after);
    AmpAppend(two, after);
    AmpAppend(two', after);
  }

  lemma FunnelTexts(scope: Scope, first: string, second: string, first': string, second': string)
    requires Amp(Steps(first, second)) == Amp(Steps(first', second'))
    ensures Amp(FunnelParams(scope, first, second)) == Amp(FunnelParams(scope, first', second'))
  {
    var a, b := FunnelParams(scope, first, second), FunnelParams(scope, first', second');
    FunnelAround(scope, first, second, first', second');
    CutTwo(a);
    CutTwo(b);
    AlikeAround(a[..2], Steps(first, second), Steps(first', second'), a[4..]);
  }

  function Steps(first: string, second: string): Params { [Entry("step_1", first), Entry("step_2", second)] }

  lemma FunnelAround(scope: Scope, first: string, second: string, first': string, second': string)
    ensures
      var a, b := FunnelParams(scope, first, second), FunnelParams(scope, first', second');
      && a[..2] == b[..2] && a[4..] == b[4..]
      && [a[2], a[3]] == Steps(first, second) && [b[2], b[3]] == Steps(first', second')
  {
  }

  lemma FunnelsAlike(scope: Scope, first: string, second: string, first': string, second': string)
    requires Clean(scope) && Amp(Steps(first, second)) == Amp(Steps(first', second'))
    ensures
      var a, b := FunnelParams(scope, first, second), FunnelParams(scope, first', second');
      && Bound(Funnel, a) && Bound(Funnel, b) && SiteOf(Funnel, a) == scope.site == SiteOf(Funnel, b)
      && CacheKeys.Canonical(a) == CacheKeys.Canonical(b) && (a == b ==> first == first')
  {
    var a, b := FunnelParams(scope, first, second), FunnelParams(scope, first', second');
    FunnelBound(scope, first, second);
    FunnelBound(scope, first', second');
    FunnelTexts(scope, first, second, first', second');
    BoundInOrder(Funnel, a);
    BoundInOrder(Funnel, b);
    SameTail("&", CacheKeys.Canonical(a), CacheKeys.Canonical(b));
    assert a[2].value == first && b[2].value == first';
  }

  /**
   Over every site, range and window, and for all texts, the steps x, y&step_2=z and the steps x&step_2=y, z
   share a key.
   */
  lemma FunnelsCollide(scope: Scope, x: string, y: string, z: string) returns (a: Params, b: Params)
    requires Clean(scope)
    ensures a == FunnelParams(scope, x, y + "&step_2=" + z) && b == FunnelParams(scope, x + "&step_2=" + y, z)
    ensures Bound(Funnel, a) && Bound(Funnel, b) && SiteOf(Funnel, a) == scope.site == SiteOf(Funnel, b)
    ensures a != b && CacheKeys.Canonical(a) == CacheKeys.Canonical(b)
  {
    StepTexts(x, y, z);
    FunnelsAlike(scope, x, y + "&step_2=" + z, x + "&step_2=" + y, z);
    a, b := FunnelParams(scope, x, y + "&step_2=" + z), FunnelParams(scope, x + "&step_2=" + y, z);
    assert |x| != |x + "&step_2=" + y|;
  }

  function Ands(s: string): nat { multiset(s)['&'] }

  lemma LacksNone(s: string)
    ensures Lacks(s, '&') <==> Ands(s) == 0
  {
    assert '&' in s <==> '&' in multiset(s);
  }

  lemma PairAnds(e: Entry<string>, after: string)
    ensures Ands("&" + Pair(e) + after) == 1 + Ands(e.key) + Ands(e.value) + Ands(after)
  {
    assert multiset("&" + Pair(e) + after)
        == multiset{'&'} + multiset(e.key) + multiset{'='} + multiset(e.value) + multiset(after);
  }

  predicate CleanEntry(e: Entry<string>) { Lacks(e.key, '&') && Lacks(e.value, '&') }

  predicate AllClean(es: Params) { forall i :: 0 <= i < |es| ==> CleanEntry(es[i]) }

  lemma CleanFirst(es: Params)
    requires es != []
    ensures AllClean(es) <==> CleanEntry(es[0]) && AllClean(es[1..])
  {
    assert forall i :: 1 <= i < |es| ==> es[i] == es[1..][i-1];
  }

  lemma FirstAnds(es: Params)
    requires es != []
    ensures Ands(Amp(es)) >= 1 + Ands(Amp(es[1..]))
    ensures Ands(Amp(es)) == 1 + Ands(Amp(es[1..])) <==> CleanEntry(es[0])
  {
    PairAnds(es[0], Amp(es[1..]));
    LacksNone(es[0].key);
    LacksNone(es[0].value);
  }

  /** A printed list holds one "&" an entry, and no other exactly when no name or value does. */
  lemma {:induction false} AmpAnds(es: Params)
    ensures Ands(Amp(es)) >= |es| && (Ands(Amp(es)) == |es| <==> AllClean(es))
  {
    if es != [] {
      AmpAnds(es[1..]);
      FirstAnds(es);
      CleanFirst(es);
    }
  }

  lemma NameClean(i: nat)
    requires i < 13
    ensures Lacks(Name(Columns(Funnel)[i]), '&')
  {
  }

  /** A funnel none of whose steps holds an "&" shares its key with no other request. */
  lemma CleanFunnelsStandAlone(a: Params, b: Params)
    requires Bound(Funnel, a) && Bound(Funnel, b) && CacheKeys.Canonical(a) == CacheKeys.Canonical(b)
    requires forall i :: 2 <= i < 10 ==> Lacks(a[i].value, '&')
    ensures a == b
  {
    SameTexts(Funnel, a, b);
    forall i | 0 <= i < |a| ensures CleanEntry(a[i]) { NameClean(i); }
    AmpAnds(a);
    AmpAnds(b);
    assert forall i :: 0 <= i < |b| ==> CleanEntry(b[i]);
    forall i | 0 <= i < |a| ensures Parts(a[i].value, b[i].value) { CleanParts(a[i].value, b[i].value); }
    forall i | 0 <= i < |a| ensures a[i] == b[i] { FromTheLeft(a, b, i); }
  }

  lemma CutTwo(a: Params)
    requires |a| == 13
    ensures a == a[..2] + ([a[2], a[3]] + a[4..])
  {
  }

  lemma StepTexts(x: string, y: string, z: string)
    ensures Amp(Steps(x, y + "&step_2=" + z)) == Amp(Steps(x + "&step_2=" + y, z))
  {
    AmpSteps(x, y + "&step_2=" + z);
    AmpSteps(x + "&step_2=" + y, z);
    Regrouped("&step_1=" + x, "&step_2=", y, z);
    assert "&step_1=" + (x + "&step_2=" + y) == ("&step_1=" + x) + "&step_2=" + y;
  }

  lemma AmpSteps(first: string, second: string)
    ensures Amp(Steps(first, second)) == ("&step_1=" + first) + "&step_2=" + second
  {
    var a, b := Entry("step_1", first), Entry("step_2", second);
    assert Steps(first, second) == [a] + [b];
    AmpAppend([a], [b]);
    AmpOne(a);
    AmpOne(b);
    assert "&" + ("step_1" + "=" + first) == "&step_1=" + first && "&" + ("step_2" + "=" + second) == "&step_2=" + second;
  }

  lemma Regrouped(a: string, b: string, y: string, z: string)
    ensures a + b + (y + b + z) == (a + b + y) + b + z
  {
  }

  /** A range, a window and a site as a request binds them. */
  function JulyScope(): Scope {
    Scope("3f0c1f8e-6f1c-4c53-9d7a-2b1c5a7e9d10", "2026-07-01 00:00:00.000", "2026-07-08 00:00:00.000", "3600000")
  }

  lemma JulyIsClean()
    ensures Clean(JulyScope())
  {
  }

  /** A key tells all of a family's requests apart, whatever they bind, exactly when it is not the funnel's. */
  lemma FamilyKeysDetermine(f: Family)
    ensures KeysDetermine(f) <==> !f.Funnel?
  {
    if f.Funnel? {
      JulyIsClean();
      var a, b := FunnelsCollide(JulyScope(), "a", "b", "c");
    } else {
      forall a: Params, b: Params
        | Bound(f, a) && Bound(f, b) && CacheKeys.Canonical(a) == CacheKeys.Canonical(b)
        ensures a == b
      {
        if HasHole(f) { SameWithHole(f, a, b); } else { SameWithoutHole(f, a, b); }
      }
    }
  }
}
