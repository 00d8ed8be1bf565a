/**
 The revenue transactions list (apps/query-gateway/src/operations.ts, `revenueTransactionsOperation`):
 versioned facts joined with their attributions and read page by page, the last row of one page being the
 cursor of the next.
 */
module Transactions {
  import opened Options
  import opened Text

  /** One stored version of a money object; `content` is everything the list does not order by. */
  datatype Fact = Fact(site: nat, provider: string, id: string, version: int, at: int, content: string)

  datatype Range = Range(site: nat, from: int, until: int)

  datatype Cursor = Cursor(at: int, id: string)

  predicate InRange(q: Range, f: Fact) { f.site == q.site && q.from <= f.at < q.until }

  /** Strictly after the cursor in the descending order. */
  predicate Past(c: Cursor, f: Fact) { f.at < c.at || (f.at == c.at && Less(f.id, c.id)) }

  predicate SameObject(f: Fact, g: Fact) { f.provider == g.provider && f.id == g.id }

  predicate SamePlace(f: Fact, g: Fact) { f.at == g.at && f.id == g.id }

  /** `WHERE`: the range and the cursor, before any grouping. */
  function Selected(q: Range, c: Cursor, facts: seq<Fact>): seq<Fact> {
    if facts == [] then []
    else if InRange(q, facts[0]) && Past(c, facts[0]) then [facts[0]] + Selected(q, c, facts[1..])
    else Selected(q, c, facts[1..])
  }

  /** No version of the object among `facts` is newer. */
  predicate Newest(f: Fact, facts: seq<Fact>) {
    forall i :: 0 <= i < |facts| && SameObject(facts[i], f) ==> facts[i].version <= f.version
  }

  predicate Above(f: Fact, g: Fact) { f.at > g.at || (f.at == g.at && Less(g.id, f.id)) }

  /** Descending by place; a repeated row is the same group. */
  function Insert(f: Fact, list: seq<Fact>): seq<Fact> {
    if list == [] || Above(f, list[0]) then [f] + list
    else if f == list[0] then list
    else [list[0]] + Insert(f, list[1..])
  }

  /** `GROUP BY` object, newest version, `ORDER BY` place descending: of `todo`, the rows newest in `facts`. */
  function Ordered(todo: seq<Fact>, facts: seq<Fact>): seq<Fact> {
    if todo == [] then []
    else if Newest(todo[0], facts) then Insert(todo[0], Ordered(todo[1..], facts))
    else Ordered(todo[1..], facts)
  }

  function Listing(q: Range, c: Cursor, facts: seq<Fact>): seq<Fact> {
    var rows := Selected(q, c, facts);
    Ordered(rows, rows)
  }

  function PageAt(q: Range, c: Cursor, limit: nat, facts: seq<Fact>): seq<Fact> {
    var l := Listing(q, c, facts);
    if |l| <= limit then l else l[..limit]
  }

  /** The cursor that continues after a page. */
  function After(page: seq<Fact>): Cursor
    requires page != []
  {
    Cursor(page[|page|-1].at, page[|page|-1].id)
  }

  /** Up to `n` pages, each continuing at the last row of the one before. */
  function Walk(q: Range, c: Cursor, limit: nat, n: nat, facts: seq<Fact>): seq<Fact>
    decreases n
  {
    if n == 0 then []
    else
      var page := PageAt(q, c, limit, facts);
      if page == [] then []
      else page + Walk(q, After(page), limit, n - 1, facts)
  }

  /** The cursor of the first page. */
  function First(q: Range): Cursor { Cursor(q.until, "") }

  // ----- what the stored facts promise -----

  /** All versions of an object stand at one instant, and a version names one row. */
  ghost predicate Consistent(facts: seq<Fact>) {
    forall f, g :: f in facts && g in facts && f.site == g.site && SameObject(f, g) ==>
      f.at == g.at && (f.version == g.version ==> f == g)
  }

  /** Current rows of the range. */
  ghost predicate Current(q: Range, facts: seq<Fact>, f: Fact) {
    && f in facts && InRange(q, f)
    && forall g :: g in facts && g.site == f.site && SameObject(f, g) ==> g.version <= f.version
  }

  /** No two objects of the range share a place. */
  ghost predicate OnePlaceEach(q: Range, facts: seq<Fact>) {
    forall f, g :: Current(q, facts, f) && Current(q, facts, g) && SamePlace(f, g) ==> f == g
  }

  predicate Descending(list: seq<Fact>) {
    forall i, j :: 0 <= i < j < |list| ==> Above(list[i], list[j])
  }

  // ----- the order -----

  lemma AboveTransitive(f: Fact, g: Fact, h: Fact)
    requires Above(f, g) && Above(g, h)
    ensures Above(f, h)
  {
    if f.at == g.at == h.at { LessTransitive(h.id, g.id, f.id); }
  }

  lemma AboveTotal(f: Fact, g: Fact)
    ensures SamePlace(f, g) || Above(f, g) || Above(g, f)
    ensures !(Above(f, g) && Above(g, f)) && !Above(f, f)
  {
    LessTotal(f.id, g.id);
    LessIrreflexive(f.id);
    if Less(f.id, g.id) && Less(g.id, f.id) { LessTransitive(f.id, g.id, f.id); }
  }

  lemma {:induction false} SelectedIs(q: Range, c: Cursor, facts: seq<Fact>)
    ensures forall f :: f in Selected(q, c, facts) <==> f in facts && InRange(q, f) && Past(c, f)
  {
    if facts != [] {
      SelectedIs(q, c, facts[1..]);
      assert facts == [facts[0]] + facts[1..];
    }
  }

  /** The rows share no place unless they are the same. */
  ghost predicate Apart(facts: seq<Fact>) {
    forall f, g :: f in facts && g in facts && SamePlace(f, g) ==> f == g
  }

  lemma {:induction false} InsertIs(f: Fact, list: seq<Fact>)
    ensures forall g :: g in Insert(f, list) <==> g == f || g in list
    ensures Descending(list) && (forall g :: g in list && SamePlace(f, g) ==> f == g) ==> Descending(Insert(f, list))
  {
    if list != [] {
      assert list == [list[0]] + list[1..];
      InsertIs(f, list[1..]);
      if Descending(list) && forall g :: g in list && SamePlace(f, g) ==> f == g {
        InsertDescends(f, list);
      }
    }
  }

  lemma InsertDescends(f: Fact, list: seq<Fact>)
    requires list != [] && Descending(list) && forall g :: g in list && SamePlace(f, g) ==> f == g
    requires forall g :: g in Insert(f, list[1..]) <==> g == f || g in list[1..]
    requires Descending(Insert(f, list[1..]))
    ensures Descending(Insert(f, list))
  {
    AboveTotal(f, list[0]);
    assert list[0] in list;
    if Above(f, list[0]) {
      forall j | 0 <= j < |list| ensures Above(f, list[j]) {
        if j > 0 { AboveTransitive(f, list[0], list[j]); }
      }
    } else if f != list[0] {
      var r := Insert(f, list[1..]);
      forall j | 0 <= j < |r| ensures Above(list[0], r[j]) {
        assert r[j] in r;
        if r[j] != f {
          var k :| 0 <= k < |list[1..]| && list[1..][k] == r[j];
          assert list[k+1] == r[j];
        }
      }
    }
  }

  lemma {:induction false} OrderedIs(todo: seq<Fact>, facts: seq<Fact>)
    ensures forall f :: f in Ordered(todo, facts) <==> f in todo && Newest(f, facts)
    ensures Apart(Ordered(todo, facts)) ==> Descending(Ordered(todo, facts))
  {
    if todo != [] {
      assert todo == [todo[0]] + todo[1..];
      OrderedIs(todo[1..], facts);
      if Newest(todo[0], facts) { InsertIs(todo[0], Ordered(todo[1..], facts)); }
    }
  }

  lemma {:induction false} DescendingUnique(a: seq<Fact>, b: seq<Fact>)
    requires Descending(a) && Descending(b) && forall f :: f in a <==> f in b
    ensures a == b
  {
    assert a != [] ==> a[0] in a;
    assert b != [] ==> b[0] in b;
    if a != [] {
      TailMembers(a);
      TailMembers(b);
      AboveTotal(a[0], b[0]);
      assert a[0] == b[0];
      DescendingUnique(a[1..], b[1..]);
    }
  }

  lemma TailMembers(a: seq<Fact>)
    requires Descending(a) && a != []
    ensures Descending(a[1..]) && forall f :: f in a[1..] <==> f in a && f != a[0]
    ensures forall f :: f in a[1..] ==> Above(a[0], f)
  {
    assert a == [a[0]] + a[1..];
    forall f | f in a[1..] ensures Above(a[0], f) && f != a[0] {
      var i :| 0 <= i < |a[1..]| && a[1..][i] == f;
      assert a[i+1] == f;
      AboveTotal(f, f);
    }
  }

  // ----- listings -----

  lemma NewestSelected(q: Range, c: Cursor, facts: seq<Fact>, f: Fact)
    requires Consistent(facts)
    ensures f in facts && InRange(q, f) && Past(c, f) && Newest(f, Selected(q, c, facts))
      <==> Current(q, facts, f) && Past(c, f)
  {
    var rows := Selected(q, c, facts);
    SelectedIs(q, c, facts);
    if f in facts && InRange(q, f) && Past(c, f) && Newest(f, rows) {
      forall g | g in facts && g.site == f.site && SameObject(f, g) ensures g.version <= f.version {
        assert g in rows;
        var i :| 0 <= i < |rows| && rows[i] == g;
      }
    }
    if Current(q, facts, f) {
      forall i | 0 <= i < |rows| && SameObject(rows[i], f) ensures rows[i].version <= f.version {
        assert rows[i] in rows;
      }
    }
  }

  /** Filtering by the cursor before grouping is filtering the current rows. */
  lemma {:induction false} ListingIs(q: Range, c: Cursor, facts: seq<Fact>)
    requires Consistent(facts)
    ensures forall f :: f in Listing(q, c, facts) <==> Current(q, facts, f) && Past(c, f)
    ensures OnePlaceEach(q, facts) ==> Descending(Listing(q, c, facts))
  {
    var rows := Selected(q, c, facts);
    SelectedIs(q, c, facts);
    OrderedIs(rows, rows);
    forall f ensures f in Listing(q, c, facts) <==> Current(q, facts, f) && Past(c, f) {
      NewestSelected(q, c, facts, f);
    }
  }

  lemma {:induction false} SuffixOf(list: seq<Fact>, k: nat)
    requires Descending(list) && 0 < k <= |list|
    ensures Descending(list[k..])
    ensures forall f :: f in list[k..] <==> f in list && Above(list[k-1], f)
    decreases k
  {
    TailMembers(list);
    if k == 1 {
      AboveTotal(list[0], list[0]);
    } else {
      assert list[1..][k-1..] == list[k..] && list[1..][k-2] == list[k-1];
      SuffixOf(list[1..], k - 1);
      AboveTotal(list[0], list[k-1]);
    }
  }

  /** The page after a row starts right behind it. */
  lemma NextListing(q: Range, c: Cursor, facts: seq<Fact>, k: nat)
    requires Consistent(facts) && OnePlaceEach(q, facts) && 0 < k <= |Listing(q, c, facts)|
    ensures
      var l := Listing(q, c, facts);
      Listing(q, Cursor(l[k-1].at, l[k-1].id), facts) == l[k..]
  {
    var l := Listing(q, c, facts);
    var d := Cursor(l[k-1].at, l[k-1].id);
    ListingIs(q, c, facts);
    ListingIs(q, d, facts);
    SuffixOf(l, k);
    assert l[k-1] in l;
    forall f ensures f in Listing(q, d, facts) <==> f in l[k..] {
      if Past(d, f) && Past(c, l[k-1]) { PastPast(c, l[k-1], f); }
    }
    DescendingUnique(Listing(q, d, facts), l[k..]);
  }

  lemma PastPast(c: Cursor, f: Fact, g: Fact)
    requires Past(c, f) && Above(f, g)
    ensures Past(c, g)
  {
    if g.at == f.at == c.at { LessTransitive(g.id, f.id, c.id); }
  }

  // ----- whole walks -----

  function Min(a: nat, b: nat): nat { if a < b then a else b }

  lemma {:induction false} WalkIs(q: Range, c: Cursor, limit: nat, n: nat, facts: seq<Fact>)
    requires Consistent(facts) && OnePlaceEach(q, facts) && limit > 0
    ensures Walk(q, c, limit, n, facts) == Listing(q, c, facts)[..Min(n * limit, |Listing(q, c, facts)|)]
    decreases n
  {
    var l, page := Listing(q, c, facts), PageAt(q, c, limit, facts);
    PageIs(q, c, limit, facts);
    if n == 0 || page == [] {
      WalkStops(q, c, limit, n, facts);
      NothingTaken(limit, n, l);
    } else {
      var k := |page|;
      LastOfPrefix(l, k);
      var d := Cursor(l[k-1].at, l[k-1].id);
      WalkOn(q, c, limit, n, facts, page, d);
      NextListing(q, c, facts, k);
      WalkIs(q, d, limit, n - 1, facts);
      PageAndRest(l, limit, n, Walk(q, d, limit, n - 1, facts));
    }
  }

  lemma WalkStops(q: Range, c: Cursor, limit: nat, n: nat, facts: seq<Fact>)
    requires n == 0 || PageAt(q, c, limit, facts) == []
    ensures Walk(q, c, limit, n, facts) == []
  {
  }

  lemma NothingTaken(limit: nat, n: nat, l: seq<Fact>)
    requires n == 0 || l[..Min(limit, |l|)] == []
    requires limit > 0
    ensures l[..Min(n * limit, |l|)] == []
  {
    if n == 0 { assert n * limit == 0; } else { assert |l[..Min(limit, |l|)]| == Min(limit, |l|); }
  }

  /** The first page and then `n - 1` pages of the rest are `n` pages. */
  lemma PageAndRest(l: seq<Fact>, limit: nat, n: nat, rest: seq<Fact>)
    requires n > 0
    requires var k := Min(limit, |l|); rest == l[k..][..Min((n - 1) * limit, |l| - k)]
    ensures l[..Min(limit, |l|)] + rest == l[..Min(n * limit, |l|)]
  {
    FirstPageTaken(n, limit, |l|);
    PrefixOfRest(l, Min(limit, |l|), |rest|);
  }

  /** A walk is its first page and the walk from the page's last row. */
  lemma WalkOn(q: Range, c: Cursor, limit: nat, n: nat, facts: seq<Fact>, page: seq<Fact>, d: Cursor)
    requires n > 0 && page == PageAt(q, c, limit, facts) && page != []
    requires d == After(page)
    ensures Walk(q, c, limit, n, facts) == page + Walk(q, d, limit, n - 1, facts)
  {
  }

  lemma PageIs(q: Range, c: Cursor, limit: nat, facts: seq<Fact>)
    ensures PageAt(q, c, limit, facts) == Listing(q, c, facts)[..Min(limit, |Listing(q, c, facts)|)]
  {
  }

  lemma LastOfPrefix(l: seq<Fact>, k: nat)
    requires 0 < k <= |l|
    ensures |l[..k]| == k && l[..k][k-1] == l[k-1]
  {
  }

  lemma FirstPageTaken(n: nat, limit: nat, total: nat)
    requires n > 0
    ensures Min(n * limit, total) == Min(limit, total) + Min((n - 1) * limit, total - Min(limit, total))
  {
    assert n * limit == (n - 1) * limit + limit;
  }

  lemma PrefixOfRest(l: seq<Fact>, k: nat, m: nat)
    requires k <= |l| && m <= |l| - k
    ensures l[..k] + l[k..][..m] == l[..k + m]
  {
  }

  /** From the first cursor, the list is every current row of the range. */
  lemma FirstListing(q: Range, facts: seq<Fact>)
    requires Consistent(facts)
    ensures forall f :: f in Listing(q, First(q), facts) <==> Current(q, facts, f)
  {
    ListingIs(q, First(q), facts);
  }

  /**
   Without the join: from the first cursor, `n` pages hold exactly the first `n * limit` rows of the range's
   descending list of its current rows; enough pages hold it all.
   */
  lemma {:induction false} FactsComplete(q: Range, limit: nat, n: nat, facts: seq<Fact>)
    requires Consistent(facts) && OnePlaceEach(q, facts) && limit > 0
    ensures
      var list, walk := Listing(q, First(q), facts), Walk(q, First(q), limit, n, facts);
      && Descending(list) && (forall f :: f in list <==> Current(q, facts, f))
      && walk == list[..Min(n * limit, |list|)]
      && (n >= |list| ==> walk == list)
  {
    FirstListing(q, facts);
    ListingIs(q, First(q), facts);
    WalkIs(q, First(q), limit, n, facts);
    PagesReach(n, limit);
  }

  lemma {:induction false} PagesReach(n: nat, limit: nat)
    requires limit > 0
    ensures n * limit >= n
  {
    if n > 0 {
      PagesReach(n - 1, limit);
      assert n * limit == (n - 1) * limit + limit;
    }
  }

  // ----- when places are shared -----

  /** With one row a page, every row lies strictly past the cursor it was asked with. */
  lemma {:induction false} SingleRowsPast(q: Range, c: Cursor, n: nat, facts: seq<Fact>)
    requires Consistent(facts)
    ensures forall f :: f in Walk(q, c, 1, n, facts) ==> Past(c, f)
    ensures Apart(Walk(q, c, 1, n, facts))
    decreases n
  {
    var page := PageAt(q, c, 1, facts);
    if n > 0 && page != [] {
      var last := page[0];
      var d := Cursor(last.at, last.id);
      ListingIs(q, c, facts);
      assert last in Listing(q, c, facts);
      assert page == [last];
      SingleRowsPast(q, d, n - 1, facts);
      var rest := Walk(q, d, 1, n - 1, facts);
      forall f | f in rest ensures Past(c, f) && !SamePlace(last, f) {
        PastPast(c, last, f);
        LessIrreflexive(f.id);
      }
    }
  }

  /**
   Without the join, every page size reaches every current row exactly when no two objects of the range share
   an instant and an id (the provider, which also tells objects apart, is not part of the cursor).
   */
  lemma {:induction false} CompleteExactlyWhenPlacesDiffer(q: Range, facts: seq<Fact>)
    requires Consistent(facts)
    ensures OnePlaceEach(q, facts) <==>
      forall limit: nat :: limit > 0 ==> EventuallyAll(q, limit, facts)
  {
    if OnePlaceEach(q, facts) {
      forall limit: nat | limit > 0 ensures EventuallyAll(q, limit, facts) {
        var n := |Listing(q, First(q), facts)|;
        FactsComplete(q, limit, n, facts);
        assert HoldsAll(q, limit, n, facts);
      }
    } else {
      var f, g :| Current(q, facts, f) && Current(q, facts, g) && SamePlace(f, g) && f != g;
      forall n: nat ensures !HoldsAll(q, 1, n, facts) {
        SingleRowsPast(q, First(q), n, facts);
      }
      assert !EventuallyAll(q, 1, facts);
    }
  }

  ghost predicate HoldsAll(q: Range, limit: nat, n: nat, facts: seq<Fact>) {
    forall f :: Current(q, facts, f) ==> f in Walk(q, First(q), limit, n, facts)
  }

  ghost predicate EventuallyAll(q: Range, limit: nat, facts: seq<Fact>) {
    exists n: nat :: HoldsAll(q, limit, n, facts)
  }

  // ----- the join -----

  /** One stored version of a money object's attribution. */
  datatype Attribution = Attribution(site: nat, provider: string, id: string, version: int, at: int, content: string)

  /** A row of the list: a fact and, when it has one, an attribution that shares its id. */
  datatype Row = Row(fact: Fact, attribution: Option<Attribution>)

  predicate AttributionInRange(q: Range, a: Attribution) { a.site == q.site && q.from <= a.at < q.until }

  predicate NewestOfGroup(a: Attribution, attributions: seq<Attribution>) {
    forall i :: 0 <= i < |attributions| && attributions[i].provider == a.provider && attributions[i].id == a.id ==>
      attributions[i].version <= a.version
  }

  function AttributionsIn(q: Range, attributions: seq<Attribution>): seq<Attribution> {
    if attributions == [] then []
    else if AttributionInRange(q, attributions[0]) then [attributions[0]] + AttributionsIn(q, attributions[1..])
    else AttributionsIn(q, attributions[1..])
  }

  /** `GROUP BY` provider and object: of `todo`, the rows newest in `all`, each once. */
  function Grouped(todo: seq<Attribution>, all: seq<Attribution>): seq<Attribution> {
    if todo == [] then []
    else if todo[0] !in todo[1..] && NewestOfGroup(todo[0], all) then [todo[0]] + Grouped(todo[1..], all)
    else Grouped(todo[1..], all)
  }

  function Groups(q: Range, attributions: seq<Attribution>): seq<Attribution> {
    var rows := AttributionsIn(q, attributions);
    Grouped(rows, rows)
  }

  /** The join condition names the object's id alone. */
  function Matching(id: string, groups: seq<Attribution>): seq<Attribution> {
    if groups == [] then []
    else if groups[0].id == id then [groups[0]] + Matching(id, groups[1..])
    else Matching(id, groups[1..])
  }

  function Beside(f: Fact, attributions: seq<Attribution>): seq<Row> {
    if attributions == [] then [] else [Row(f, Some(attributions[0]))] + Beside(f, attributions[1..])
  }

  /** `LEFT JOIN`: a row for each match, or one without. */
  function JoinOne(f: Fact, groups: seq<Attribution>): seq<Row> {
    var matching := Matching(f.id, groups);
    if matching == [] then [Row(f, None)] else Beside(f, matching)
  }

  function Joined(list: seq<Fact>, groups: seq<Attribution>): seq<Row> {
    if list == [] then [] else JoinOne(list[0], groups) + Joined(list[1..], groups)
  }

  function Cut<T>(rows: seq<T>, limit: nat): seq<T> { if |rows| <= limit then rows else rows[..limit] }

  /** The statement: the limit counts joined rows. */
  function Page(q: Range, c: Cursor, limit: nat, facts: seq<Fact>, attributions: seq<Attribution>): seq<Row> {
    Cut(Joined(Listing(q, c, facts), Groups(q, attributions)), limit)
  }

  function Pages(
    q: Range, c: Cursor, limit: nat, n: nat, facts: seq<Fact>, attributions: seq<Attribution>): seq<Row>
    decreases n
  {
    if n == 0 then []
    else
      var page := Page(q, c, limit, facts, attributions);
      if page == [] then []
      else page + Pages(q, AfterRows(page), limit, n - 1, facts, attributions)
  }

  function AfterRows(page: seq<Row>): Cursor
    requires page != []
  {
    Cursor(page[|page|-1].fact.at, page[|page|-1].fact.id)
  }

  function FactsOf(rows: seq<Row>): seq<Fact> {
    if rows == [] then [] else [rows[0].fact] + FactsOf(rows[1..])
  }

  function Times(f: Fact, list: seq<Fact>): nat {
    if list == [] then 0 else (if list[0] == f then 1 else 0) + Times(f, list[1..])
  }

  predicate SameVersion(a: Attribution, b: Attribution) {
    a.site == b.site && a.provider == b.provider && a.id == b.id && a.version == b.version
  }

  /** The attribution is in the range and names `id`. */
  predicate Names(q: Range, a: Attribution, id: string) { AttributionInRange(q, a) && a.id == id }

  /** An attribution's version names one row. */
  ghost predicate ConsistentAttributions(attributions: seq<Attribution>) {
    forall a, b :: a in attributions && b in attributions && SameVersion(a, b) ==> a == b
  }

  /** All attributions of the range that name `id` come from one provider. */
  ghost predicate OneProvider(q: Range, id: string, attributions: seq<Attribution>) {
    forall a, b :: a in attributions && b in attributions && Names(q, a, id) && Names(q, b, id) ==>
      a.provider == b.provider
  }

  ghost predicate OneProviderEach(q: Range, facts: seq<Fact>, attributions: seq<Attribution>) {
    forall f :: Current(q, facts, f) ==> OneProvider(q, f.id, attributions)
  }

  // ----- how many attributions an object joins -----

  lemma {:induction false} AttributionsInIs(q: Range, attributions: seq<Attribution>)
    ensures forall a :: a in AttributionsIn(q, attributions) <==> a in attributions && AttributionInRange(q, a)
  {
    if attributions != [] {
      AttributionsInIs(q, attributions[1..]);
      assert attributions == [attributions[0]] + attributions[1..];
    }
  }

  lemma {:induction false} GroupedIs(todo: seq<Attribution>, all: seq<Attribution>)
    ensures forall a :: a in Grouped(todo, all) <==> a in todo && NewestOfGroup(a, all)
    ensures forall i, j :: 0 <= i < j < |Grouped(todo, all)| ==> Grouped(todo, all)[i] != Grouped(todo, all)[j]
  {
    if todo != [] {
      assert todo == [todo[0]] + todo[1..];
      GroupedIs(todo[1..], all);
    }
  }

  lemma {:induction false} MatchingIs(id: string, groups: seq<Attribution>)
    requires forall i, j :: 0 <= i < j < |groups| ==> groups[i] != groups[j]
    ensures forall a :: a in Matching(id, groups) <==> a in groups && a.id == id
    ensures forall i, j :: 0 <= i < j < |Matching(id, groups)| ==> Matching(id, groups)[i] != Matching(id, groups)[j]
  {
    if groups != [] {
      var rest := groups[1..];
      assert groups == [groups[0]] + rest;
      assert forall i :: 0 <= i < |rest| ==> rest[i] == groups[i+1];
      MatchingIs(id, rest);
      assert groups[0] !in rest;
    }
  }

  lemma GroupsAre(q: Range, id: string, attributions: seq<Attribution>)
    ensures
      var rows, m := AttributionsIn(q, attributions), Matching(id, Groups(q, attributions));
      && (forall a :: a in m <==> a in rows && a.id == id && NewestOfGroup(a, rows))
      && forall i, j :: 0 <= i < j < |m| ==> m[i] != m[j]
  {
    var rows := AttributionsIn(q, attributions);
    GroupedIs(rows, rows);
    MatchingIs(id, Groups(q, attributions));
  }

  /** The newest row of an attribution's group. */
  lemma {:induction false} NewestExists(a: Attribution, rows: seq<Attribution>) returns (b: Attribution)
    requires a in rows
    ensures b in rows && b.provider == a.provider && b.id == a.id && NewestOfGroup(b, rows)
    ensures b.version >= a.version
    decreases |rows|
  {
    assert rows == [rows[0]] + rows[1..];
    var head := rows[0];
    if a in rows[1..] {
      b := NewestExists(a, rows[1..]);
      if head.provider == a.provider && head.id == a.id && head.version > b.version { b := head; }
    } else if c :| c in rows[1..] && c.provider == a.provider && c.id == a.id {
      b := NewestExists(c, rows[1..]);
      if a.version > b.version { b := a; }
    } else {
      b := a;
    }
    forall i | 0 <= i < |rows| && rows[i].provider == b.provider && rows[i].id == b.id
      ensures rows[i].version <= b.version
    {
      if i > 0 { assert rows[i] == rows[1..][i-1]; }
    }
  }

  /** An object joins at most one attribution exactly when one provider names its id. */
  lemma OneMatchExactly(q: Range, id: string, attributions: seq<Attribution>)
    requires ConsistentAttributions(attributions)
    ensures |Matching(id, Groups(q, attributions))| <= 1 <==> OneProvider(q, id, attributions)
  {
    var rows, m := AttributionsIn(q, attributions), Matching(id, Groups(q, attributions));
    AttributionsInIs(q, attributions);
    GroupsAre(q, id, attributions);
    if OneProvider(q, id, attributions) && |m| > 1 {
      assert m[0] in m && m[1] in m;
      SameNewest(q, m[0], m[1], attributions);
    }
    if |m| <= 1 {
      forall a, b | a in attributions && b in attributions && Names(q, a, id) && Names(q, b, id)
        ensures a.provider == b.provider
      {
        var na := NewestExists(a, rows);
        var nb := NewestExists(b, rows);
        assert na in m && nb in m;
      }
    }
  }

  lemma SameNewest(q: Range, a: Attribution, b: Attribution, attributions: seq<Attribution>)
    requires ConsistentAttributions(attributions)
    requires
      var rows := AttributionsIn(q, attributions);
      && a in rows && b in rows && NewestOfGroup(a, rows) && NewestOfGroup(b, rows)
      && a.provider == b.provider && a.id == b.id
    ensures a == b
  {
    var rows := AttributionsIn(q, attributions);
    AttributionsInIs(q, attributions);
    var i :| 0 <= i < |rows| && rows[i] == a;
    var j :| 0 <= j < |rows| && rows[j] == b;
    assert rows[j].version <= a.version && rows[i].version <= b.version;
  }

  // ----- pages of joined rows -----

  lemma {:induction false} BesideIs(f: Fact, attributions: seq<Attribution>)
    ensures |Beside(f, attributions)| == |attributions|
    ensures forall i :: 0 <= i < |attributions| ==> Beside(f, attributions)[i] == Row(f, Some(attributions[i]))
  {
    if attributions != [] { BesideIs(f, attributions[1..]); }
  }

  lemma JoinOneIs(f: Fact, groups: seq<Attribution>)
    ensures |JoinOne(f, groups)| >= 1 && forall i :: 0 <= i < |JoinOne(f, groups)| ==> JoinOne(f, groups)[i].fact == f
    ensures |JoinOne(f, groups)| == if |Matching(f.id, groups)| <= 1 then 1 else |Matching(f.id, groups)|
  {
    BesideIs(f, Matching(f.id, groups));
  }

  /** Each of the facts joins at most one group. */
  ghost predicate JoinsOnce(list: seq<Fact>, groups: seq<Attribution>) {
    forall f :: f in list ==> |Matching(f.id, groups)| <= 1
  }

  lemma {:induction false} JoinedOnce(list: seq<Fact>, groups: seq<Attribution>)
    requires JoinsOnce(list, groups)
    ensures |Joined(list, groups)| == |list|
    ensures forall i :: 0 <= i < |list| ==> [Joined(list, groups)[i]] == JoinOne(list[i], groups)
  {
    if list != [] {
      assert list == [list[0]] + list[1..];
      JoinedOnce(list[1..], groups);
      JoinOneIs(list[0], groups);
      assert JoinOne(list[0], groups) == [JoinOne(list[0], groups)[0]];
    }
  }

  lemma {:induction false} FactsOfIs(rows: seq<Row>)
    ensures |FactsOf(rows)| == |rows| && forall i :: 0 <= i < |rows| ==> FactsOf(rows)[i] == rows[i].fact
  {
    if rows != [] { FactsOfIs(rows[1..]); }
  }

  lemma {:induction false} FactsOfAppend(a: seq<Row>, b: seq<Row>)
    ensures FactsOf(a + b) == FactsOf(a) + FactsOf(b)
  {
    if a == [] {
      assert a + b == b;
    } else {
      assert (a + b)[1..] == a[1..] + b;
      FactsOfAppend(a[1..], b);
    }
  }

  /** When nothing is joined twice, or a page is one row, a page's facts are the page of facts. */
  lemma PageFacts(q: Range, c: Cursor, limit: nat, facts: seq<Fact>, attributions: seq<Attribution>)
    requires limit == 1 || JoinsOnce(Listing(q, c, facts), Groups(q, attributions))
    ensures FactsOf(Page(q, c, limit, facts, attributions)) == PageAt(q, c, limit, facts)
  {
    var list, groups := Listing(q, c, facts), Groups(q, attributions);
    var rows := Joined(list, groups);
    FactsOfIs(Cut(rows, limit));
    if JoinsOnce(list, groups) {
      JoinedOnce(list, groups);
      forall i | 0 <= i < |list| ensures rows[i].fact == list[i] {
        JoinOneIs(list[i], groups);
        assert [rows[i]][0] == rows[i];
      }
    } else if list != [] {
      JoinOneIs(list[0], groups);
    }
  }

  ghost predicate AllJoinOnce(q: Range, facts: seq<Fact>, attributions: seq<Attribution>) {
    forall f :: Current(q, facts, f) ==> |Matching(f.id, Groups(q, attributions))| <= 1
  }

  lemma ListingJoinsOnce(q: Range, c: Cursor, facts: seq<Fact>, attributions: seq<Attribution>)
    requires Consistent(facts) && AllJoinOnce(q, facts, attributions)
    ensures JoinsOnce(Listing(q, c, facts), Groups(q, attributions))
  {
    ListingIs(q, c, facts);
  }

  lemma {:induction false} PagesFacts(
    q: Range, c: Cursor, limit: nat, n: nat, facts: seq<Fact>, attributions: seq<Attribution>)
    requires Consistent(facts) && (limit == 1 || AllJoinOnce(q, facts, attributions))
    ensures FactsOf(Pages(q, c, limit, n, facts, attributions)) == Walk(q, c, limit, n, facts)
    decreases n
  {
    if n > 0 {
      SamePage(q, c, limit, facts, attributions);
      var page, plain := Page(q, c, limit, facts, attributions), PageAt(q, c, limit, facts);
      SameLast(page, plain);
      if page != [] {
        var d := Cursor(plain[|plain|-1].at, plain[|plain|-1].id);
        PagesFacts(q, d, limit, n - 1, facts, attributions);
        PagesOn(q, c, limit, n, facts, attributions, page, d);
        FactsOfAppend(page, Pages(q, d, limit, n - 1, facts, attributions));
      }
    }
  }

  lemma PagesOn(q: Range, c: Cursor, limit: nat, n: nat, facts: seq<Fact>, attributions: seq<Attribution>,
                page: seq<Row>, d: Cursor)
    requires n > 0 && page == Page(q, c, limit, facts, attributions) && page != []
    requires d == AfterRows(page)
    ensures Pages(q, c, limit, n, facts, attributions) == page + Pages(q, d, limit, n - 1, facts, attributions)
  {
  }

  lemma SamePage(q: Range, c: Cursor, limit: nat, facts: seq<Fact>, attributions: seq<Attribution>)
    requires Consistent(facts) && (limit == 1 || AllJoinOnce(q, facts, attributions))
    ensures FactsOf(Page(q, c, limit, facts, attributions)) == PageAt(q, c, limit, facts)
  {
    if limit != 1 { ListingJoinsOnce(q, c, facts, attributions); }
    PageFacts(q, c, limit, facts, attributions);
  }

  lemma SameLast(rows: seq<Row>, list: seq<Fact>)
    requires FactsOf(rows) == list
    ensures |rows| == |list| && (list != [] ==> rows[|rows|-1].fact == list[|list|-1])
  {
    FactsOfIs(rows);
  }

  lemma {:induction false} OnceInDescending(f: Fact, list: seq<Fact>)
    requires Descending(list)
    ensures Times(f, list) == if f in list then 1 else 0
  {
    if list != [] {
      TailMembers(list);
      OnceInDescending(f, list[1..]);
    }
  }

  /** After `n` pages every current row has been listed once. */
  ghost predicate HoldsEachOnce(
    q: Range, limit: nat, n: nat, facts: seq<Fact>, attributions: seq<Attribution>)
  {
    forall f :: Current(q, facts, f) ==> Times(f, FactsOf(Pages(q, First(q), limit, n, facts, attributions))) == 1
  }

  ghost predicate ListsEachOnce(q: Range, limit: nat, facts: seq<Fact>, attributions: seq<Attribution>) {
    exists n: nat :: HoldsEachOnce(q, limit, n, facts, attributions)
  }

  lemma AllJoinOnceExactly(q: Range, facts: seq<Fact>, attributions: seq<Attribution>)
    requires ConsistentAttributions(attributions)
    ensures AllJoinOnce(q, facts, attributions) <==> OneProviderEach(q, facts, attributions)
  {
    forall f: Fact ensures |Matching(f.id, Groups(q, attributions))| <= 1 <==> OneProvider(q, f.id, attributions) {
      OneMatchExactly(q, f.id, attributions);
    }
  }

  /**
   Keyset pagination is complete: with one place for each object and one provider's attributions for each id,
   the facts of `n` pages are the first `n * limit` of the range's descending list, and once `n` reaches the
   list's length every current row has been listed once.
   */
  lemma {:induction false} PaginationIsComplete(
    q: Range, limit: nat, n: nat, facts: seq<Fact>, attributions: seq<Attribution>)
    requires Consistent(facts) && ConsistentAttributions(attributions) && limit > 0
    requires OnePlaceEach(q, facts) && OneProviderEach(q, facts, attributions)
    ensures
      var list := Listing(q, First(q), facts);
      && FactsOf(Pages(q, First(q), limit, n, facts, attributions)) == list[..Min(n * limit, |list|)]
      && (n >= |list| ==> HoldsEachOnce(q, limit, n, facts, attributions))
  {
    AllJoinOnceExactly(q, facts, attributions);
    PagesFacts(q, First(q), limit, n, facts, attributions);
    FactsComplete(q, limit, n, facts);
    var list := Listing(q, First(q), facts);
    if n >= |list| {
      forall f | Current(q, facts, f) ensures Times(f, list) == 1 { OnceInDescending(f, list); }
    }
  }

  // ----- exactly when -----

  lemma {:induction false} TimesPositive(f: Fact, list: seq<Fact>)
    ensures Times(f, list) > 0 <==> f in list
  {
    if list != [] {
      assert list == [list[0]] + list[1..];
      TimesPositive(f, list[1..]);
    }
  }

  lemma {:induction false} TimesAppend(f: Fact, a: seq<Fact>, b: seq<Fact>)
    ensures Times(f, a + b) == Times(f, a) + Times(f, b)
  {
    if a == [] {
      assert a + b == b;
    } else {
      assert (a + b)[1..] == a[1..] + b;
      TimesAppend(f, a[1..], b);
    }
  }

  lemma {:induction false} TimesAll(f: Fact, list: seq<Fact>)
    requires forall i :: 0 <= i < |list| ==> list[i] == f
    ensures Times(f, list) == |list|
  {
    if list != [] { TimesAll(f, list[1..]); }
  }

  /** One row a page never lists two objects of one place. */
  lemma SharedPlaceMissed(q: Range, n: nat, facts: seq<Fact>, attributions: seq<Attribution>)
    requires Consistent(facts) && !OnePlaceEach(q, facts)
    ensures !HoldsEachOnce(q, 1, n, facts, attributions)
  {
    var f, g :| Current(q, facts, f) && Current(q, facts, g) && SamePlace(f, g) && f != g;
    PagesFacts(q, First(q), 1, n, facts, attributions);
    SingleRowsPast(q, First(q), n, facts);
    var walk := Walk(q, First(q), 1, n, facts);
    TimesPositive(f, walk);
    TimesPositive(g, walk);
  }

  /** In the whole joined list a fact stands as often as it joins. */
  lemma {:induction false} JoinedTimes(f: Fact, list: seq<Fact>, groups: seq<Attribution>)
    requires f in list
    ensures Times(f, FactsOf(Joined(list, groups))) >= |JoinOne(f, groups)|
  {
    assert list == [list[0]] + list[1..];
    var one, rest := JoinOne(list[0], groups), Joined(list[1..], groups);
    FactsOfAppend(one, rest);
    TimesAppend(f, FactsOf(one), FactsOf(rest));
    if list[0] == f {
      JoinOneIs(f, groups);
      FactsOfIs(one);
      TimesAll(f, FactsOf(one));
    } else {
      JoinedTimes(f, list[1..], groups);
    }
  }

  /** A page long enough for everything lists a fact as often as it joins. */
  lemma LongPageRepeats(q: Range, f: Fact, n: nat, facts: seq<Fact>, attributions: seq<Attribution>) returns (limit: nat)
    requires Consistent(facts) && Current(q, facts, f)
    requires |Matching(f.id, Groups(q, attributions))| > 1
    ensures limit == |Joined(Listing(q, First(q), facts), Groups(q, attributions))| && limit > 0
    ensures !HoldsEachOnce(q, limit, n, facts, attributions)
  {
    var list, groups := Listing(q, First(q), facts), Groups(q, attributions);
    FirstListing(q, facts);
    JoinedTimes(f, list, groups);
    JoinOneIs(f, groups);
    var rows := Joined(list, groups);
    limit := |rows|;
    FactsOfIs(rows);
    if n > 0 {
      var last := rows[|rows|-1].fact;
      var d := Cursor(last.at, last.id);
      PagesOn(q, First(q), limit, n, facts, attributions, rows, d);
      TimesGrow(f, rows, Pages(q, d, limit, n - 1, facts, attributions));
    }
  }

  lemma TimesGrow(f: Fact, rows: seq<Row>, more: seq<Row>)
    ensures Times(f, FactsOf(rows + more)) >= Times(f, FactsOf(rows))
  {
    FactsOfAppend(rows, more);
    TimesAppend(f, FactsOf(rows), FactsOf(more));
  }

  /**
   Every page size lists every current row once exactly when no two objects of the range share an instant and
   an id, and no id of theirs has attributions from two providers (the provider, which tells objects apart, is
   part of neither the cursor nor the join).
   */
  lemma {:induction false} CompleteExactlyWhen(q: Range, facts: seq<Fact>, attributions: seq<Attribution>)
    requires Consistent(facts) && ConsistentAttributions(attributions)
    ensures (forall limit: nat :: limit > 0 ==> ListsEachOnce(q, limit, facts, attributions))
      <==> OnePlaceEach(q, facts) && OneProviderEach(q, facts, attributions)
  {
    AllJoinOnceExactly(q, facts, attributions);
    if OnePlaceEach(q, facts) && OneProviderEach(q, facts, attributions) {
      forall limit: nat | limit > 0 ensures ListsEachOnce(q, limit, facts, attributions) {
        var n := |Listing(q, First(q), facts)|;
        PaginationIsComplete(q, limit, n, facts, attributions);
      }
    } else if !OnePlaceEach(q, facts) {
      forall n: nat ensures !HoldsEachOnce(q, 1, n, facts, attributions) {
        SharedPlaceMissed(q, n, facts, attributions);
      }
      assert !ListsEachOnce(q, 1, facts, attributions);
    } else {
      RepeatedSomewhere(q, facts, attributions);
    }
  }

  lemma RepeatedSomewhere(q: Range, facts: seq<Fact>, attributions: seq<Attribution>)
    requires Consistent(facts) && !AllJoinOnce(q, facts, attributions)
    ensures exists limit: nat :: limit > 0 && !ListsEachOnce(q, limit, facts, attributions)
  {
    var f :| Current(q, facts, f) && |Matching(f.id, Groups(q, attributions))| > 1;
    var limit := LongPageRepeats(q, f, 0, facts, attributions);
    forall n: nat ensures !HoldsEachOnce(q, limit, n, facts, attributions) {
      var l := LongPageRepeats(q, f, n, facts, attributions);
    }
    assert !ListsEachOnce(q, limit, facts, attributions);
  }

  /** A cursor at the epoch, or anywhere not past the range's start, opens no first page but an empty one. */
  lemma {:induction false} EpochIsNoFirstPage(
    q: Range, c: Cursor, limit: nat, facts: seq<Fact>, attributions: seq<Attribution>)
    requires Consistent(facts) && c.at <= q.from && c.id == ""
    ensures Page(q, c, limit, facts, attributions) == []
  {
    var l := Listing(q, c, facts);
    assert l != [] ==> l[0] in l;
    ListingIs(q, c, facts);
  }

  /** Two providers that use one id, at different instants, and an attribution from each. */
  function TwoProviders(): (seq<Fact>, seq<Attribution>) {
    ([Fact(1, "p", "x", 1, 20, ""), Fact(1, "r", "x", 1, 10, "")],
     [Attribution(1, "p", "x", 1, 20, "of p"), Attribution(1, "r", "x", 1, 10, "of r")])
  }

  /** Their places differ, yet each is listed twice, once with the other provider's attribution beside it. */
  lemma TwoProvidersListTwice()
    ensures
      var (facts, attributions) := TwoProviders();
      var q, p, r := Range(1, 0, 100), facts[0], facts[1];
      && Consistent(facts) && ConsistentAttributions(attributions) && OnePlaceEach(q, facts)
      && Page(q, First(q), 201, facts, attributions)
         == [Row(p, Some(attributions[0])), Row(p, Some(attributions[1])),
             Row(r, Some(attributions[0])), Row(r, Some(attributions[1]))]
  {
    var (facts, attributions) := TwoProviders();
    var q, p, r := Range(1, 0, 100), facts[0], facts[1];
    var a, b := attributions[0], attributions[1];
    assert Consistent(facts) && OnePlaceEach(q, facts);
    TwoListed(q, p, r);
    TwoGrouped(q, a, b);
    assert Matching("x", [a, b]) == [a, b] by { assert [a, b][1..] == [b] && [b][1..] == []; }
    BesideTwo(p, a, b);
    BesideTwo(r, a, b);
    assert Joined([p, r], [a, b]) == JoinOne(p, [a, b]) + (JoinOne(r, [a, b]) + []) by {
      assert [p, r][1..] == [r] && [r][1..] == [];
    }
  }

  lemma BesideTwo(f: Fact, a: Attribution, b: Attribution)
    ensures Beside(f, [a, b]) == [Row(f, Some(a)), Row(f, Some(b))]
  {
    BesideIs(f, [a, b]);
  }

  lemma TwoListed(q: Range, p: Fact, r: Fact)
    requires InRange(q, p) && InRange(q, r) && !SameObject(p, r) && p.at > r.at
    requires Consistent([p, r]) && OnePlaceEach(q, [p, r])
    ensures Listing(q, First(q), [p, r]) == [p, r]
  {
    FirstListing(q, [p, r]);
    ListingIs(q, First(q), [p, r]);
    assert Current(q, [p, r], p) && Current(q, [p, r], r);
    DescendingUnique(Listing(q, First(q), [p, r]), [p, r]);
  }

  lemma TwoGrouped(q: Range, a: Attribution, b: Attribution)
    requires AttributionInRange(q, a) && AttributionInRange(q, b) && a.provider != b.provider
    ensures Groups(q, [a, b]) == [a, b]
  {
    assert [a, b][1..] == [b] && [b][1..] == [];
    assert AttributionsIn(q, [b]) == [b] + AttributionsIn(q, [b][1..]);
    assert AttributionsIn(q, [a, b]) == [a] + AttributionsIn(q, [a, b][1..]);
    TwoInGroups(a, b);
  }

  lemma TwoInGroups(a: Attribution, b: Attribution)
    requires a.provider != b.provider
    ensures Grouped([a, b], [a, b]) == [a, b]
  {
    var all := [a, b];
    assert all[1..] == [b] && [b][1..] == [];
    assert NewestOfGroup(a, all) && NewestOfGroup(b, all);
    assert a !in [b] && b !in [b][1..];
    assert Grouped([b], all) == [b] + Grouped([b][1..], all);
    assert Grouped(all, all) == [a] + Grouped(all[1..], all);
  }
}
