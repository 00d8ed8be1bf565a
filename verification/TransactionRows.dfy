/**
 What one row of the transactions list shows (apps/query-gateway/src/operations.ts,
 `revenueTransactionsOperation`): whose charge it is, and which attribution stands beside it.
 */
module TransactionRows {
  import opened Options
  import opened Text
  import opened Transactions

  /** Stored for the site, in the range, for that id. */
  predicate Attributes(q: Range, a: Attribution, id: string) {
    a.site == q.site && q.from <= a.at < q.until && a.id == id
  }

  /** No version of it in the range is newer. */
  ghost predicate Latest(q: Range, a: Attribution, attributions: seq<Attribution>) {
    forall b :: b in attributions && Attributes(q, b, a.id) && b.provider == a.provider ==> b.version <= a.version
  }

  /** A charge of the site and the range, in its newest version, strictly after the cursor. */
  ghost predicate Listed(q: Range, c: Cursor, f: Fact, facts: seq<Fact>) {
    && f in facts && f.site == q.site && q.from <= f.at < q.until
    && (f.at < c.at || (f.at == c.at && Less(f.id, c.id)))
    && forall g :: g in facts && g.site == f.site && g.provider == f.provider && g.id == f.id ==> g.version <= f.version
  }

  /** The row's attribution names its charge and is the newest of its provider; a row without one has none to show. */
  ghost predicate ShowsItsAttribution(q: Range, row: Row, attributions: seq<Attribution>) {
    match row.attribution
    case Some(a) => a in attributions && Attributes(q, a, row.fact.id) && Latest(q, a, attributions)
    case None => forall b :: b in attributions ==> !Attributes(q, b, row.fact.id)
  }

  lemma MatchesAre(q: Range, id: string, attributions: seq<Attribution>, a: Attribution)
    ensures a in Matching(id, Groups(q, attributions))
      <==> a in attributions && Attributes(q, a, id) && Latest(q, a, attributions)
  {
    var rows := AttributionsIn(q, attributions);
    AttributionsInIs(q, attributions);
    GroupsAre(q, id, attributions);
    if a in rows && a.id == id {
      if NewestOfGroup(a, rows) {
        forall b | b in attributions && Attributes(q, b, a.id) && b.provider == a.provider ensures b.version <= a.version {
          assert b in rows;
        }
      }
      if Latest(q, a, attributions) {
        forall i | 0 <= i < |rows| && rows[i].provider == a.provider && rows[i].id == a.id
          ensures rows[i].version <= a.version
        {
          assert rows[i] in rows;
        }
      }
    }
  }

  lemma NoMatches(q: Range, id: string, attributions: seq<Attribution>)
    ensures Matching(id, Groups(q, attributions)) == [] <==> forall b :: b in attributions ==> !Attributes(q, b, id)
  {
    var m, rows := Matching(id, Groups(q, attributions)), AttributionsIn(q, attributions);
    AttributionsInIs(q, attributions);
    GroupsAre(q, id, attributions);
    if b :| b in attributions && Attributes(q, b, id) {
      var newest := NewestExists(b, rows);
      assert newest in m;
    }
    if m != [] {
      MatchesAre(q, id, attributions, m[0]);
      assert m[0] in m;
    }
  }

  lemma JoinShows(q: Range, f: Fact, attributions: seq<Attribution>, row: Row)
    requires row in JoinOne(f, Groups(q, attributions))
    ensures row.fact == f && ShowsItsAttribution(q, row, attributions)
  {
    var m := Matching(f.id, Groups(q, attributions));
    NoMatches(q, f.id, attributions);
    BesideIs(f, m);
    if m != [] {
      var i :| 0 <= i < |m| && Beside(f, m)[i] == row;
      assert m[i] in m;
      MatchesAre(q, f.id, attributions, m[i]);
    }
  }

  lemma {:induction false} JoinedFrom(list: seq<Fact>, groups: seq<Attribution>, row: Row) returns (f: Fact)
    requires row in Joined(list, groups)
    ensures f in list && row in JoinOne(f, groups)
  {
    assert list == [list[0]] + list[1..];
    if row in JoinOne(list[0], groups) { f := list[0]; } else { f := JoinedFrom(list[1..], groups, row); }
  }

  lemma PageRowIs(q: Range, c: Cursor, limit: nat, facts: seq<Fact>, attributions: seq<Attribution>, row: Row)
    requires Consistent(facts) && row in Page(q, c, limit, facts, attributions)
    ensures Listed(q, c, row.fact, facts) && ShowsItsAttribution(q, row, attributions)
  {
    var f := JoinedFrom(Listing(q, c, facts), Groups(q, attributions), row);
    JoinShows(q, f, attributions, row);
    ListingIs(q, c, facts);
  }

  predicate Behind(c: Cursor, at: int, id: string) { at < c.at || (at == c.at && Less(id, c.id)) }

  lemma BehindTransitive(c: Cursor, d: Cursor, at: int, id: string)
    requires Behind(c, d.at, d.id) && Behind(d, at, id)
    ensures Behind(c, at, id)
  {
    if at == d.at == c.at { LessTransitive(id, d.id, c.id); }
  }

  lemma LastIsBehind(q: Range, c: Cursor, limit: nat, facts: seq<Fact>, attributions: seq<Attribution>, page: seq<Row>)
    requires Consistent(facts) && page == Page(q, c, limit, facts, attributions) && page != []
    ensures Behind(c, AfterRows(page).at, AfterRows(page).id)
  {
    PageRowIs(q, c, limit, facts, attributions, page[|page|-1]);
  }

  lemma PagesGoOn(q: Range, c: Cursor, limit: nat, n: nat, facts: seq<Fact>, attributions: seq<Attribution>, page: seq<Row>)
    returns (next: Cursor, n': nat, rest: seq<Row>)
    requires page == Page(q, c, limit, facts, attributions) && Pages(q, c, limit, n, facts, attributions) != []
    ensures page != [] && next == AfterRows(page) && n' < n && rest == Pages(q, next, limit, n', facts, attributions)
    ensures Pages(q, c, limit, n, facts, attributions) == page + rest
  {
    next, n' := AfterRows(page), n - 1;
    rest := Pages(q, next, limit, n', facts, attributions);
  }

  lemma InRest<T>(all: seq<T>, a: seq<T>, b: seq<T>, x: T)
    requires all == a + b && x in all && x !in a
    ensures x in b
  {
  }

  /** Each row is on a page opened with the first cursor or a later one. */
  lemma {:induction false} RowFrom(
    q: Range, c: Cursor, limit: nat, n: nat, facts: seq<Fact>, attributions: seq<Attribution>, all: seq<Row>, row: Row)
    returns (d: Cursor)
    requires Consistent(facts) && all == Pages(q, c, limit, n, facts, attributions) && row in all
    ensures row in Page(q, d, limit, facts, attributions) && (d == c || Behind(c, d.at, d.id))
    decreases n
  {
    d := c;
    var page := Page(q, c, limit, facts, attributions);
    if row !in page {
      var next, n', rest := PagesGoOn(q, c, limit, n, facts, attributions, page);
      LastIsBehind(q, c, limit, facts, attributions, page);
      InRest(all, page, rest, row);
      d := RowFrom(q, next, limit, n', facts, attributions, rest, row);
      if d != next { BehindTransitive(c, next, d.at, d.id); }
    }
  }

  lemma ListedEarlier(q: Range, c: Cursor, d: Cursor, f: Fact, facts: seq<Fact>)
    requires Listed(q, d, f, facts) && (d == c || Behind(c, d.at, d.id))
    ensures Listed(q, c, f, facts)
  {
    if d != c { BehindTransitive(c, d, f.at, f.id); }
  }

  /**
   Every row of every page: a charge of the site and the range in its newest version, after the cursor the list
   was opened with, beside an attribution of the range that names it and is its provider's newest, or beside none
   exactly when none of the range names it.
   */
  lemma {:induction false} RowIs(
    q: Range, c: Cursor, limit: nat, n: nat, facts: seq<Fact>, attributions: seq<Attribution>, row: Row)
    requires Consistent(facts) && row in Pages(q, c, limit, n, facts, attributions)
    ensures Listed(q, c, row.fact, facts) && ShowsItsAttribution(q, row, attributions)
  {
    var d := RowFrom(q, c, limit, n, facts, attributions, Pages(q, c, limit, n, facts, attributions), row);
    PageRowIs(q, d, limit, facts, attributions, row);
    ListedEarlier(q, c, d, row.fact, facts);
  }

  // ----- nothing left out -----

  lemma {:induction false} JoinedHolds(list: seq<Fact>, groups: seq<Attribution>, f: Fact, row: Row)
    requires f in list && row in JoinOne(f, groups)
    ensures row in Joined(list, groups)
  {
    assert list == [list[0]] + list[1..];
    if f != list[0] { JoinedHolds(list[1..], groups, f, row); }
  }

  /** A page below its limit leaves nothing out: every charge after the cursor, beside each of its attributions. */
  lemma {:induction false} ShortPageHoldsAll(
    q: Range, c: Cursor, limit: nat, facts: seq<Fact>, attributions: seq<Attribution>, row: Row)
    requires Consistent(facts) && |Page(q, c, limit, facts, attributions)| < limit
    ensures row in Page(q, c, limit, facts, attributions)
      <==> Listed(q, c, row.fact, facts) && ShowsItsAttribution(q, row, attributions)
  {
    var list, groups := Listing(q, c, facts), Groups(q, attributions);
    assert Page(q, c, limit, facts, attributions) == Joined(list, groups);
    if row in Page(q, c, limit, facts, attributions) { PageRowIs(q, c, limit, facts, attributions, row); }
    if Listed(q, c, row.fact, facts) && ShowsItsAttribution(q, row, attributions) {
      ListingIs(q, c, facts);
      RowJoined(q, row, attributions);
      JoinedHolds(list, groups, row.fact, row);
    }
  }

  lemma RowJoined(q: Range, row: Row, attributions: seq<Attribution>)
    requires ShowsItsAttribution(q, row, attributions)
    ensures row in JoinOne(row.fact, Groups(q, attributions))
  {
    var f, m := row.fact, Matching(row.fact.id, Groups(q, attributions));
    NoMatches(q, f.id, attributions);
    BesideIs(f, m);
    if row.attribution.Some? {
      MatchesAre(q, f.id, attributions, row.attribution.value);
      var i :| 0 <= i < |m| && m[i] == row.attribution.value;
      assert Beside(f, m)[i] == row;
    }
  }

  // ----- all pages -----

  /** The site's charges of the range, each in its newest version. */
  ghost predicate InEffect(q: Range, facts: seq<Fact>, f: Fact) {
    && f in facts && f.site == q.site && q.from <= f.at < q.until
    && forall g :: g in facts && g.site == f.site && g.provider == f.provider && g.id == f.id ==> g.version <= f.version
  }

  /** Newest first, and at one instant by id from the top. */
  predicate NewestFirst(list: seq<Fact>) {
    forall i, j :: 0 <= i < j < |list| ==>
      list[i].at > list[j].at || (list[i].at == list[j].at && Less(list[j].id, list[i].id))
  }

  predicate Attributed(q: Range, a: Attribution, f: Fact, attributions: seq<Attribution>) {
    a in attributions && Attributes(q, a, f.id)
  }

  /** One object for each instant and id, and for each id attributions of one provider. */
  ghost predicate NothingShared(q: Range, facts: seq<Fact>, attributions: seq<Attribution>) {
    && (forall f, g :: InEffect(q, facts, f) && InEffect(q, facts, g) && f.at == g.at && f.id == g.id ==> f == g)
    && forall f, a, b ::
         InEffect(q, facts, f) && Attributed(q, a, f, attributions) && Attributed(q, b, f, attributions) ==>
           a.provider == b.provider
  }

  lemma InEffectIs(q: Range, facts: seq<Fact>, f: Fact)
    ensures InEffect(q, facts, f) <==> Current(q, facts, f)
  {
  }

  lemma NothingSharedIs(q: Range, facts: seq<Fact>, attributions: seq<Attribution>)
    ensures NothingShared(q, facts, attributions)
      <==> OnePlaceEach(q, facts) && OneProviderEach(q, facts, attributions)
  {
    forall f ensures InEffect(q, facts, f) <==> Current(q, facts, f) { InEffectIs(q, facts, f); }
    if NothingShared(q, facts, attributions) {
      forall f | Current(q, facts, f) ensures OneProvider(q, f.id, attributions) {
        forall a, b | a in attributions && b in attributions && Names(q, a, f.id) && Names(q, b, f.id)
          ensures a.provider == b.provider
        {
          assert Attributed(q, a, f, attributions) && Attributed(q, b, f, attributions);
        }
      }
    }
    if OneProviderEach(q, facts, attributions) {
      forall f, a, b
        | InEffect(q, facts, f) && Attributed(q, a, f, attributions) && Attributed(q, b, f, attributions)
        ensures a.provider == b.provider
      {
        assert OneProvider(q, f.id, attributions) && Names(q, a, f.id) && Names(q, b, f.id);
      }
    }
  }

  /**
   All pages together, where nothing is shared: the first `n * limit` of the charges in effect, newest first, and
   all of them once `n` reaches their number; each row shows its attribution.
   */
  lemma {:induction false} PagesHoldTheCharges(
    q: Range, limit: nat, n: nat, facts: seq<Fact>, attributions: seq<Attribution>) returns (list: seq<Fact>)
    requires Consistent(facts) && ConsistentAttributions(attributions) && limit > 0
    requires NothingShared(q, facts, attributions)
    ensures NewestFirst(list) && forall f :: f in list <==> InEffect(q, facts, f)
    ensures
      var rows := Pages(q, First(q), limit, n, facts, attributions);
      && |rows| == (if n * limit <= |list| then n * limit else |list|)
      && forall i :: 0 <= i < |rows| ==> rows[i].fact == list[i] && ShowsItsAttribution(q, rows[i], attributions)
  {
    NothingSharedIs(q, facts, attributions);
    PaginationIsComplete(q, limit, n, facts, attributions);
    FactsComplete(q, limit, n, facts);
    list := Listing(q, First(q), facts);
    forall f ensures f in list <==> InEffect(q, facts, f) { InEffectIs(q, facts, f); }
    var rows := Pages(q, First(q), limit, n, facts, attributions);
    FactsOfIs(rows);
    forall i | 0 <= i < |rows| ensures rows[i].fact == list[i] && ShowsItsAttribution(q, rows[i], attributions) {
      assert FactsOf(rows)[i] == list[i];
      assert rows[i] in rows;
      RowIs(q, First(q), limit, n, facts, attributions, rows[i]);
    }
  }
}
