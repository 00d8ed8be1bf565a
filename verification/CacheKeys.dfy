/**
 Cache keys (apps/query-gateway/src/query-cache.ts, `queryCacheKey`): an operation id and its bound
 parameters, keys sorted, values printed as they are.
 */
module CacheKeys {
  import opened Text

  /** Bound parameters; a value is its printed text. */
  type Params = seq<Entry<string>>

  function Pair(e: Entry<string>): string { e.key + "=" + e.value }

  function Pairs(es: Params): seq<string> {
    if es == [] then [] else [Pair(es[0])] + Pairs(es[1..])
  }

  function Canonical(params: Params): string { Join(Pairs(Sort(params)), "&") }

  function QueryCacheKey(operationId: string, params: Params): string {
    operationId + [0 as char] + Canonical(params)
  }

  function Digit(n: nat): char
    requires n < 10
  {
    '0' + n as char
  }

  /** A natural number's decimal text. */
  function Decimal(n: nat): string {
    if n < 10 then [Digit(n)] else Decimal(n / 10) + [Digit(n % 10)]
  }

  /** The route's key: the caller's cache generation in front. */
  function FullKey(epoch: nat, operationId: string, params: Params): string {
    Decimal(epoch) + [0 as char] + QueryCacheKey(operationId, params)
  }

  predicate Lacks(s: string, c: char) { forall i :: 0 <= i < |s| ==> s[i] != c }

  // ----- what a key tells apart -----

  lemma DecimalLength(n: nat)
    ensures Decimal(n) != "" && (|Decimal(n)| == 1 <==> n < 10)
  {
    if n >= 10 { DecimalLength(n / 10); }
  }

  lemma {:induction false} DecimalIs(m: nat, n: nat)
    ensures Decimal(m) != "" && Lacks(Decimal(m), 0 as char)
    ensures Decimal(m) == Decimal(n) ==> m == n
    decreases m + n
  {
    if m >= 10 { DecimalIs(m / 10, n / 10); }
    DecimalLength(m);
    DecimalLength(n);
    if Decimal(m) == Decimal(n) && m >= 10 && n >= 10 {
      assert Decimal(m)[..|Decimal(m)| - 1] == Decimal(m / 10);
      assert Decimal(n)[..|Decimal(n)| - 1] == Decimal(n / 10);
      assert Digit(m % 10) == Digit(n % 10);
      assert m == m / 10 * 10 + m % 10 && n == n / 10 * 10 + n % 10;
    }
  }

  /** Texts without `c` end where the first `c` starts. */
  lemma FirstCut(a: string, b: string, x: string, y: string, c: char)
    requires Lacks(a, c) && Lacks(b, c) && a + x == b + y
    requires (x == "" || x[0] == c) && (y == "" || y[0] == c)
    ensures a == b && x == y
  {
    var s := a + x;
    assert forall k :: 0 <= k < |a| ==> s[k] == a[k];
    assert forall k :: 0 <= k < |b| ==> s[k] == b[k];
    assert |a| < |s| ==> s[|a|] == x[0];
    assert |b| < |s| ==> s[|b|] == y[0];
    assert |a| == |b|;
    assert a == s[..|a|] && x == s[|a|..];
  }

  /** Texts without `c` start where the last `c` ends. */
  lemma LastCut(a: string, b: string, x: string, y: string, c: char)
    requires Lacks(x, c) && Lacks(y, c) && a + [c] + x == b + [c] + y
    ensures a == b && x == y
  {
    var s := a + [c] + x;
    var m, n := |a| + 1, |b| + 1;
    assert s[|a|] == c && s[|b|] == c;
    assert forall k :: m <= k < |s| ==> s[k] == x[k - m];
    assert forall k :: n <= k < |s| ==> s[k] == y[k - n];
    assert |a| == |b|;
    assert a == s[..|a|] && x == s[m..];
  }

  /** Generation, operation and canonical parameters can be read back off a key. */
  lemma {:induction false} FullKeyParts(epoch: nat, id: string, params: Params, epoch': nat, id': string, params': Params)
    requires Lacks(id, 0 as char) && Lacks(id', 0 as char)
    requires FullKey(epoch, id, params) == FullKey(epoch', id', params')
    ensures epoch == epoch' && id == id' && Canonical(params) == Canonical(params')
  {
    var nul := 0 as char;
    DecimalIs(epoch, epoch');
    DecimalIs(epoch', epoch);
    var x, y := QueryCacheKey(id, params), QueryCacheKey(id', params');
    assert FullKey(epoch, id, params) == Decimal(epoch) + ([nul] + x);
    assert FullKey(epoch', id', params') == Decimal(epoch') + ([nul] + y);
    FirstCut(Decimal(epoch), Decimal(epoch'), [nul] + x, [nul] + y, nul);
    assert ([nul] + x)[1..] == x && ([nul] + y)[1..] == y;
    var p, q := Canonical(params), Canonical(params');
    assert x == id + ([nul] + p) && y == id' + ([nul] + q);
    FirstCut(id, id', [nul] + p, [nul] + q, nul);
    assert ([nul] + p)[1..] == p && ([nul] + q)[1..] == q;
  }

  /** Listing the parameters in another order gives the same key. */
  lemma {:induction false} KeyIgnoresOrder(operationId: string, params: Params, params': Params)
    requires DistinctKeys(params) && DistinctKeys(params')
    requires forall e :: e in params <==> e in params'
    ensures QueryCacheKey(operationId, params) == QueryCacheKey(operationId, params')
  {
    SortIs(params);
    SortIs(params');
    SortedUnique(Sort(params), Sort(params'));
  }

  // ----- sites -----

  /**
   `params` binds `names`, in order.  Only the values of `free` names may hold the separator: the others
   are identifiers, instants, numbers and the like.
   */
  ghost predicate Binds(params: Params, names: seq<string>, free: set<string>) {
    && |params| == |names|
    && forall i :: 0 <= i < |names| ==>
         params[i].key == names[i] && (names[i] in free || Lacks(params[i].value, '&'))
  }

  ghost predicate Names(names: seq<string>) {
    && (forall i :: 0 <= i < |names| ==> Lacks(names[i], '&'))
    && forall i, j :: 0 <= i < j < |names| ==> Less(names[i], names[j])
  }

  /** No two bindings of the names with the same key differ in the value at `site`. */
  ghost predicate NeverMixes(names: seq<string>, site: nat, free: set<string>)
    requires site < |names|
  {
    forall a: Params, b: Params :: Binds(a, names, free) && Binds(b, names, free) && Canonical(a) == Canonical(b)
      ==> a[site].value == b[site].value
  }

  ghost predicate FreeOnBothSides(names: seq<string>, site: nat, free: set<string>) {
    exists i, j :: 0 <= i < site < j < |names| && names[i] in free && names[j] in free
  }

  /** The canonical text with a separator before every pair. */
  function Amp(es: Params): string {
    if es == [] then "" else "&" + Pair(es[0]) + Amp(es[1..])
  }

  lemma {:induction false} AmpIsJoin(es: Params)
    requires es != []
    ensures Amp(es) == "&" + Join(Pairs(es), "&")
  {
    if |es| > 1 {
      AmpIsJoin(es[1..]);
      assert Pairs(es)[1..] == Pairs(es[1..]);
      assert |Pairs(es[1..])| > 0;
    } else {
      assert Pairs(es) == [Pair(es[0])];
    }
  }

  lemma {:induction false} AmpAppend(es: Params, fs: Params)
    ensures Amp(es + fs) == Amp(es) + Amp(fs)
  {
    if es == [] {
      assert es + fs == fs;
    } else {
      assert (es + fs)[1..] == es[1..] + fs;
      AmpAppend(es[1..], fs);
    }
  }

  /** Of parameters already in key order, the canonical text is their pairs. */
  lemma InOrder(es: Params)
    requires Sorted(es) && es != []
    ensures Amp(es) == "&" + Canonical(es)
  {
    forall i, j | 0 <= i < j < |es| ensures es[i].key != es[j].key {
      LessIrreflexive(es[i].key);
      assert Less(es[i].key, es[j].key);
    }
    SortIs(es);
    SortedUnique(es, Sort(es));
    AmpIsJoin(es);
  }

  lemma BoundIsSorted(es: Params, names: seq<string>, free: set<string>)
    requires Binds(es, names, free) && Names(names) && names != []
    ensures Amp(es) == "&" + Canonical(es)
  {
    InOrder(es);
  }

  /** What may follow a value: nothing, or the next pair. */
  predicate Follows(x: string) { x == "" || x[0] == '&' }

  /** Where one of these values ends is where the other does. */
  ghost predicate Parts(t: string, u: string) {
    forall x, y :: Follows(x) && Follows(y) && t + x == u + y ==> t == u && x == y
  }

  lemma CleanParts(t: string, u: string)
    requires Lacks(t, '&') && Lacks(u, '&')
    ensures Parts(t, u)
  {
    forall x, y | Follows(x) && Follows(y) && t + x == u + y ensures t == u && x == y { FirstCut(t, u, x, y, '&'); }
  }

  lemma FirstPair(a: Params, b: Params)
    requires a != [] && b != [] && Amp(a) == Amp(b) && a[0].key == b[0].key && Parts(a[0].value, b[0].value)
    ensures a[0].value == b[0].value && Amp(a[1..]) == Amp(b[1..])
  {
    var k := "" + "&" + a[0].key + "=";
    Reassociate("", a[0].key, a[0].value, Amp(a[1..]));
    Reassociate("", b[0].key, b[0].value, Amp(b[1..]));
    SameTail(k, a[0].value + Amp(a[1..]), b[0].value + Amp(b[1..]));
    AmpFollows(a[1..]);
    AmpFollows(b[1..]);
  }

  lemma AmpFollows(es: Params)
    ensures Follows(Amp(es))
  {
  }

  /** Reading from the left: values that can be told apart up to the site pin it. */
  lemma {:induction false} FromTheLeft(a: Params, b: Params, site: nat)
    requires |a| == |b| && site < |a| && Amp(a) == Amp(b)
    requires forall i :: 0 <= i < |a| ==> a[i].key == b[i].key
    requires forall i :: 0 <= i <= site ==> Parts(a[i].value, b[i].value)
    ensures a[site].value == b[site].value
  {
    FirstPair(a, b);
    if site > 0 {
      assert forall i :: 0 <= i < |a[1..]| ==> a[1..][i] == a[i+1] && b[1..][i] == b[i+1];
      FromTheLeft(a[1..], b[1..], site - 1);
    }
  }

  lemma AmpLast(a: Params)
    requires a != []
    ensures Amp(a) == Amp(a[..|a|-1]) + "&" + Pair(a[|a|-1])
  {
    CutLast(a);
    AmpSnoc(a[..|a|-1], a[|a|-1]);
  }

  lemma CutLast(a: Params)
    requires a != []
    ensures a == a[..|a|-1] + [a[|a|-1]]
  {
  }

  lemma AmpSnoc(es: Params, e: Entry<string>)
    ensures Amp(es + [e]) == Amp(es) + "&" + Pair(e)
  {
    AmpAppend(es, [e]);
    AmpOne(e);
    ThenPair(Amp(es), Pair(e));
  }

  lemma ThenPair(p: string, t: string)
    ensures p + ("&" + t) == p + "&" + t
  {
  }

  lemma AmpOne(e: Entry<string>)
    ensures Amp([e]) == "&" + Pair(e)
  {
    assert Amp([e][1..]) == "";
  }

  /** Reading from the right: values without the separator after the site pin it. */
  lemma {:induction false} FromTheRight(a: Params, b: Params, site: nat)
    requires |a| == |b| && site < |a| && Amp(a) == Amp(b)
    requires forall i :: site <= i < |a| ==> a[i].key == b[i].key && Lacks(a[i].key, '&')
    requires forall i :: site <= i < |a| ==> Lacks(a[i].value, '&') && Lacks(b[i].value, '&')
    ensures a[site].value == b[site].value
    decreases |a|
  {
    var n := |a| - 1;
    AmpLast(a);
    AmpLast(b);
    LastCut(Amp(a[..n]), Amp(b[..n]), Pair(a[n]), Pair(b[n]), '&');
    if site < n {
      FromTheRight(a[..n], b[..n], site);
    } else {
      var k := a[n].key + "=";
      assert Pair(a[n])[|k|..] == a[n].value && Pair(b[n])[|k|..] == b[n].value;
    }
  }

  lemma OneSideClean(names: seq<string>, site: nat, free: set<string>)
    requires Names(names) && site < |names| && names[site] !in free && !FreeOnBothSides(names, site, free)
    ensures NeverMixes(names, site, free)
  {
    forall a: Params, b: Params | Binds(a, names, free) && Binds(b, names, free) && Canonical(a) == Canonical(b)
      ensures a[site].value == b[site].value
    {
      BoundIsSorted(a, names, free);
      BoundIsSorted(b, names, free);
      if i :| 0 <= i < site && names[i] in free {
        FromTheRight(a, b, site);
      } else {
        forall i | 0 <= i <= site ensures Parts(a[i].value, b[i].value) { CleanParts(a[i].value, b[i].value); }
        FromTheLeft(a, b, site);
      }
    }
  }

  /** Every value empty, but for three. */
  function Sample(names: seq<string>, i: nat, x: string, site: nat, s: string, j: nat, y: string): Params {
    seq(|names|, n requires 0 <= n < |names| =>
      Entry(names[n], if n == i then x else if n == site then s else if n == j then y else ""))
  }

  /** What the key shows between the two free values. */
  function Middle(names: seq<string>, i: nat, site: nat, s: string, j: nat): string
    requires i <= site < j < |names|
  {
    Amp(Sample(names, i, "", site, s, j, "")[i+1..j]) + "&" + names[j] + "="
  }

  lemma SampleText(names: seq<string>, i: nat, x: string, site: nat, s: string, j: nat, y: string)
    requires i <= site < j < |names|
    ensures
      var blank := Sample(names, i, "", site, "", j, "");
      Amp(Sample(names, i, x, site, s, j, y))
        == Amp(blank[..i]) + "&" + names[i] + "=" + (x + Middle(names, i, site, s, j) + y) + Amp(blank[j+1..])
  {
    var p := Sample(names, i, x, site, s, j, y);
    var blank, between := Sample(names, i, "", site, "", j, ""), Sample(names, i, "", site, s, j, "");
    var a, b, c := blank[..i], between[i+1..j], blank[j+1..];
    SampleCut(names, i, x, site, s, j, y);
    AmpFive(a, p[i], b, p[j], c);
    Regroup(Amp(a), names[i], x, Amp(b), names[j], y, Amp(c));
  }

  lemma SampleCut(names: seq<string>, i: nat, x: string, site: nat, s: string, j: nat, y: string)
    requires i <= site < j < |names|
    ensures
      var p := Sample(names, i, x, site, s, j, y);
      var blank, between := Sample(names, i, "", site, "", j, ""), Sample(names, i, "", site, s, j, "");
      p == blank[..i] + ([p[i]] + (between[i+1..j] + ([p[j]] + blank[j+1..])))
  {
  }

  lemma AmpFive(a: Params, e: Entry<string>, b: Params, f: Entry<string>, c: Params)
    ensures Amp(a + ([e] + (b + ([f] + c)))) == Amp(a) + ("&" + Pair(e) + (Amp(b) + ("&" + Pair(f) + Amp(c))))
  {
    AmpAppend(a, [e] + (b + ([f] + c)));
    AmpAppend([e], b + ([f] + c));
    AmpAppend(b, [f] + c);
    AmpAppend([f], c);
    AmpOne(e);
    AmpOne(f);
  }

  lemma Regroup(a: string, k: string, x: string, b: string, l: string, y: string, c: string)
    ensures a + ("&" + (k + "=" + x) + (b + ("&" + (l + "=" + y) + c)))
         == a + "&" + k + "=" + (x + (b + "&" + l + "=") + y) + c
  {
    var m := b + "&" + l + "=";
    assert b + ("&" + (l + "=" + y) + c) == m + y + c;
    assert "&" + (k + "=" + x) + (m + y + c) == "&" + k + "=" + (x + m + y) + c;
  }

  lemma SampleBinds(names: seq<string>, free: set<string>, i: nat, x: string, site: nat, s: string, j: nat, y: string)
    requires i <= site < j < |names| && names[i] in free && names[j] in free && Lacks(s, '&')
    ensures Binds(Sample(names, i, x, site, s, j, y), names, free)
  {
  }

  lemma SamplesAlike(names: seq<string>, i: nat, site: nat, s: string, s': string, j: nat)
    requires i <= site < j < |names|
    ensures Amp(Sample(names, i, "", site, s, j, Middle(names, i, site, s', j)))
         == Amp(Sample(names, i, Middle(names, i, site, s, j), site, s', j, ""))
  {
    var m, m' := Middle(names, i, site, s, j), Middle(names, i, site, s', j);
    SampleText(names, i, "", site, s, j, m');
    SampleText(names, i, m, site, s', j, "");
    EmptyEnds(m, m');
  }

  lemma EmptyEnds(m: string, m': string)
    ensures "" + m + m' == m + m' + ""
  {
  }

  /** With free values on both sides, each can spell out the other's middle. */
  lemma {:induction false} BothSidesCollide(names: seq<string>, site: nat, free: set<string>, s: string, s': string)
    returns (a: Params, b: Params)
    requires Names(names) && site < |names| && names[site] !in free && FreeOnBothSides(names, site, free)
    requires Lacks(s, '&') && Lacks(s', '&')
    ensures Binds(a, names, free) && Binds(b, names, free) && Canonical(a) == Canonical(b)
    ensures a[site].value == s && b[site].value == s'
  {
    var i, j :| 0 <= i < site < j < |names| && names[i] in free && names[j] in free;
    var m, m' := Middle(names, i, site, s, j), Middle(names, i, site, s', j);
    a, b := Sample(names, i, "", site, s, j, m'), Sample(names, i, m, site, s', j, "");
    SamplesAlike(names, i, site, s, s', j);
    SampleBinds(names, free, i, "", site, s, j, m');
    SampleBinds(names, free, i, m, site, s', j, "");
    BoundIsSorted(a, names, free);
    BoundIsSorted(b, names, free);
    SameTail("&", Canonical(a), Canonical(b));
  }

  /**
   Keys tell sites apart exactly when no operation binds a free value on each side of the site in
   name order.
   */
  lemma {:induction false} KeysNeverMixSites(names: seq<string>, site: nat, free: set<string>)
    requires Names(names) && site < |names| && names[site] !in free
    ensures NeverMixes(names, site, free) <==> !FreeOnBothSides(names, site, free)
  {
    if FreeOnBothSides(names, site, free) {
      var a, b := BothSidesCollide(names, site, free, "1", "2");
      assert a[site].value != b[site].value;
    } else {
      OneSideClean(names, site, free);
    }
  }

  // ----- whole parameters -----

  /** Bindings of the names with the same key are the same. */
  ghost predicate Determines(names: seq<string>, free: set<string>) {
    forall a: Params, b: Params :: Binds(a, names, free) && Binds(b, names, free) && Canonical(a) == Canonical(b)
      ==> a == b
  }

  ghost predicate TwoFree(names: seq<string>, free: set<string>) {
    exists i, j :: 0 <= i < j < |names| && names[i] in free && names[j] in free
  }

  /** The value in the middle is what its neighbours leave. */
  lemma MiddlePinned(a: Params, b: Params, i: nat)
    requires |a| == |b| && i < |a| && Amp(a) == Amp(b) && a[i].key == b[i].key
    requires a[..i] == b[..i] && a[i+1..] == b[i+1..]
    ensures a[i].value == b[i].value
  {
    var before, after := Amp(a[..i]), Amp(a[i+1..]);
    SplitAt(a, i);
    SplitAt(b, i);
    var k := before + "&" + a[i].key + "=";
    assert Amp(a) == k + (a[i].value + after);
    assert Amp(b) == k + (b[i].value + after);
    SameTail(k, a[i].value + after, b[i].value + after);
    SameHead(a[i].value, b[i].value, after);
  }

  lemma SplitAt(a: Params, i: nat)
    requires i < |a|
    ensures Amp(a) == Amp(a[..i]) + "&" + a[i].key + "=" + (a[i].value + Amp(a[i+1..]))
  {
    CutAt(a, i);
    AmpAround(a[..i], a[i], a[i+1..]);
  }

  lemma CutAt(a: Params, i: nat)
    requires i < |a|
    ensures a == a[..i] + ([a[i]] + a[i+1..])
  {
  }

  lemma AmpAround(before: Params, e: Entry<string>, after: Params)
    ensures Amp(before + ([e] + after)) == Amp(before) + "&" + e.key + "=" + (e.value + Amp(after))
  {
    AmpAppend(before, [e] + after);
    AmpAppend([e], after);
    AmpOne(e);
    Reassociate(Amp(before), e.key, e.value, Amp(after));
  }

  lemma Reassociate(p: string, k: string, v: string, r: string)
    ensures p + ("&" + (k + "=" + v) + r) == p + "&" + k + "=" + (v + r)
  {
  }

  lemma SameHead(x: string, y: string, t: string)
    requires x + t == y + t
    ensures x == y
  {
    assert |x| == |y|;
    assert (x + t)[..|x|] == x && (y + t)[..|y|] == y;
  }

  lemma PinnedBut(a: Params, b: Params, names: seq<string>, free: set<string>, hole: nat)
    requires Names(names) && Binds(a, names, free) && Binds(b, names, free) && Amp(a) == Amp(b)
    requires forall k :: 0 <= k < |names| && names[k] in free ==> k == hole
    ensures forall k :: 0 <= k < |names| && k != hole ==> a[k] == b[k]
  {
    forall k | 0 <= k < |names| && k != hole ensures a[k] == b[k] {
      if k < hole {
        forall i | 0 <= i <= k ensures Parts(a[i].value, b[i].value) { CleanParts(a[i].value, b[i].value); }
        FromTheLeft(a, b, k);
      } else {
        FromTheRight(a, b, k);
      }
    }
  }

  lemma OneFreeDetermines(names: seq<string>, free: set<string>)
    requires Names(names) && names != [] && !TwoFree(names, free)
    ensures Determines(names, free)
  {
    forall a: Params, b: Params | Binds(a, names, free) && Binds(b, names, free) && Canonical(a) == Canonical(b)
      ensures a == b
    {
      BoundIsSorted(a, names, free);
      BoundIsSorted(b, names, free);
      var hole := if i :| 0 <= i < |names| && names[i] in free then i else 0;
      PinnedBut(a, b, names, free, hole);
      assert a[..hole] == b[..hole] && a[hole+1..] == b[hole+1..];
      MiddlePinned(a, b, hole);
      assert forall k :: 0 <= k < |a| ==> a[k] == b[k];
    }
  }

  lemma TwoFreeCollide(names: seq<string>, free: set<string>)
    requires Names(names) && TwoFree(names, free)
    ensures !Determines(names, free)
  {
    var i, j :| 0 <= i < j < |names| && names[i] in free && names[j] in free;
    var m := Middle(names, i, i, "", j);
    var a, b := Sample(names, i, "", i, "", j, m), Sample(names, i, m, i, "", j, "");
    SamplesAlike(names, i, i, "", "", j);
    SampleBinds(names, free, i, "", i, "", j, m);
    SampleBinds(names, free, i, m, i, "", j, "");
    BoundIsSorted(a, names, free);
    BoundIsSorted(b, names, free);
    SameTail("&", Canonical(a), Canonical(b));
    assert a[i].value == "" && b[i].value == m && m != "";
  }

  /** Requests that differ in a bound value never share a key exactly when at most one name is free text. */
  lemma {:induction false} KeysDetermineExactly(names: seq<string>, free: set<string>)
    requires Names(names) && names != []
    ensures Determines(names, free) <==> !TwoFree(names, free)
  {
    if TwoFree(names, free) { TwoFreeCollide(names, free); } else { OneFreeDetermines(names, free); }
  }
}
