/** Strings compared by code unit, and lists of keyed entries put in key order. */
module Text {

  /** JavaScript's `<` on strings. */
  predicate Less(a: string, b: string) {
    b != "" && (a == "" || a[0] < b[0] || (a[0] == b[0] && Less(a[1..], b[1..])))
  }

  datatype Entry<V> = Entry(key: string, value: V)

  function Insert(e: Entry<string>, es: seq<Entry<string>>): seq<Entry<string>> {
    if es == [] || Less(e.key, es[0].key) then [e] + es else [es[0]] + Insert(e, es[1..])
  }

  function Sort(es: seq<Entry<string>>): seq<Entry<string>> {
    if es == [] then [] else Insert(es[0], Sort(es[1..]))
  }

  predicate Sorted<V>(es: seq<Entry<V>>) {
    forall i, j :: 0 <= i < j < |es| ==> Less(es[i].key, es[j].key)
  }

  predicate DistinctKeys<V>(es: seq<Entry<V>>) {
    forall i, j :: 0 <= i < j < |es| ==> es[i].key != es[j].key
  }

  lemma {:induction false} LessIrreflexive(a: string)
    ensures !Less(a, a)
  {
    if a != "" { LessIrreflexive(a[1..]); }
  }

  lemma {:induction false} LessTotal(a: string, b: string)
    ensures a == b || Less(a, b) || Less(b, a)
  {
    if a != "" && b != "" && a[0] == b[0] {
      LessTotal(a[1..], b[1..]);
      assert a == [a[0]] + a[1..] && b == [b[0]] + b[1..];
    }
  }

  lemma {:induction false} LessTransitive(a: string, b: string, c: string)
    requires Less(a, b) && Less(b, c)
    ensures Less(a, c)
  {
    if a != "" && a[0] == b[0] == c[0] { LessTransitive(a[1..], b[1..], c[1..]); }
  }

  lemma SameTail(t: string, x: string, y: string)
    requires t + x == t + y
    ensures x == y
  {
    assert (t + x)[|t|..] == x && (t + y)[|t|..] == y;
  }

  ghost predicate HasKey<V>(es: seq<Entry<V>>, k: string) {
    exists i :: 0 <= i < |es| && es[i].key == k
  }

  ghost predicate KeysWithin<V, W>(a: seq<Entry<V>>, b: seq<Entry<W>>) {
    forall i :: 0 <= i < |a| ==> HasKey(b, a[i].key)
  }

  lemma {:induction false} InsertIs(e: Entry<string>, es: seq<Entry<string>>)
    requires Sorted(es) && !HasKey(es, e.key)
    ensures Sorted(Insert(e, es)) && |Insert(e, es)| == |es| + 1
    ensures forall x :: x in Insert(e, es) <==> x == e || x in es
  {
    if es == [] {
    } else if Less(e.key, es[0].key) {
      forall j | 0 <= j < |es| ensures Less(e.key, es[j].key) {
        if j > 0 { LessTransitive(e.key, es[0].key, es[j].key); }
      }
    } else {
      var rest := es[1..];
      assert !HasKey(rest, e.key) by { assert forall i :: 0 <= i < |rest| ==> rest[i] == es[i+1]; }
      InsertIs(e, rest);
      LessTotal(e.key, es[0].key);
      assert es == [es[0]] + rest;
      var r := Insert(e, rest);
      forall j | 0 <= j < |r| ensures Less(es[0].key, r[j].key) {
        assert r[j] in r;
        if r[j] != e {
          assert r[j] in rest;
          var k :| 0 <= k < |rest| && rest[k] == r[j];
          assert es[k+1] == r[j];
        }
      }
    }
  }

  lemma {:induction false} SortIs(es: seq<Entry<string>>)
    requires DistinctKeys(es)
    ensures Sorted(Sort(es)) && |Sort(es)| == |es|
    ensures forall x :: x in Sort(es) <==> x in es
  {
    if es != [] {
      var rest := es[1..];
      assert es == [es[0]] + rest;
      SortIs(rest);
      forall i | 0 <= i < |Sort(rest)| ensures Sort(rest)[i].key != es[0].key {
        assert Sort(rest)[i] in Sort(rest) && Sort(rest)[i] in rest;
        var k :| 0 <= k < |rest| && rest[k] == Sort(rest)[i];
        assert es[k+1] == rest[k];
      }
      InsertIs(es[0], Sort(rest));
    }
  }

  /** A sorted list is determined by its entries. */
  lemma {:induction false} SortedUnique(a: seq<Entry<string>>, b: seq<Entry<string>>)
    requires Sorted(a) && Sorted(b) && forall x :: x in a <==> x in b
    ensures a == b
  {
    forall i | 0 <= i < |a| ensures HasKey(b, a[i].key) {
      assert a[i] in b;
      var j :| 0 <= j < |b| && b[j] == a[i];
    }
    forall i | 0 <= i < |b| ensures HasKey(a, b[i].key) {
      assert b[i] in a;
      var j :| 0 <= j < |a| && a[j] == b[i];
    }
    SameKeysSameOrder(a, b);
    forall i | 0 <= i < |a| ensures a[i] == b[i] {
      assert a[i] in b;
      var j :| 0 <= j < |b| && b[j] == a[i];
      LessIrreflexive(b[i].key);
    }
  }

  /** Sorted lists with the same keys list them in the same order. */
  lemma {:induction false} SameKeysSameOrder<V, W>(a: seq<Entry<V>>, b: seq<Entry<W>>)
    requires Sorted(a) && Sorted(b) && KeysWithin(a, b) && KeysWithin(b, a)
    ensures |a| == |b| && forall i :: 0 <= i < |a| ==> a[i].key == b[i].key
  {
    if a != [] { assert HasKey(b, a[0].key); }
    if b != [] { assert HasKey(a, b[0].key); }
    if a != [] {
      HeadsAgree(a, b);
      TailKeys(a, b);
      TailKeys(b, a);
      SameKeysSameOrder(a[1..], b[1..]);
      forall i | 0 <= i < |a| ensures a[i].key == b[i].key {
        if i > 0 { assert a[1..][i-1].key == b[1..][i-1].key; }
      }
    }
  }

  lemma HeadsAgree<V, W>(a: seq<Entry<V>>, b: seq<Entry<W>>)
    requires Sorted(a) && Sorted(b) && a != [] && b != []
    requires HasKey(b, a[0].key) && HasKey(a, b[0].key)
    ensures a[0].key == b[0].key
  {
    var j :| 0 <= j < |b| && b[j].key == a[0].key;
    var i :| 0 <= i < |a| && a[i].key == b[0].key;
    if i > 0 && j > 0 {
      LessTransitive(a[0].key, b[0].key, a[0].key);
      LessIrreflexive(a[0].key);
    }
  }

  lemma TailKeys<V, W>(a: seq<Entry<V>>, b: seq<Entry<W>>)
    requires Sorted(a) && a != [] && b != [] && a[0].key == b[0].key && KeysWithin(a, b)
    ensures KeysWithin(a[1..], b[1..])
  {
    forall i | 0 <= i < |a[1..]| ensures HasKey(b[1..], a[1..][i].key) {
      assert a[1..][i] == a[i+1];
      assert HasKey(b, a[i+1].key);
      var j :| 0 <= j < |b| && b[j].key == a[i+1].key;
      LessIrreflexive(a[0].key);
      assert Less(a[0].key, a[i+1].key);
      assert b[1..][j-1].key == a[1..][i].key;
    }
  }

  function Join(parts: seq<string>, separator: string): string {
    if parts == [] then ""
    else if |parts| == 1 then parts[0]
    else parts[0] + separator + Join(parts[1..], separator)
  }
}
