/**
 Canonical event printing (`stableStringify` in apps/collector/src/events.ts): key-ordered JSON, the
 text whose hash decides whether a repeated event id is an honest retry.
 */
module Canonical {
  import opened Text

  /**
   A parsed JSON value; `Undefined` is an absent optional member.  A number is its JavaScript text and
   object keys are unique, as in any JavaScript object.
   */
  datatype Json =
    | Null
    | Undefined
    | Bool(b: bool)
    | Number(text: string)
    | Str(s: string)
    | Arr(items: seq<Json>)
    | Obj(members: seq<Entry<Json>>)

  predicate NumberChar(c: char) { '0' <= c <= '9' || c in "+-.e" }

  predicate NumberText(t: string) {
    && t != "" && (t[0] == '-' || '0' <= t[0] <= '9')
    && forall i :: 0 <= i < |t| ==> NumberChar(t[i])
  }

  predicate WellFormed(v: Json) {
    match v
    case Number(t) => NumberText(t)
    case Arr(items) => forall i :: 0 <= i < |items| ==> WellFormed(items[i])
    case Obj(ms) => DistinctKeys(ms) && forall i :: 0 <= i < |ms| ==> WellFormed(ms[i].value)
    case _ => true
  }

  // ----- printing -----

  function HexDigit(n: nat): char
    requires n < 16
  {
    if n < 10 then '0' + n as char else 'a' + (n - 10) as char
  }

  /** QuoteJSONString of ECMA-262 (section 25.5.2.3), one code unit. */
  function Escape(c: char): string {
    if c == '\"' then "\\\""
    else if c == '\\' then "\\\\"
    else if c == 8 as char then "\\b"
    else if c == 9 as char then "\\t"
    else if c == 10 as char then "\\n"
    else if c == 12 as char then "\\f"
    else if c == 13 as char then "\\r"
    else if c < ' ' then "\\u00" + [HexDigit(c as int / 16), HexDigit(c as int % 16)]
    else [c]
  }

  function EscapeAll(s: string): string {
    if s == "" then "" else Escape(s[0]) + EscapeAll(s[1..])
  }

  function Quote(s: string): string { "\"" + EscapeAll(s) + "\"" }

  function Stringify(v: Json): string
    decreases v, 1
  {
    match v
    case Null => "null"
    case Undefined => "null"
    case Bool(b) => if b then "true" else "false"
    case Number(t) => t
    case Str(s) => Quote(s)
    case Arr(items) => "[" + Join(StringifyAll(items), ",") + "]"
    case Obj(ms) => "{" + Join(Rendered(Sort(MemberTexts(ms))), ",") + "}"
  }

  function StringifyAll(vs: seq<Json>): (ts: seq<string>)
    decreases vs, 0
  {
    if vs == [] then [] else [Stringify(vs[0])] + StringifyAll(vs[1..])
  }

  /** The defined members with their values printed (sorting looks at the keys only). */
  function MemberTexts(ms: seq<Entry<Json>>): seq<Entry<string>>
    decreases ms, 0
  {
    if ms == [] then []
    else if ms[0].value.Undefined? then MemberTexts(ms[1..])
    else [Entry(ms[0].key, Stringify(ms[0].value))] + MemberTexts(ms[1..])
  }

  function RenderOne(e: Entry<string>): string { Quote(e.key) + ":" + e.value }

  function Rendered(es: seq<Entry<string>>): seq<string> {
    if es == [] then [] else [RenderOne(es[0])] + Rendered(es[1..])
  }

  // ----- equality up to member order -----

  predicate Defined(m: Entry<Json>) { !m.value.Undefined? }

  /** Equality of JSON values, members unordered (section 4 of RFC 8259); an absent member is no member. */
  predicate SameValue(a: Json, b: Json)
    decreases a, 0
  {
    match a
    case Null => b.Null? || b.Undefined?
    case Undefined => b.Null? || b.Undefined?
    case Bool(_) => a == b
    case Number(_) => a == b
    case Str(_) => a == b
    case Arr(items) =>
      b.Arr? && |items| == |b.items| && forall i :: 0 <= i < |items| ==> SameValue(items[i], b.items[i])
    case Obj(ms) =>
      && b.Obj?
      && (forall i :: 0 <= i < |ms| && Defined(ms[i]) ==> HasMember(b.members, ms[i].key, ms[i].value))
      && (forall j :: 0 <= j < |b.members| && Defined(b.members[j]) ==>
            exists i :: 0 <= i < |ms| && Defined(ms[i]) && ms[i].key == b.members[j].key)
  }

  predicate HasMember(ns: seq<Entry<Json>>, key: string, value: Json)
    decreases value, 1
  {
    exists j :: 0 <= j < |ns| && Defined(ns[j]) && ns[j].key == key && SameValue(value, ns[j].value)
  }

  // ----- printed texts can be cut apart -----

  predicate IsStop(c: char) { c == ',' || c == ']' || c == '}' }

  /** What may follow a printed value: nothing, a comma or a closing bracket. */
  predicate Stop(r: string) { r == "" || IsStop(r[0]) }

  /** Two texts that start the same way, up to what follows them, are the same text. */
  ghost predicate Cuts(t: string, u: string) {
    forall x, y :: Stop(x) && Stop(y) && t + x == u + y ==> t == u
  }

  predicate Opens(t: string) { t != "" && !IsStop(t[0]) }

  /** Bare words (null, booleans, numbers) hold no stop character. */
  predicate Word(t: string) {
    t != "" && forall i :: 0 <= i < |t| ==> !IsStop(t[i])
  }

  lemma WordsCut(t: string, u: string)
    requires Word(t) && Word(u)
    ensures Cuts(t, u)
  {
    forall x, y | Stop(x) && Stop(y) && t + x == u + y ensures t == u {
      assert t == (t + x)[..|t|] && u == (u + y)[..|u|];
    }
  }

  lemma DifferentStartsCut(t: string, u: string)
    requires t != "" && u != "" && t[0] != u[0]
    ensures Cuts(t, u)
  {
    forall x, y ensures t + x != u + y { assert (t + x)[0] == t[0] && (u + y)[0] == u[0]; }
  }

  /** The escapes form a prefix code, none of whose words starts with a quote. */
  lemma EscapeCut(c: char, d: char, x: string, y: string)
    requires Escape(c) + x == Escape(d) + y
    ensures c == d && x == y
  {
    var s, t := Escape(c) + x, Escape(d) + y;
    assert s[0] == Escape(c)[0] && t[0] == Escape(d)[0];
    if |Escape(c)| > 1 && |Escape(d)| > 1 {
      assert s[1] == Escape(c)[1] && t[1] == Escape(d)[1];
      if |Escape(c)| > 2 && |Escape(d)| > 2 {
        assert s[4] == Escape(c)[4] && t[4] == Escape(d)[4];
        assert s[5] == Escape(c)[5] && t[5] == Escape(d)[5];
        HexInjective(c as int / 16, d as int / 16);
        HexInjective(c as int % 16, d as int % 16);
      }
    }
    assert c == d;
    SameTail(Escape(c), x, y);
  }

  lemma HexInjective(m: nat, n: nat)
    requires m < 16 && n < 16 && HexDigit(m) == HexDigit(n)
    ensures m == n
  {
  }

  /** The closing quote cannot be mistaken for a character of the string. */
  lemma EscapeAllHead(s: string, x: string)
    ensures (EscapeAll(s) + "\"" + x)[0] == '\"' <==> s == ""
  {
    if s != "" { assert (EscapeAll(s) + "\"" + x)[0] == Escape(s[0])[0]; }
  }

  lemma EscapeStep(s: string, t: string, x: string, y: string)
    requires s != "" && t != "" && EscapeAll(s) + "\"" + x == EscapeAll(t) + "\"" + y
    ensures s[0] == t[0] && EscapeAll(s[1..]) + "\"" + x == EscapeAll(t[1..]) + "\"" + y
  {
    EscapeFirst(s, x);
    EscapeFirst(t, y);
    EscapeCut(s[0], t[0], EscapeAll(s[1..]) + "\"" + x, EscapeAll(t[1..]) + "\"" + y);
  }

  lemma EscapeFirst(s: string, x: string)
    requires s != ""
    ensures EscapeAll(s) + "\"" + x == Escape(s[0]) + (EscapeAll(s[1..]) + "\"" + x)
  {
  }

  lemma {:induction false} EscapeAllCut(s: string, t: string, x: string, y: string)
    requires EscapeAll(s) + "\"" + x == EscapeAll(t) + "\"" + y
    ensures s == t && x == y
  {
    EscapeAllHead(s, x);
    EscapeAllHead(t, y);
    if s == "" {
      assert ("\"" + x)[1..] == x && ("\"" + y)[1..] == y;
      assert EscapeAll(s) + "\"" + x == "\"" + x && EscapeAll(t) + "\"" + y == "\"" + y;
    } else {
      EscapeStep(s, t, x, y);
      EscapeAllCut(s[1..], t[1..], x, y);
      assert s == [s[0]] + s[1..] && t == [t[0]] + t[1..];
    }
  }

  /** A quoted string ends where its quote says, whatever follows. */
  lemma {:induction false} QuoteCut(s: string, t: string, x: string, y: string)
    requires Quote(s) + x == Quote(t) + y
    ensures s == t && x == y
  {
    assert (Quote(s) + x)[1..] == EscapeAll(s) + "\"" + x;
    assert (Quote(t) + y)[1..] == EscapeAll(t) + "\"" + y;
    EscapeAllCut(s, t, x, y);
  }

  lemma QuotesCut(s: string, t: string)
    ensures Cuts(Quote(s), Quote(t))
  {
    forall x, y | Stop(x) && Stop(y) && Quote(s) + x == Quote(t) + y ensures Quote(s) == Quote(t) {
      QuoteCut(s, t, x, y);
    }
  }

  lemma RenderedCut(e: Entry<string>, f: Entry<string>)
    requires Cuts(e.value, f.value)
    ensures Cuts(RenderOne(e), RenderOne(f))
    ensures RenderOne(e) == RenderOne(f) ==> e == f
  {
    forall x, y | RenderOne(e) + x == RenderOne(f) + y
      ensures e.key == f.key && e.value + x == f.value + y
    {
      assert RenderOne(e) + x == Quote(e.key) + (":" + e.value + x);
      assert RenderOne(f) + y == Quote(f.key) + (":" + f.value + y);
      QuoteCut(e.key, f.key, ":" + e.value + x, ":" + f.value + y);
      assert (":" + e.value + x)[1..] == e.value + x && (":" + f.value + y)[1..] == f.value + y;
    }
    if RenderOne(e) == RenderOne(f) {
      assert RenderOne(e) + "" == RenderOne(f) + "";
      assert e.value + "" == e.value && f.value + "" == f.value;
    }
  }

  // ----- lists -----

  ghost predicate AllCut(ts: seq<string>, us: seq<string>) {
    forall i, j :: 0 <= i < |ts| && 0 <= j < |us| ==> Cuts(ts[i], us[j])
  }

  predicate AllOpen(ts: seq<string>) {
    forall i :: 0 <= i < |ts| ==> Opens(ts[i])
  }

  /** What follows the first part of a joined, closed list. */
  function AfterFirst(ts: seq<string>, close: char, x: string): string
    requires ts != []
  {
    if |ts| == 1 then [close] + x else "," + Join(ts[1..], ",") + [close] + x
  }

  lemma JoinFirst(ts: seq<string>, close: char, x: string)
    requires ts != []
    ensures Join(ts, ",") + [close] + x == ts[0] + AfterFirst(ts, close, x)
  {
    if |ts| == 1 {
      Regroup(ts[0], "", "", [close], x);
    } else {
      Regroup(ts[0], ",", Join(ts[1..], ","), [close], x);
    }
  }

  lemma Regroup(t: string, s: string, j: string, c: string, x: string)
    ensures t + s + j + c + x == t + (s + j + c + x)
  {
  }

  /** An empty list shows its closing bracket at once, a non-empty one does not. */
  lemma ListHead(ts: seq<string>, close: char, x: string)
    requires AllOpen(ts) && IsStop(close)
    ensures (Join(ts, ",") + [close] + x)[0] == close <==> ts == []
  {
    if ts != [] {
      JoinFirst(ts, close, x);
      assert Opens(ts[0]);
    }
  }

  lemma TailOpens(ts: seq<string>, us: seq<string>)
    requires AllCut(ts, us) && AllOpen(ts) && AllOpen(us) && ts != [] && us != []
    ensures AllCut(ts[1..], us[1..]) && AllOpen(ts[1..]) && AllOpen(us[1..])
  {
    assert forall i :: 0 <= i < |ts[1..]| ==> ts[1..][i] == ts[i+1];
    assert forall j :: 0 <= j < |us[1..]| ==> us[1..][j] == us[j+1];
  }

  lemma {:induction false} ListsCut(ts: seq<string>, us: seq<string>, close: char, x: string, y: string)
    requires AllCut(ts, us) && AllOpen(ts) && AllOpen(us) && IsStop(close) && close != ','
    requires Join(ts, ",") + [close] + x == Join(us, ",") + [close] + y
    ensures ts == us && x == y
  {
    var left, right := Join(ts, ",") + [close] + x, Join(us, ",") + [close] + y;
    ListHead(ts, close, x);
    ListHead(us, close, y);
    if ts == [] {
      assert left[1..] == x && right[1..] == y;
    } else {
      JoinFirst(ts, close, x);
      JoinFirst(us, close, y);
      var r, q := AfterFirst(ts, close, x), AfterFirst(us, close, y);
      assert Cuts(ts[0], us[0]);
      assert Stop(r) && Stop(q);
      assert ts[0] == us[0];
      SameTail(ts[0], r, q);
      AfterFirstIs(ts, close, x);
      AfterFirstIs(us, close, y);
      if |ts| > 1 {
        TailOpens(ts, us);
        ListsCut(ts[1..], us[1..], close, x, y);
      }
      assert ts == [ts[0]] + ts[1..] && us == [us[0]] + us[1..];
    }
  }

  /** The first character after the first part tells whether there is another. */
  lemma AfterFirstIs(ts: seq<string>, close: char, x: string)
    requires ts != []
    ensures AfterFirst(ts, close, x)[0] == if |ts| == 1 then close else ','
    ensures AfterFirst(ts, close, x)[1..] == if |ts| == 1 then x else Join(ts[1..], ",") + [close] + x
  {
  }

  /** Bracketed lists of cuttable parts cut, and equal ones have equal parts. */
  lemma BracketsCut(open: char, ts: seq<string>, us: seq<string>, close: char)
    requires AllCut(ts, us) && AllOpen(ts) && AllOpen(us) && IsStop(close) && close != ','
    ensures
      var t, u := [open] + Join(ts, ",") + [close], [open] + Join(us, ",") + [close];
      Cuts(t, u) && (t == u ==> ts == us)
  {
    var t, u := [open] + Join(ts, ",") + [close], [open] + Join(us, ",") + [close];
    forall x, y | t + x == u + y ensures ts == us {
      assert (t + x)[1..] == Join(ts, ",") + [close] + x;
      assert (u + y)[1..] == Join(us, ",") + [close] + y;
      ListsCut(ts, us, close, x, y);
    }
    if t == u { assert t + "" == u + ""; }
  }

  // ----- printed values -----

  lemma {:induction false} StringifyAllIs(vs: seq<Json>)
    ensures |StringifyAll(vs)| == |vs|
    ensures forall i :: 0 <= i < |vs| ==> StringifyAll(vs)[i] == Stringify(vs[i])
  {
    if vs != [] { StringifyAllIs(vs[1..]); }
  }

  lemma {:induction false} RenderedIs(es: seq<Entry<string>>)
    ensures |Rendered(es)| == |es|
    ensures forall i :: 0 <= i < |es| ==> Rendered(es)[i] == RenderOne(es[i])
  {
    if es != [] { RenderedIs(es[1..]); }
  }

  /** `e` is the printed form of a defined member of `ms`. */
  ghost predicate Prints(ms: seq<Entry<Json>>, e: Entry<string>) {
    exists i :: 0 <= i < |ms| && Defined(ms[i]) && e == Entry(ms[i].key, Stringify(ms[i].value))
  }

  lemma {:induction false} MemberTextsAre(ms: seq<Entry<Json>>)
    requires DistinctKeys(ms)
    ensures DistinctKeys(MemberTexts(ms))
    ensures forall e :: e in MemberTexts(ms) <==> Prints(ms, e)
  {
    if ms != [] {
      var rest := ms[1..];
      assert ms == [ms[0]] + rest;
      MemberTextsAre(rest);
      forall e ensures Prints(ms, e) <==>
          Prints(rest, e) || (Defined(ms[0]) && e == Entry(ms[0].key, Stringify(ms[0].value)))
      {
        if Prints(rest, e) {
          var i :| 0 <= i < |rest| && Defined(rest[i]) && e == Entry(rest[i].key, Stringify(rest[i].value));
          assert ms[i+1] == rest[i];
        }
        if Prints(ms, e) {
          var i :| 0 <= i < |ms| && Defined(ms[i]) && e == Entry(ms[i].key, Stringify(ms[i].value));
          if i > 0 { assert rest[i-1] == ms[i]; }
        }
      }
      if Defined(ms[0]) {
        var ts := MemberTexts(ms);
        assert ts[1..] == MemberTexts(rest);
        forall j | 0 < j < |ts| ensures ts[0].key != ts[j].key {
          assert ts[j] in ts[1..];
          assert Prints(rest, ts[j]);
        }
      }
    }
  }

  /** The sorted entries an object prints. */
  function EntriesOf(ms: seq<Entry<Json>>): seq<Entry<string>> { Sort(MemberTexts(ms)) }

  lemma EntriesAre(ms: seq<Entry<Json>>)
    requires DistinctKeys(ms)
    ensures Sorted(EntriesOf(ms))
    ensures forall e :: e in EntriesOf(ms) <==> Prints(ms, e)
  {
    MemberTextsAre(ms);
    SortIs(MemberTexts(ms));
  }

  lemma StringifyOpens(v: Json)
    requires WellFormed(v)
    ensures Opens(Stringify(v))
    ensures !v.Arr? && !v.Obj? && !v.Str? ==> Word(Stringify(v))
    ensures Stringify(v)[0] == (match v
      case Null => 'n' case Undefined => 'n' case Bool(b) => if b then 't' else 'f'
      case Number(t) => t[0] case Str(_) => '\"' case Arr(_) => '[' case Obj(_) => '{')
  {
  }

  /** Printed values are self-delimiting, however deeply nested. */
  lemma {:induction false} SelfDelimiting(a: Json, b: Json)
    requires WellFormed(a) && WellFormed(b)
    ensures Cuts(Stringify(a), Stringify(b))
    decreases a
  {
    StringifyOpens(a);
    StringifyOpens(b);
    if a.Arr? && b.Arr? {
      ItemsCut(a, b);
      BracketsCut('[', StringifyAll(a.items), StringifyAll(b.items), ']');
    } else if a.Obj? && b.Obj? {
      MembersCut(a, b);
      BracketsCut('{', Rendered(EntriesOf(a.members)), Rendered(EntriesOf(b.members)), '}');
    } else if a.Str? && b.Str? {
      QuotesCut(a.s, b.s);
    } else if Stringify(a)[0] != Stringify(b)[0] {
      DifferentStartsCut(Stringify(a), Stringify(b));
    } else {
      WordsCut(Stringify(a), Stringify(b));
    }
  }

  lemma {:induction false} ItemsCut(a: Json, b: Json)
    requires WellFormed(a) && WellFormed(b) && a.Arr? && b.Arr?
    ensures AllCut(StringifyAll(a.items), StringifyAll(b.items))
    ensures AllOpen(StringifyAll(a.items)) && AllOpen(StringifyAll(b.items))
    decreases a, 0
  {
    StringifyAllIs(a.items);
    StringifyAllIs(b.items);
    forall i | 0 <= i < |a.items| ensures Opens(StringifyAll(a.items)[i]) { StringifyOpens(a.items[i]); }
    forall j | 0 <= j < |b.items| ensures Opens(StringifyAll(b.items)[j]) { StringifyOpens(b.items[j]); }
    forall i, j | 0 <= i < |a.items| && 0 <= j < |b.items|
      ensures Cuts(StringifyAll(a.items)[i], StringifyAll(b.items)[j])
    {
      SelfDelimiting(a.items[i], b.items[j]);
    }
  }

  lemma {:induction false} MembersCut(a: Json, b: Json)
    requires WellFormed(a) && WellFormed(b) && a.Obj? && b.Obj?
    ensures
      var es, fs := EntriesOf(a.members), EntriesOf(b.members);
      && AllCut(Rendered(es), Rendered(fs)) && AllOpen(Rendered(es)) && AllOpen(Rendered(fs))
      && (Rendered(es) == Rendered(fs) ==> es == fs)
    decreases a, 0
  {
    var es, fs := EntriesOf(a.members), EntriesOf(b.members);
    EntriesAre(a.members);
    EntriesAre(b.members);
    RenderedIs(es);
    RenderedIs(fs);
    forall i, j | 0 <= i < |es| && 0 <= j < |fs|
      ensures Cuts(RenderOne(es[i]), RenderOne(fs[j])) && (RenderOne(es[i]) == RenderOne(fs[j]) ==> es[i] == fs[j])
    {
      assert Prints(a.members, es[i]) && Prints(b.members, fs[j]);
      var k :| 0 <= k < |a.members| && Defined(a.members[k])
        && es[i] == Entry(a.members[k].key, Stringify(a.members[k].value));
      var l :| 0 <= l < |b.members| && Defined(b.members[l])
        && fs[j] == Entry(b.members[l].key, Stringify(b.members[l].value));
      SelfDelimiting(a.members[k].value, b.members[l].value);
      RenderedCut(es[i], fs[j]);
    }
    if Rendered(es) == Rendered(fs) {
      forall i | 0 <= i < |es| ensures es[i] == fs[i] { assert RenderOne(es[i]) == Rendered(fs)[i]; }
    }
  }

  // ----- equal texts, equal values -----

  lemma {:induction false} EqualTextsSameValue(a: Json, b: Json)
    requires WellFormed(a) && WellFormed(b) && Stringify(a) == Stringify(b)
    ensures SameValue(a, b)
    decreases a
  {
    StringifyOpens(a);
    StringifyOpens(b);
    if a.Arr? {
      assert b.Arr?;
      ItemsCut(a, b);
      BracketsCut('[', StringifyAll(a.items), StringifyAll(b.items), ']');
      StringifyAllIs(a.items);
      StringifyAllIs(b.items);
      forall i | 0 <= i < |a.items| ensures SameValue(a.items[i], b.items[i]) {
        assert StringifyAll(a.items)[i] == StringifyAll(b.items)[i];
        EqualTextsSameValue(a.items[i], b.items[i]);
      }
    } else if a.Obj? {
      assert b.Obj?;
      MembersCut(a, b);
      BracketsCut('{', Rendered(EntriesOf(a.members)), Rendered(EntriesOf(b.members)), '}');
      EqualMembers(a, b);
    } else if a.Str? {
      assert Quote(a.s) + "" == Quote(b.s) + "";
      QuoteCut(a.s, b.s, "", "");
    }
  }

  lemma {:induction false} EqualMembers(a: Json, b: Json)
    requires WellFormed(a) && WellFormed(b) && a.Obj? && b.Obj?
    requires EntriesOf(a.members) == EntriesOf(b.members)
    ensures SameValue(a, b)
    decreases a, 0
  {
    var ms, ns := a.members, b.members;
    EntriesAre(ms);
    EntriesAre(ns);
    forall i | 0 <= i < |ms| && Defined(ms[i])
      ensures HasMember(ns, ms[i].key, ms[i].value)
    {
      var e := Entry(ms[i].key, Stringify(ms[i].value));
      assert Prints(ms, e);
      assert Prints(ns, e);
      var j :| 0 <= j < |ns| && Defined(ns[j]) && e == Entry(ns[j].key, Stringify(ns[j].value));
      EqualTextsSameValue(ms[i].value, ns[j].value);
    }
    forall j | 0 <= j < |ns| && Defined(ns[j])
      ensures exists i :: 0 <= i < |ms| && Defined(ms[i]) && ms[i].key == ns[j].key
    {
      assert Prints(ns, Entry(ns[j].key, Stringify(ns[j].value)));
      assert Prints(ms, Entry(ns[j].key, Stringify(ns[j].value)));
    }
  }

  lemma {:induction false} SameValueEqualTexts(a: Json, b: Json)
    requires WellFormed(a) && WellFormed(b) && SameValue(a, b)
    ensures Stringify(a) == Stringify(b)
    decreases a
  {
    if a.Arr? {
      StringifyAllIs(a.items);
      StringifyAllIs(b.items);
      forall i | 0 <= i < |a.items| ensures StringifyAll(a.items)[i] == StringifyAll(b.items)[i] {
        SameValueEqualTexts(a.items[i], b.items[i]);
      }
      assert StringifyAll(a.items) == StringifyAll(b.items);
    } else if a.Obj? {
      SameMembersEqualEntries(a, b);
    }
  }

  lemma {:induction false} SameMembersEqualEntries(a: Json, b: Json)
    requires WellFormed(a) && WellFormed(b) && SameValue(a, b) && a.Obj?
    ensures EntriesOf(a.members) == EntriesOf(b.members)
    decreases a, 1
  {
    var es, fs := EntriesOf(a.members), EntriesOf(b.members);
    EntriesAre(a.members);
    EntriesAre(b.members);
    forall i | 0 <= i < |es| ensures es[i] in fs { EntryFound(a, b, es[i]); }
    forall i | 0 <= i < |es| ensures HasKey(fs, es[i].key) {
      assert es[i] in fs;
      var j :| 0 <= j < |fs| && fs[j] == es[i];
    }
    forall j | 0 <= j < |fs| ensures HasKey(es, fs[j].key) { KeyFound(a, b, fs[j]); }
    SameKeysSameOrder(es, fs);
    SameOrderSameEntries(es, fs);
  }

  lemma {:induction false} EntryFound(a: Json, b: Json, e: Entry<string>)
    requires WellFormed(a) && WellFormed(b) && SameValue(a, b) && a.Obj? && e in EntriesOf(a.members)
    ensures e in EntriesOf(b.members)
    decreases a, 0
  {
    var ms, ns := a.members, b.members;
    EntriesAre(ms);
    assert Prints(ms, e);
    var k :| 0 <= k < |ms| && Defined(ms[k]) && e == Entry(ms[k].key, Stringify(ms[k].value));
    assert HasMember(ns, ms[k].key, ms[k].value);
    var j :| 0 <= j < |ns| && Defined(ns[j]) && ns[j].key == ms[k].key && SameValue(ms[k].value, ns[j].value);
    SameValueEqualTexts(ms[k].value, ns[j].value);
    assert Prints(ns, e);
    EntriesAre(ns);
  }

  lemma KeyFound(a: Json, b: Json, f: Entry<string>)
    requires WellFormed(a) && WellFormed(b) && SameValue(a, b) && a.Obj? && f in EntriesOf(b.members)
    ensures HasKey(EntriesOf(a.members), f.key)
  {
    var ms, ns := a.members, b.members;
    EntriesAre(ms);
    EntriesAre(ns);
    assert Prints(ns, f);
    var l :| 0 <= l < |ns| && Defined(ns[l]) && f == Entry(ns[l].key, Stringify(ns[l].value));
    var k :| 0 <= k < |ms| && Defined(ms[k]) && ms[k].key == ns[l].key;
    var e := Entry(ms[k].key, Stringify(ms[k].value));
    assert Prints(ms, e);
    assert e in EntriesOf(ms);
    var i :| 0 <= i < |EntriesOf(ms)| && EntriesOf(ms)[i] == e;
  }

  lemma SameOrderSameEntries(es: seq<Entry<string>>, fs: seq<Entry<string>>)
    requires Sorted(fs) && |es| == |fs|
    requires forall i :: 0 <= i < |es| ==> es[i].key == fs[i].key && es[i] in fs
    ensures es == fs
  {
    forall i | 0 <= i < |es| ensures es[i] == fs[i] {
      assert es[i] in fs;
      var j :| 0 <= j < |fs| && fs[j] == es[i];
      LessIrreflexive(fs[i].key);
    }
  }

  /**
   Canonical printing: two values print alike exactly when they are equal up to the order of their members,
   so (the hash being collision-free) a payload hash names one event and no other.
   */
  lemma {:induction false} CanonicalPrinting(a: Json, b: Json)
    requires WellFormed(a) && WellFormed(b)
    ensures Stringify(a) == Stringify(b) <==> SameValue(a, b)
  {
    if Stringify(a) == Stringify(b) { EqualTextsSameValue(a, b); }
    if SameValue(a, b) { SameValueEqualTexts(a, b); }
  }
}
