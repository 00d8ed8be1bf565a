/**
 The gateway's bounded result cache (apps/query-gateway/src/query-cache.ts).  The map is the sequence of
 its entries in insertion order, oldest first.
 */
module QueryCaches {
  import opened Options
  import opened Sets

  /** A row is its JSON text. */
  datatype Answer = Answer(rows: seq<string>, truncated: bool)

  datatype Slot = Slot(key: string, value: Answer, expiresAt: int)

  predicate Distinct(es: seq<Slot>) {
    forall i, j :: 0 <= i < j < |es| ==> es[i].key != es[j].key
  }

  function Find(es: seq<Slot>, key: string): Option<Slot> {
    if es == [] then None else if es[0].key == key then Some(es[0]) else Find(es[1..], key)
  }

  function Without(es: seq<Slot>, key: string): seq<Slot> {
    if es == [] then []
    else (if es[0].key == key then [] else [es[0]]) + Without(es[1..], key)
  }

  function KeysOf(es: seq<Slot>): set<string> {
    if es == [] then {} else {es[0].key} + KeysOf(es[1..])
  }

  /** A live entry moves to the young end; an expired one is dropped. */
  function Fetch(es: seq<Slot>, key: string, now: int): (seq<Slot>, Option<Answer>) {
    match Find(es, key)
    case None => (es, None)
    case Some(slot) =>
      if now >= slot.expiresAt then (Without(es, key), None)
      else (Without(es, key) + [slot], Some(slot.value))
  }

  function Trimmed(es: seq<Slot>, max: nat): seq<Slot> {
    if |es| > max then es[|es| - max..] else es
  }

  function Store(es: seq<Slot>, key: string, value: Answer, ttl: int, now: int, max: nat): seq<Slot> {
    Trimmed(Without(es, key) + [Slot(key, value, now + ttl)], max)
  }

  class QueryCache {
    var entries: seq<Slot>
    const maxEntries: nat
    const ttlMs: int

    constructor (maxEntries: nat, ttlMs: int)
      ensures entries == [] && this.maxEntries == maxEntries && this.ttlMs == ttlMs
    {
      entries := [];
      this.maxEntries := maxEntries;
      this.ttlMs := ttlMs;
    }

    method Get(key: string, now: int) returns (hit: Option<Answer>)
      requires Distinct(entries)
      modifies this`entries
      ensures (entries, hit) == Fetch(old(entries), key, now)
      ensures Distinct(entries)
    {
      WithoutIs(entries, key);
      var entry := Find(entries, key);
      if entry == None { return None; }
      entries := Without(entries, key);
      if now >= entry.value.expiresAt { return None; }
      FindIs(old(entries), key);
      entries := entries + [entry.value];
      hit := Some(entry.value.value);
    }

    method Set(key: string, value: Answer, ttl: Option<int>, now: int)
      requires Distinct(entries)
      modifies this`entries
      ensures entries == Store(old(entries), key, value, if ttl.Some? then ttl.value else ttlMs, now, maxEntries)
      ensures Distinct(entries) && |entries| <= maxEntries
    {
      var lifetime := if ttl.Some? then ttl.value else ttlMs;
      var slot := Slot(key, value, now + lifetime);
      MovedToEnd(entries, key, slot);
      entries := Without(entries, key);
      entries := entries + [slot];
      ghost var whole := entries;
      while |entries| > maxEntries
        invariant Distinct(entries) && Trimmed(entries, maxEntries) == Trimmed(whole, maxEntries)
      {
        var oldest := entries[0].key;
        WithoutOldest(entries);
        TrimmedTail(entries, maxEntries);
        entries := Without(entries, oldest);
      }
    }
  }

  // ----- maps as sequences -----

  lemma {:induction false} WithoutIs(es: seq<Slot>, key: string)
    ensures forall s :: s in Without(es, key) <==> s in es && s.key != key
    ensures Distinct(es) ==> Distinct(Without(es, key))
    ensures |Without(es, key)| <= |es|
  {
    if es != [] {
      assert es == [es[0]] + es[1..];
      WithoutIs(es[1..], key);
      var w := Without(es[1..], key);
      if Distinct(es) {
        forall j | 0 <= j < |w| ensures w[j].key != es[0].key {
          assert w[j] in es[1..];
          var k :| 0 <= k < |es[1..]| && es[1..][k] == w[j];
          assert es[k+1] == w[j];
        }
      }
    }
  }

  lemma {:induction false} FindIs(es: seq<Slot>, key: string)
    ensures Find(es, key).Some? ==> Find(es, key).value in es && Find(es, key).value.key == key
    ensures Find(es, key).Some? <==> key in KeysOf(es)
  {
    if es != [] { FindIs(es[1..], key); }
  }

  lemma {:induction false} KeysAre(es: seq<Slot>, key: string)
    ensures key in KeysOf(es) <==> exists i :: 0 <= i < |es| && es[i].key == key
  {
    if es != [] {
      KeysAre(es[1..], key);
      if i :| 0 <= i < |es| && es[i].key == key {
        if i > 0 { assert es[1..][i-1].key == key; }
      }
      if key in KeysOf(es[1..]) {
        var i :| 0 <= i < |es[1..]| && es[1..][i].key == key;
        assert es[i+1].key == key;
      }
    }
  }

  lemma {:induction false} WithoutAbsent(es: seq<Slot>, key: string)
    requires key !in KeysOf(es)
    ensures Without(es, key) == es
  {
    if es != [] { WithoutAbsent(es[1..], key); }
  }

  lemma WithoutOldest(es: seq<Slot>)
    requires Distinct(es) && es != []
    ensures Without(es, es[0].key) == es[1..] && Distinct(es[1..])
  {
    DistinctTail(es, 1);
    KeysAre(es[1..], es[0].key);
    WithoutAbsent(es[1..], es[0].key);
  }

  lemma DistinctTail(es: seq<Slot>, n: nat)
    requires Distinct(es) && n <= |es|
    ensures Distinct(es[n..])
    ensures n > 0 ==> es[n-1].key !in KeysOf(es[n..])
  {
    forall i, j | 0 <= i < j < |es[n..]| ensures es[n..][i].key != es[n..][j].key {
      assert es[n..][i] == es[n+i] && es[n..][j] == es[n+j];
    }
    if n > 0 {
      KeysAre(es[n..], es[n-1].key);
      forall i | 0 <= i < |es[n..]| ensures es[n..][i].key != es[n-1].key { assert es[n..][i] == es[n+i]; }
    }
  }

  lemma {:induction false} WithoutAppend(u: seq<Slot>, w: seq<Slot>, key: string)
    ensures Without(u + w, key) == Without(u, key) + Without(w, key)
  {
    if u == [] {
      assert u + w == w;
    } else {
      assert (u + w)[1..] == u[1..] + w;
      WithoutAppend(u[1..], w, key);
    }
  }

  lemma {:induction false} KeysAppend(u: seq<Slot>, w: seq<Slot>)
    ensures KeysOf(u + w) == KeysOf(u) + KeysOf(w)
  {
    if u == [] {
      assert u + w == w;
    } else {
      assert (u + w)[1..] == u[1..] + w;
      KeysAppend(u[1..], w);
    }
  }

  lemma {:induction false} KeysWithout(es: seq<Slot>, key: string)
    ensures KeysOf(Without(es, key)) == KeysOf(es) - {key}
  {
    if es != [] {
      KeysWithout(es[1..], key);
      var head := if es[0].key == key then [] else [es[0]];
      KeysAppend(head, Without(es[1..], key));
      assert KeysOf(head) == {es[0].key} - {key};
    }
  }

  lemma {:induction false} KeyCount(es: seq<Slot>)
    requires Distinct(es)
    ensures |KeysOf(es)| == |es|
  {
    if es != [] {
      KeyCount(es[1..]);
      KeysAre(es[1..], es[0].key);
      assert es[0].key !in KeysOf(es[1..]);
    }
  }

  lemma {:induction false} FindAppend(u: seq<Slot>, w: seq<Slot>, key: string)
    ensures Find(u + w, key) == if key in KeysOf(u) then Find(u, key) else Find(w, key)
  {
    if u == [] {
      assert u + w == w;
    } else {
      assert (u + w)[1..] == u[1..] + w;
      FindAppend(u[1..], w, key);
    }
  }

  // ----- runs -----

  datatype Op = GetOp(key: string, now: int) | SetOp(key: string, value: Answer, ttl: int, now: int)

  function Apply(es: seq<Slot>, op: Op, max: nat): seq<Slot> {
    match op
    case GetOp(key, now) => Fetch(es, key, now).0
    case SetOp(key, value, ttl, now) => Store(es, key, value, ttl, now, max)
  }

  function Run(es: seq<Slot>, ops: seq<Op>, max: nat): seq<Slot>
    decreases |ops|
  {
    if ops == [] then es else Run(Apply(es, ops[0], max), ops[1..], max)
  }

  /** A set, and a get that hits, use their key. */
  function Uses(es: seq<Slot>, op: Op): set<string> {
    if op.SetOp? || Fetch(es, op.key, op.now).1.Some? then {op.key} else {}
  }

  function Used(es: seq<Slot>, ops: seq<Op>, max: nat): set<string>
    decreases |ops|
  {
    if ops == [] then {} else Uses(es, ops[0]) + Used(Apply(es, ops[0], max), ops[1..], max)
  }

  /** The step drops an entry because its time is up. */
  predicate Expires(es: seq<Slot>, op: Op) {
    op.GetOp? && Find(es, op.key).Some? && op.now >= Find(es, op.key).value.expiresAt
  }

  predicate NoneExpire(es: seq<Slot>, ops: seq<Op>, max: nat)
    decreases |ops|
  {
    ops != [] ==> !Expires(es, ops[0]) && NoneExpire(Apply(es, ops[0], max), ops[1..], max)
  }

  predicate Bounded(es: seq<Slot>, max: nat) { Distinct(es) && |es| <= max }

  lemma MovedToEnd(es: seq<Slot>, key: string, slot: Slot)
    requires Distinct(es) && slot.key == key
    ensures Distinct(Without(es, key) + [slot])
    ensures key in KeysOf(es) ==> |Without(es, key) + [slot]| == |es|
  {
    WithoutIs(es, key);
    var w := Without(es, key);
    KeysWithout(es, key);
    KeyCount(es);
    KeyCount(w);
  }

  lemma StepBounded(es: seq<Slot>, op: Op, max: nat)
    requires Bounded(es, max)
    ensures Bounded(Apply(es, op, max), max)
  {
    match op
    case GetOp(key, now) =>
      WithoutIs(es, key);
      FindIs(es, key);
      if Find(es, key).Some? { MovedToEnd(es, key, Find(es, key).value); }
    case SetOp(key, value, ttl, now) =>
      MovedToEnd(es, key, Slot(key, value, now + ttl));
      TrimmedBounded(Without(es, key) + [Slot(key, value, now + ttl)], max);
  }

  lemma TrimmedTail(es: seq<Slot>, max: nat)
    requires |es| > max
    ensures Trimmed(es[1..], max) == Trimmed(es, max)
  {
  }

  lemma TrimmedBounded(es: seq<Slot>, max: nat)
    requires Distinct(es)
    ensures Bounded(Trimmed(es, max), max)
  {
    if |es| > max { DistinctTail(es, |es| - max); }
  }

  lemma {:induction false} RunBounded(es: seq<Slot>, ops: seq<Op>, max: nat)
    requires Bounded(es, max)
    ensures Bounded(Run(es, ops, max), max)
    decreases |ops|
  {
    if ops != [] {
      StepBounded(es, ops[0], max);
      RunBounded(Apply(es, ops[0], max), ops[1..], max);
    }
  }

  lemma {:induction false} RunAppend(es: seq<Slot>, first: seq<Op>, second: seq<Op>, max: nat)
    ensures Run(es, first + second, max) == Run(Run(es, first, max), second, max)
    decreases |first|
  {
    if first == [] {
      assert first + second == second;
    } else {
      assert (first + second)[1..] == first[1..] + second;
      RunAppend(Apply(es, first[0], max), first[1..], second, max);
    }
  }

  // ----- what a key's last use protects it from -----

  /** The entry of interest, split off from the colder and the warmer ones. */
  datatype Split = Split(u: seq<Slot>, e: Slot, w: seq<Slot>) {
    function All(): seq<Slot> { u + ([e] + w) }
  }

  lemma SplitIs(p: Split, key: string)
    requires key != p.e.key && Distinct(p.All())
    ensures Without(p.All(), key) == Without(p.u, key) + ([p.e] + Without(p.w, key))
    ensures KeysOf(Without(p.w, key)) == KeysOf(p.w) - {key}
    ensures p.e.key in KeysOf(p.All())
  {
    WithoutAppend(p.u, [p.e] + p.w, key);
    WithoutAppend([p.e], p.w, key);
    KeysWithout(p.w, key);
    KeysAppend(p.u, [p.e] + p.w);
    KeysAppend([p.e], p.w);
  }

  /**
   `q` is where the entry of `p` is in `es` after `used` keys other than its own: it stays put unless enough
   warmer keys push it out, and `clean` tells whether every key used is still warmer than it.
   */
  ghost predicate Tracks(p: Split, q: Split, used: set<string>, es: seq<Slot>, clean: bool, max: nat) {
    && q.e == p.e && KeysOf(q.w) <= KeysOf(p.w) + used
    && (clean && p.e.key in KeysOf(es) ==> KeysOf(q.w) == KeysOf(p.w) + used)
    && (|KeysOf(p.w) + used| < max ==> es == q.All())
    && (p.e.key in KeysOf(es) ==> es == q.All())
  }

  lemma StepSplit(p: Split, op: Op, max: nat) returns (q: Split)
    requires Bounded(p.All(), max) && op.key != p.e.key
    ensures Tracks(p, q, Uses(p.All(), op), Apply(p.All(), op, max), !Expires(p.All(), op), max)
  {
    if op.GetOp? { q := GetSplit(p, op, max); } else { q := SetSplit(p, op, max); }
  }

  lemma GetSplit(p: Split, op: Op, max: nat) returns (q: Split)
    requires Bounded(p.All(), max) && op.GetOp? && op.key != p.e.key
    ensures Tracks(p, q, Uses(p.All(), op), Apply(p.All(), op, max), !Expires(p.All(), op), max)
  {
    var key, now := op.key, op.now;
    FindIs(p.All(), key);
    match Find(p.All(), key)
    case None => q := p;
    case Some(slot) =>
      if now >= slot.expiresAt {
        SplitIs(p, key);
        q := Split(Without(p.u, key), p.e, Without(p.w, key));
      } else {
        q := MoveSplit(p, key, slot);
      }
  }

  lemma MoveSplit(p: Split, key: string, slot: Slot) returns (q: Split)
    requires Distinct(p.All()) && key != p.e.key && slot.key == key
    ensures q == Split(Without(p.u, key), p.e, Without(p.w, key) + [slot])
    ensures Without(p.All(), key) + [slot] == q.All()
    ensures KeysOf(q.w) == KeysOf(p.w) + {key}
  {
    SplitIs(p, key);
    q := Split(Without(p.u, key), p.e, Without(p.w, key) + [slot]);
    OneMoreKey(Without(p.w, key), slot);
  }

  lemma SetSplit(p: Split, op: Op, max: nat) returns (q: Split)
    requires Bounded(p.All(), max) && op.SetOp? && op.key != p.e.key
    ensures Tracks(p, q, Uses(p.All(), op), Apply(p.All(), op, max), !Expires(p.All(), op), max)
  {
    var slot := Slot(op.key, op.value, op.now + op.ttl);
    assert Apply(p.All(), op, max) == Trimmed(Without(p.All(), op.key) + [slot], max);
    assert Uses(p.All(), op) == {op.key} && !Expires(p.All(), op);
    q := TrimSplit(p, op.key, slot, max);
  }

  lemma TrimSplit(p: Split, key: string, slot: Slot, max: nat) returns (q: Split)
    requires Distinct(p.All()) && key != p.e.key && slot.key == key
    ensures Tracks(p, q, {key}, Trimmed(Without(p.All(), key) + [slot], max), true, max)
  {
    q := MoveSplit(p, key, slot);
    var u, w, whole := q.u, q.w, q.All();
    MovedToEnd(p.All(), key, slot);
    WarmCount(u, p.e, w);
    if |w| < max {
      var drop := if |whole| > max then |whole| - max else 0;
      q := Split(u[drop..], p.e, w);
      assert Trimmed(whole, max) == q.All();
    } else {
      TrimmedAway(u, p.e, w, max);
    }
  }

  lemma WarmCount(u: seq<Slot>, e: Slot, w: seq<Slot>)
    requires Distinct(u + ([e] + w))
    ensures |KeysOf(w)| == |w| && e.key !in KeysOf(w)
  {
    PartsOf(u, e, w);
    DistinctTail(u + ([e] + w), |u| + 1);
    KeyCount(w);
  }

  lemma PartsOf(u: seq<Slot>, e: Slot, w: seq<Slot>)
    ensures (u + ([e] + w))[|u| + 1..] == w && (u + ([e] + w))[|u|] == e
  {
  }

  lemma TrimmedAway(u: seq<Slot>, e: Slot, w: seq<Slot>, max: nat)
    requires Distinct(u + ([e] + w)) && |w| >= max
    ensures e.key !in KeysOf(Trimmed(u + ([e] + w), max))
  {
    var t := Trimmed(u + ([e] + w), max);
    assert t == w[|w| - max..];
    WarmCount(u, e, w);
    assert w == w[..|w| - max] + t;
    KeysAppend(w[..|w| - max], t);
  }

  lemma {:induction false} StaysGone(es: seq<Slot>, key: string, ops: seq<Op>, max: nat)
    requires key !in KeysOf(es) && forall i :: 0 <= i < |ops| ==> ops[i].key != key
    ensures key !in KeysOf(Run(es, ops, max))
    decreases |ops|
  {
    if ops != [] {
      StepStaysGone(es, key, ops[0], max);
      StaysGone(Apply(es, ops[0], max), key, ops[1..], max);
    }
  }

  lemma StepStaysGone(es: seq<Slot>, key: string, op: Op, max: nat)
    requires key !in KeysOf(es) && op.key != key
    ensures key !in KeysOf(Apply(es, op, max))
  {
    KeysWithout(es, op.key);
    var w := Without(es, op.key);
    match op
    case GetOp(_, now) => GetStaysGone(es, key, op.key, now);
    case SetOp(_, value, ttl, now) =>
      var slot := Slot(op.key, value, now + ttl);
      OneMoreKey(w, slot);
      TrimmedKeys(w + [slot], max);
  }

  lemma GetStaysGone(es: seq<Slot>, key: string, asked: string, now: int)
    requires key !in KeysOf(es) && asked != key
    ensures key !in KeysOf(Fetch(es, asked, now).0)
  {
    KeysWithout(es, asked);
    FindIs(es, asked);
    if Find(es, asked).Some? { OneMoreKey(Without(es, asked), Find(es, asked).value); }
  }

  lemma OneMoreKey(es: seq<Slot>, slot: Slot)
    ensures KeysOf(es + [slot]) == KeysOf(es) + {slot.key}
  {
    KeysAppend(es, [slot]);
    assert KeysOf([slot]) == {slot.key};
  }

  lemma TrimmedKeys(es: seq<Slot>, max: nat)
    ensures KeysOf(Trimmed(es, max)) <= KeysOf(es)
  {
    if |es| > max {
      assert es == es[..|es| - max] + es[|es| - max..];
      KeysAppend(es[..|es| - max], es[|es| - max..]);
    }
  }

  lemma TracksOn(p: Split, m: Split, used: set<string>, clean: bool,
                 q: Split, later: set<string>, es: seq<Slot>, still: bool, max: nat)
    requires Tracks(p, m, used, m.All(), clean, max) && Tracks(m, q, later, es, still, max)
    ensures Tracks(p, q, used + later, es, clean && still, max)
  {
    KeysAppend(m.u, [m.e] + m.w);
    KeysAppend([m.e], m.w);
    assert KeysOf(p.w) + used + later == KeysOf(p.w) + (used + later);
    SmallerSet(KeysOf(m.w) + later, KeysOf(p.w) + (used + later));
  }

  /** Once gone, it is tracked by anything. */
  lemma TracksGone(p: Split, m: Split, used: set<string>, es: seq<Slot>, clean: bool,
                   later: set<string>, end: seq<Slot>, still: bool, max: nat)
    requires Tracks(p, m, used, es, clean, max) && es != m.All() && p.e.key !in KeysOf(end)
    ensures Tracks(p, p, used + later, end, still, max)
  {
    SmallerSet(KeysOf(p.w) + used, KeysOf(p.w) + (used + later));
  }

  lemma {:induction false} RunSplit(p: Split, ops: seq<Op>, max: nat) returns (q: Split)
    requires Bounded(p.All(), max) && forall i :: 0 <= i < |ops| ==> ops[i].key != p.e.key
    ensures Tracks(p, q, Used(p.All(), ops, max), Run(p.All(), ops, max), NoneExpire(p.All(), ops, max), max)
    decreases |ops|
  {
    if ops == [] {
      q := p;
      assert KeysOf(p.w) + {} == KeysOf(p.w);
    } else {
      var op, rest := ops[0], ops[1..];
      var es := Apply(p.All(), op, max);
      var m := StepSplit(p, op, max);
      StepBounded(p.All(), op, max);
      assert forall i :: 0 <= i < |rest| ==> rest[i] == ops[i+1];
      var used, later := Uses(p.All(), op), Used(es, rest, max);
      var clean, still := !Expires(p.All(), op), NoneExpire(es, rest, max);
      if es == m.All() {
        q := RunSplit(m, rest, max);
        TracksOn(p, m, used, clean, q, later, Run(es, rest, max), still, max);
      } else {
        StaysGone(es, p.e.key, rest, max);
        q := p;
        TracksGone(p, m, used, es, clean, later, Run(es, rest, max), clean && still, max);
      }
    }
  }

  /** Right after a use, the key's entry is the warmest. */
  lemma AfterUse(es: seq<Slot>, op: Op, max: nat) returns (p: Split)
    requires Bounded(es, max) && max > 0 && Uses(es, op) == {op.key}
    ensures Apply(es, op, max) == p.All() && p.w == [] && p.e.key == op.key
    ensures op.SetOp? ==> p.e == Slot(op.key, op.value, op.now + op.ttl)
    ensures op.GetOp? ==> Find(es, op.key) == Some(p.e)
  {
    match op
    case GetOp(key, now) =>
      FindIs(es, key);
      p := LastSplit(Without(es, key), Find(es, key).value);
    case SetOp(key, value, ttl, now) =>
      p := TrimmedLast(Without(es, key), Slot(key, value, now + ttl), max);
  }

  lemma LastSplit(u: seq<Slot>, e: Slot) returns (p: Split)
    ensures p == Split(u, e, []) && p.All() == u + [e]
  {
    p := Split(u, e, []);
    assert [e] + [] == [e];
  }

  lemma TrimmedLast(u: seq<Slot>, e: Slot, max: nat) returns (p: Split)
    requires max > 0
    ensures p.All() == Trimmed(u + [e], max) && p.e == e && p.w == []
  {
    var drop := if |u| + 1 > max then |u| + 1 - max else 0;
    p := LastSplit(u[drop..], e);
    assert (u + [e])[drop..] == u[drop..] + [e];
  }

  /**
   Least recently used: after a use of a key (and no further one), its entry is in the cache as long as
   fewer than `max` other keys were used; and if no entry ran out of time meanwhile, no longer than that.
   */
  lemma {:induction false} EvictedExactlyWhenCold(es: seq<Slot>, use: Op, since: seq<Op>, max: nat)
    requires Bounded(es, max) && max > 0 && Uses(es, use) == {use.key}
    requires forall i :: 0 <= i < |since| ==> since[i].key != use.key
    ensures
      var before, after := Apply(es, use, max), Run(es, [use] + since, max);
      && Find(before, use.key).Some?
      && (|Used(before, since, max)| < max ==> Find(after, use.key) == Find(before, use.key))
      && (Find(after, use.key).Some? ==> Find(after, use.key) == Find(before, use.key))
      && (NoneExpire(before, since, max) ==>
            (Find(after, use.key).Some? <==> |Used(before, since, max)| < max))
  {
    var p := AfterUse(es, use, max);
    var before, after := Apply(es, use, max), Run(es, [use] + since, max);
    assert ([use] + since)[1..] == since;
    StepBounded(es, use, max);
    RunBounded(before, since, max);
    var q := RunSplit(p, since, max);
    var used := Used(before, since, max);
    assert KeysOf(p.w) + used == used;
    SplitFinds(p, max);
    FindIs(after, use.key);
    if after == q.All() {
      SplitFinds(q, max);
    }
  }

  lemma SplitFinds(p: Split, max: nat)
    requires Bounded(p.All(), max)
    ensures Find(p.All(), p.e.key) == Some(p.e) && |KeysOf(p.w)| < max
  {
    FindAppend(p.u, [p.e] + p.w, p.e.key);
    KeysAre(p.u, p.e.key);
    forall i | 0 <= i < |p.u| ensures p.u[i].key != p.e.key {
      assert p.All()[i] == p.u[i] && p.All()[|p.u|] == p.e;
    }
    WarmCount(p.u, p.e, p.w);
    FindIs(p.All(), p.e.key);
  }

  /** The cache read as a memory: a hit is the value last set, and is younger than its lifetime. */
  lemma {:induction false} HitIsLastSet(before: seq<Op>, set_: Op, since: seq<Op>, now: int, max: nat)
    requires set_.SetOp? && max > 0 && forall i :: 0 <= i < |since| ==> since[i].key != set_.key
    ensures
      var warm := Apply(Run([], before, max), set_, max);
      var hit := Fetch(Run([], before + [set_] + since, max), set_.key, now).1;
      && (hit.Some? ==> hit.value == set_.value && now < set_.now + set_.ttl)
      && (now < set_.now + set_.ttl && |Used(warm, since, max)| < max ==> hit == Some(set_.value))
  {
    RunBounded([], before, max);
    var es := Run([], before, max);
    assert before + [set_] + since == before + ([set_] + since);
    RunAppend([], before, [set_] + since, max);
    var p := AfterUse(es, set_, max);
    StepBounded(es, set_, max);
    SplitFinds(p, max);
    EvictedExactlyWhenCold(es, set_, since, max);
  }
}
