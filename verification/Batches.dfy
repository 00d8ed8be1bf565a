/** Cutting what is to be sent into batches the collector takes (`chunk` in apps/tracker/src/transport.ts). */
module Batches {
  import opened RetryQueues

  const MAX_EVENTS_PER_BATCH := 100
  const MAX_BATCH_BYTES := 262_144

  type Batch = seq<TrackerEvent>

  /** Full batches so far, and the one still being filled. */
  datatype Groups = Groups(full: seq<Batch>, open: Batch)

  function Grouped(events: seq<TrackerEvent>): Groups {
    if events == [] then Groups([], [])
    else
      var g := Grouped(events[..|events|-1]);
      var open := g.open + [events[|events|-1]];
      if |open| >= MAX_EVENTS_PER_BATCH then Groups(g.full + [open], []) else Groups(g.full, open)
  }

  function Batched(events: seq<TrackerEvent>): seq<Batch> {
    var g := Grouped(events);
    if |g.open| > 0 then g.full + [g.open] else g.full
  }

  function Middle(n: nat): nat { (n + 1) / 2 }

  /** One batch, halved until every piece fits or is a single event. */
  function Halve(batch: Batch, size: Batch -> nat): seq<Batch>
    decreases |batch|
  {
    if |batch| == 0 then []
    else if |batch| == 1 || size(batch) <= MAX_BATCH_BYTES then [batch]
    else Halve(batch[..Middle(|batch|)], size) + Halve(batch[Middle(|batch|)..], size)
  }

  function HalveAll(batches: seq<Batch>, size: Batch -> nat): seq<Batch> {
    if batches == [] then [] else Halve(batches[0], size) + HalveAll(batches[1..], size)
  }

  function Chunk(events: seq<TrackerEvent>, size: Batch -> nat): seq<Batch> {
    HalveAll(Batched(events), size)
  }

  // ----- the source's loops -----

  function Reversed(batches: seq<Batch>): seq<Batch> {
    if batches == [] then [] else Reversed(batches[1..]) + [batches[0]]
  }

  /** What a stack (top at the end) will still contribute. */
  function Unstacked(stack: seq<Batch>, size: Batch -> nat): seq<Batch> {
    if stack == [] then [] else Halve(stack[|stack|-1], size) + Unstacked(stack[..|stack|-1], size)
  }

  lemma {:induction false} UnstackedReversed(batches: seq<Batch>, size: Batch -> nat)
    ensures Unstacked(Reversed(batches), size) == HalveAll(batches, size)
  {
    if batches != [] {
      UnstackedReversed(batches[1..], size);
      assert Reversed(batches)[..|Reversed(batches)|-1] == Reversed(batches[1..]);
    }
  }

  /** The measure that makes the halving loop end: a split strictly lowers it. */
  function Weight(stack: seq<Batch>): nat {
    if stack == [] then 0
    else (if |stack[|stack|-1]| == 0 then 1 else 2 * |stack[|stack|-1]| - 1) + Weight(stack[..|stack|-1])
  }

  lemma SplitLowersWeight(stack: seq<Batch>, a: Batch, b: Batch, whole: nat)
    requires |a| > 0 && |b| > 0 && |a| + |b| == whole
    ensures Weight(stack + [b, a]) < (2 * whole - 1) + Weight(stack)
  {
    assert (stack + [b, a])[..|stack|+1] == stack + [b];
    assert (stack + [b])[..|stack|] == stack;
  }

  /** First loop: runs of at most the event limit. */
  method GroupEvents(events: seq<TrackerEvent>) returns (batches: seq<Batch>)
    ensures batches == Batched(events)
  {
    batches := [];
    var current: Batch := [];
    for i := 0 to |events|
      invariant Grouped(events[..i]) == Groups(batches, current)
    {
      assert events[..i+1][..i] == events[..i];
      current := current + [events[i]];
      if |current| >= MAX_EVENTS_PER_BATCH {
        batches := batches + [current];
        current := [];
      }
    }
    assert events[..|events|] == events;
    if |current| > 0 { batches := batches + [current]; }
  }

  /** Second loop: what is too long is cut in two, and its front half is looked at next. */
  method ChunkEvents(events: seq<TrackerEvent>, size: Batch -> nat) returns (sized: seq<Batch>)
    ensures sized == Chunk(events, size)
  {
    var batches := GroupEvents(events);
    sized := [];
    var stack := Reversed(batches);
    UnstackedReversed(batches, size);
    while |stack| > 0
      invariant sized + Unstacked(stack, size) == Chunk(events, size)
      decreases Weight(stack)
    {
      var batch := stack[|stack|-1];
      var below := stack[..|stack|-1];
      assert Unstacked(stack, size) == Halve(batch, size) + Unstacked(below, size);
      stack := below;
      if |batch| == 0 { continue; }
      if |batch| == 1 || size(batch) <= MAX_BATCH_BYTES {
        assert sized + ([batch] + Unstacked(below, size)) == sized + [batch] + Unstacked(below, size);
        sized := sized + [batch];
        continue;
      }
      var first, second := batch[..Middle(|batch|)], batch[Middle(|batch|)..];
      SplitLowersWeight(below, first, second, |batch|);
      UnstackedPair(below, second, first, size);
      stack := below + [second, first];
    }
  }

  lemma UnstackedPair(stack: seq<Batch>, below: Batch, top: Batch, size: Batch -> nat)
    ensures Unstacked(stack + [below, top], size) == Halve(top, size) + Halve(below, size) + Unstacked(stack, size)
  {
    assert Halve(top, size) + (Halve(below, size) + Unstacked(stack, size))
        == Halve(top, size) + Halve(below, size) + Unstacked(stack, size);
    assert (stack + [below, top])[..|stack|+1] == stack + [below];
    assert (stack + [below])[..|stack|] == stack;
  }

  // ----- what the split promises -----

  function Joined(batches: seq<Batch>): Batch {
    if batches == [] then [] else batches[0] + Joined(batches[1..])
  }

  predicate Fits(b: Batch, size: Batch -> nat) {
    && 0 < |b| <= MAX_EVENTS_PER_BATCH
    && (|b| == 1 || size(b) <= MAX_BATCH_BYTES)
  }

  lemma {:induction false} JoinedAppend(a: seq<Batch>, b: seq<Batch>)
    ensures Joined(a + b) == Joined(a) + Joined(b)
  {
    if a == [] {
      assert a + b == b;
    } else {
      assert (a + b)[1..] == a[1..] + b;
      JoinedAppend(a[1..], b);
    }
  }

  lemma {:induction false} GroupedIs(events: seq<TrackerEvent>)
    ensures
      var g := Grouped(events);
      && Joined(g.full) + g.open == events
      && |g.open| < MAX_EVENTS_PER_BATCH
      && forall b :: b in g.full ==> |b| == MAX_EVENTS_PER_BATCH
  {
    if events != [] {
      var before, last := events[..|events|-1], events[|events|-1];
      GroupedIs(before);
      var g := Grouped(before);
      GroupedOn(g.full, g.open, last, before);
      CutLastEvent(events);
    }
  }

  lemma CutLastEvent(events: seq<TrackerEvent>)
    requires events != []
    ensures events == events[..|events|-1] + [events[|events|-1]]
  {
  }

  /** One more event at the end, whether it fills the open batch or not. */
  lemma GroupedOn(full: seq<Batch>, open: Batch, e: TrackerEvent, before: seq<TrackerEvent>)
    requires Joined(full) + open == before
    ensures Joined(full) + (open + [e]) == before + [e]
    ensures Joined(full + [open + [e]]) == before + [e]
  {
    JoinedAppend(full, [open + [e]]);
    assert Joined([open + [e]]) == open + [e] + Joined([]);
    assert Joined(full) + (open + [e]) == Joined(full) + open + [e];
  }

  lemma HalvesJoin(batch: Batch)
    ensures batch[..Middle(|batch|)] + batch[Middle(|batch|)..] == batch
  {
  }

  lemma {:induction false} HalveIs(batch: Batch, size: Batch -> nat)
    requires |batch| <= MAX_EVENTS_PER_BATCH
    ensures Joined(Halve(batch, size)) == batch
    ensures forall b :: b in Halve(batch, size) ==> Fits(b, size)
    decreases |batch|
  {
    if |batch| > 1 && size(batch) > MAX_BATCH_BYTES {
      var first, second := batch[..Middle(|batch|)], batch[Middle(|batch|)..];
      HalveIs(first, size);
      HalveIs(second, size);
      JoinedAppend(Halve(first, size), Halve(second, size));
      HalvesJoin(batch);
    } else if |batch| > 0 {
      assert Joined([batch]) == batch;
    }
  }

  lemma {:induction false} HalveAllIs(batches: seq<Batch>, size: Batch -> nat)
    requires forall b :: b in batches ==> |b| <= MAX_EVENTS_PER_BATCH
    ensures Joined(HalveAll(batches, size)) == Joined(batches)
    ensures forall b :: b in HalveAll(batches, size) ==> Fits(b, size)
  {
    if batches != [] {
      HalveIs(batches[0], size);
      HalveAllIs(batches[1..], size);
      JoinedAppend(Halve(batches[0], size), HalveAll(batches[1..], size));
    }
  }

  /** Nothing is lost, added or moved, and every batch is within both limits or is a single event. */
  lemma {:induction false} ChunkSplits(events: seq<TrackerEvent>, size: Batch -> nat)
    ensures Joined(Chunk(events, size)) == events
    ensures forall b :: b in Chunk(events, size) ==> Fits(b, size)
  {
    GroupedIs(events);
    var g := Grouped(events);
    JoinedAppend(g.full, [g.open]);
    assert Joined([g.open]) == g.open;
    HalveAllIs(Batched(events), size);
  }

  /** A split only happens when it must: groups that all fit leave as they were grouped, all but the last one full. */
  lemma {:induction false} FittingGroupsStayWhole(batches: seq<Batch>, size: Batch -> nat)
    requires forall b :: b in batches ==> Fits(b, size)
    ensures HalveAll(batches, size) == batches
  {
    if batches != [] {
      assert batches == [batches[0]] + batches[1..];
      assert Fits(batches[0], size);
      FittingGroupsStayWhole(batches[1..], size);
    }
  }

  // ----- how large the pieces are -----

  lemma {:induction false} ManyFit(batches: seq<Batch>, size: Batch -> nat)
    requires forall b: Batch :: |b| <= 100 ==> size(b) <= 262_144
    requires forall b :: b in batches ==> 0 < |b| <= 100
    ensures HalveAll(batches, size) == batches
  {
    forall b | b in batches ensures Fits(b, size) { }
    FittingGroupsStayWhole(batches, size);
  }

  /** Where bytes are no issue, events go a hundred at a time, the last batch holding what is left. */
  lemma {:induction false} HundredAtATime(events: seq<TrackerEvent>, size: Batch -> nat)
    requires forall b: Batch :: |b| <= 100 ==> size(b) <= 262_144
    ensures
      var chunk := Chunk(events, size);
      && (forall i :: 0 <= i < |chunk| - 1 ==> |chunk[i]| == 100)
      && (chunk != [] ==> 0 < |chunk[|chunk|-1]| <= 100)
  {
    GroupedIs(events);
    var g, groups := Grouped(events), Batched(events);
    forall i | 0 <= i < |groups| ensures 0 < |groups[i]| <= 100 && (i < |groups| - 1 ==> |groups[i]| == 100) {
      if i < |g.full| { assert g.full[i] in g.full; }
    }
    ManyFit(groups, size);
  }

  /** A batch of too many bytes is cut in the middle, the first half the larger one. */
  lemma CutInTheMiddle(batch: Batch, size: Batch -> nat)
    requires |batch| > 1 && size(batch) > 262_144
    requires var m := (|batch| + 1) / 2; size(batch[..m]) <= 262_144 && size(batch[m..]) <= 262_144
    ensures var m := (|batch| + 1) / 2; Halve(batch, size) == [batch[..m], batch[m..]]
  {
    var m := (|batch| + 1) / 2;
    assert Halve(batch[..m], size) == [batch[..m]] && Halve(batch[m..], size) == [batch[m..]];
  }

  /** No piece is smaller than it must be: if `m` events always fit, a piece that was cut holds half as many at least. */
  lemma {:induction false} PiecesAreLarge(batch: Batch, size: Batch -> nat, m: nat)
    requires forall b: Batch :: |b| <= m ==> size(b) <= 262_144
    ensures forall p :: p in Halve(batch, size) ==> p == batch || |p| >= (m + 1) / 2
    decreases |batch|
  {
    if |batch| > 1 && size(batch) > 262_144 {
      var k := Middle(|batch|);
      PiecesAreLarge(batch[..k], size, m);
      PiecesAreLarge(batch[k..], size, m);
    }
  }
}
