/**
 Coalescing of nearby outages for the overview timeline
 (api/src/overview/overview-aggregate.ts).

 Times are integer milliseconds. The source keeps broken time in seconds; here it
 stays in milliseconds until it is rounded, so sums are exact.
 */
module OverviewSpans {
  import opened Options

  const MAX_TIMELINE_SPANS: nat := 200

  datatype ClippedOutage = ClippedOutage(checkId: string, start: int, end: int, open: bool, brokenMs: int)

  datatype Span = Span(start: int, end: int, open: bool, count: nat, brokenMs: int)

  datatype TimelineSpan = TimelineSpan(startedAt: int, endedAt: Option<int>, outageCount: nat, brokenSeconds: int)

  function Max(a: int, b: int): int { if a < b then b else a }

  function Min(a: int, b: int): int { if a < b then a else b }

  /** `Math.round` of a number of milliseconds expressed in seconds. */
  function RoundSeconds(ms: int): int { (ms + 500) / 1000 }

  // ----- One pass -----

  /** The span that covers both; the open flag follows the later end, ties prefer open. */
  function Merge(a: Span, b: Span): Span {
    var open := if b.end > a.end then b.open else if b.end == a.end then a.open || b.open else a.open;
    Span(a.start, Max(a.end, b.end), open, a.count + b.count, a.brokenMs + b.brokenMs)
  }

  predicate Apart(last: Span, next: Span, gapMs: real) {
    (next.start - last.end) as real >= gapMs
  }

  /** The pass over `rest` while `last` is the span being grown. */
  function CoalesceFrom(last: Span, rest: seq<Span>, gapMs: real): (merged: seq<Span>)
    ensures 1 <= |merged| <= 1 + |rest|
    ensures merged[0].start == last.start
    decreases rest
  {
    if rest == [] then [last]
    else if Apart(last, rest[0], gapMs) then [last] + CoalesceFrom(rest[0], rest[1..], gapMs)
    else CoalesceFrom(Merge(last, rest[0]), rest[1..], gapMs)
  }

  function Coalesce(spans: seq<Span>, gapMs: real): (merged: seq<Span>)
    ensures |merged| <= |spans|
    ensures spans != [] ==> |merged| > 0
  {
    if spans == [] then [] else CoalesceFrom(spans[0], spans[1..], gapMs)
  }

  /** The source's loop: the last merged span is updated in place. */
  method CoalesceSpans(spans: seq<Span>, gapMs: real) returns (merged: seq<Span>)
    ensures merged == Coalesce(spans, gapMs)
  {
    merged := [];
    for i := 0 to |spans|
      invariant i == 0 ==> merged == []
      invariant i > 0 ==> merged != []
      invariant i > 0 ==> Coalesce(spans, gapMs)
                          == merged[..|merged| - 1] + CoalesceFrom(merged[|merged| - 1], spans[i..], gapMs)
    {
      var span := spans[i];
      assert i > 0 ==> spans[i..] == [span] + spans[i + 1..];
      if merged == [] {
        merged := [span];
        assert spans[i..] == spans;
      } else {
        var k := |merged| - 1;
        var last := merged[k];
        if (span.start - last.end) as real >= gapMs {
          ghost var before := merged[..k];
          merged := merged + [span];
          assert merged[..|merged| - 1] == before + [last];
        } else {
          if span.end > last.end {
            last := last.(open := span.open);
          } else if span.end == last.end {
            last := last.(open := last.open || span.open);
          }
          last := last.(end := Max(last.end, span.end));
          last := last.(count := last.count + span.count);
          last := last.(brokenMs := last.brokenMs + span.brokenMs);
          assert last == Merge(merged[k], span);
          merged := merged[k := last];
        }
      }
    }
    if spans != [] {
      assert spans[|spans|..] == [];
    }
  }

  // ----- Passes compose -----

  lemma MergeAssociates(a: Span, b: Span, c: Span)
    ensures Merge(Merge(a, b), c) == Merge(a, Merge(b, c))
  {
  }

  /** A pass at `g` before a pass at a wider `h` changes nothing, with the spans grown so far as state. */
  lemma {:induction false} PassesComposeFrom(cur: Span, rest: seq<Span>, g: real, h: real)
    requires g <= h
    ensures var fine := CoalesceFrom(cur, rest, g);
            CoalesceFrom(fine[0], fine[1..], h) == CoalesceFrom(cur, rest, h)
    decreases |rest|, 1
  {
    if rest != [] {
      var next, tail := rest[0], rest[1..];
      if Apart(cur, next, g) {
        var fine := CoalesceFrom(next, tail, g);
        assert ([cur] + fine)[1..] == fine;
        if Apart(cur, next, h) {
          PassesComposeFrom(next, tail, g, h);
        } else {
          AbsorbedPassesCompose(cur, next, tail, g, h);
        }
      } else {
        PassesComposeFrom(Merge(cur, next), tail, g, h);
      }
    }
  }

  /** The same when the wide pass merges the first fine span into `acc`. */
  lemma {:induction false} AbsorbedPassesCompose(acc: Span, cur: Span, rest: seq<Span>, g: real, h: real)
    requires g <= h && !Apart(acc, cur, h)
    ensures CoalesceFrom(acc, CoalesceFrom(cur, rest, g), h) == CoalesceFrom(Merge(acc, cur), rest, h)
    decreases |rest|, 0
  {
    if rest != [] {
      var next, tail := rest[0], rest[1..];
      if Apart(cur, next, g) {
        var fine := CoalesceFrom(next, tail, g);
        assert ([cur] + fine)[1..] == fine;
        if Apart(Merge(acc, cur), next, h) {
          PassesComposeFrom(next, tail, g, h);
        } else {
          AbsorbedPassesCompose(Merge(acc, cur), next, tail, g, h);
        }
      } else {
        MergeAssociates(acc, cur, next);
        AbsorbedPassesCompose(acc, Merge(cur, next), tail, g, h);
      }
    }
  }

  /** coalesce(coalesce(s, g), h) = coalesce(s, h) for every list of spans and every g <= h. */
  lemma PassesCompose(spans: seq<Span>, g: real, h: real)
    requires g <= h
    ensures Coalesce(Coalesce(spans, g), h) == Coalesce(spans, h)
  {
    if spans != [] {
      PassesComposeFrom(spans[0], spans[1..], g, h);
    }
  }

  /** A wider gap never yields more spans. */
  lemma WiderGapNeverAddsSpans(spans: seq<Span>, g: real, h: real)
    requires g <= h
    ensures |Coalesce(spans, h)| <= |Coalesce(spans, g)|
  {
    PassesCompose(spans, g, h);
  }

  // ----- The doubling loop -----

  predicate WellFormed(spans: seq<Span>) {
    forall i :: 0 <= i < |spans| ==> spans[i].start <= spans[i].end
  }

  predicate SortedSpans(spans: seq<Span>) {
    forall i, j :: 0 <= i < j < |spans| ==> Before(spans[i], spans[j])
  }

  /** The sort comparator: by start, then by end. */
  predicate Before(a: Span, b: Span) {
    a.start < b.start || (a.start == b.start && a.end <= b.end)
  }

  /** Distance from the earliest start to the latest start. */
  function Spread(spans: seq<Span>): int {
    if spans == [] then 0 else spans[|spans| - 1].start - spans[0].start
  }

  /** When more than one span survives, the gap is at most the spread, so doubling it must stop. */
  lemma {:induction false} SurvivingGapIsBounded(cur: Span, rest: seq<Span>, gapMs: real)
    requires cur.start <= cur.end && WellFormed(rest)
    requires forall i, j :: 0 <= i < j < |rest| ==> rest[i].start <= rest[j].start
    requires forall i :: 0 <= i < |rest| ==> cur.start <= rest[i].start
    requires |CoalesceFrom(cur, rest, gapMs)| > 1
    ensures rest != [] && gapMs <= (rest[|rest| - 1].start - cur.start) as real
    decreases rest
  {
    if rest != [] && !Apart(cur, rest[0], gapMs) {
      SurvivingGapIsBounded(Merge(cur, rest[0]), rest[1..], gapMs);
    }
  }

  /** The first gap in `gapMs`, 2 `gapMs`, 4 `gapMs`, ... that leaves few enough spans. */
  ghost function SettledGap(sorted: seq<Span>, gapMs: real): (settled: real)
    requires gapMs >= 1.0 && WellFormed(sorted) && SortedSpans(sorted)
    ensures settled >= gapMs
    ensures |Coalesce(sorted, settled)| <= MAX_TIMELINE_SPANS
    ensures settled > gapMs ==> |Coalesce(sorted, settled / 2.0)| > MAX_TIMELINE_SPANS
    decreases Spread(sorted) as real - gapMs
  {
    if |Coalesce(sorted, gapMs)| <= MAX_TIMELINE_SPANS then gapMs
    else
      SurvivingGapIsBounded(sorted[0], sorted[1..], gapMs);
      SettledGap(sorted, 2.0 * gapMs)
  }

  /** Every narrower gap tried before the settled one leaves too many spans. */
  lemma SettledGapIsFirst(sorted: seq<Span>, gapMs: real, tried: real)
    requires gapMs >= 1.0 && WellFormed(sorted) && SortedSpans(sorted)
    requires SettledGap(sorted, gapMs) > gapMs && tried <= SettledGap(sorted, gapMs) / 2.0
    ensures |Coalesce(sorted, tried)| > MAX_TIMELINE_SPANS
  {
    WiderGapNeverAddsSpans(sorted, tried, SettledGap(sorted, gapMs) / 2.0);
  }

  function ToSpan(o: ClippedOutage): Span {
    Span(o.start, Max(o.start, o.end), o.open, 1, o.brokenMs)
  }

  function ToSpans(outages: seq<ClippedOutage>): (spans: seq<Span>)
    ensures |spans| == |outages|
    ensures forall i :: 0 <= i < |outages| ==> spans[i] == ToSpan(outages[i])
    ensures WellFormed(spans)
  {
    seq(|outages|, i requires 0 <= i < |outages| => ToSpan(outages[i]))
  }

  /** Stable insertion, standing for the library sort. */
  function Insert(span: Span, sorted: seq<Span>): (r: seq<Span>)
    ensures |r| == |sorted| + 1 && multiset(r) == multiset{span} + multiset(sorted)
  {
    if sorted == [] then [span]
    else
      assert sorted == [sorted[0]] + sorted[1..];
      if Before(span, sorted[0]) then [span] + sorted else [sorted[0]] + Insert(span, sorted[1..])
  }

  function SortSpans(spans: seq<Span>): (sorted: seq<Span>)
    ensures |sorted| == |spans| && multiset(sorted) == multiset(spans)
  {
    if spans == [] then []
    else
      assert spans == [spans[0]] + spans[1..];
      Insert(spans[0], SortSpans(spans[1..]))
  }

  lemma SameElements<T>(a: seq<T>, b: seq<T>, x: T)
    requires multiset(a) == multiset(b)
    ensures |a| == |b| && (x in a <==> x in b)
  {
    assert x in multiset(a) <==> x in multiset(b);
    assert |multiset(a)| == |a| && |multiset(b)| == |b|;
  }

  lemma {:induction false} InsertSorted(span: Span, sorted: seq<Span>)
    requires SortedSpans(sorted)
    ensures SortedSpans(Insert(span, sorted))
  {
    if sorted != [] && !Before(span, sorted[0]) {
      var tail := Insert(span, sorted[1..]);
      InsertSorted(span, sorted[1..]);
      forall j | 0 <= j < |tail| ensures Before(sorted[0], tail[j]) {
        assert tail[j] in multiset(tail);
        assert tail[j] == span || tail[j] in sorted[1..];
      }
    }
  }

  lemma {:induction false} SortSorts(spans: seq<Span>)
    ensures SortedSpans(SortSpans(spans))
    ensures WellFormed(spans) ==> WellFormed(SortSpans(spans))
  {
    if spans != [] {
      SortSorts(spans[1..]);
      InsertSorted(spans[0], SortSpans(spans[1..]));
    }
    var sorted := SortSpans(spans);
    forall i | 0 <= i < |sorted| && WellFormed(spans) ensures sorted[i].start <= sorted[i].end {
      SameElements(sorted, spans, sorted[i]);
    }
  }

  function InitialGap(rangeMs: int): (gapMs: real)
    ensures gapMs >= 1.0
  {
    if rangeMs as real / 1000.0 > 1.0 then rangeMs as real / 1000.0 else 1.0
  }

  function Present(span: Span): TimelineSpan {
    TimelineSpan(span.start, if span.open then None else Some(span.end), span.count, RoundSeconds(span.brokenMs))
  }

  function PresentAll(spans: seq<Span>): (r: seq<TimelineSpan>)
    ensures |r| == |spans|
    ensures forall i :: 0 <= i < |spans| ==> r[i] == Present(spans[i])
  {
    seq(|spans|, i requires 0 <= i < |spans| => Present(spans[i]))
  }

  /** The gap at which the doubling loop ends. */
  ghost function FinalGap(outages: seq<ClippedOutage>, rangeMs: int): real {
    SortSorts(ToSpans(outages));
    SettledGap(SortSpans(ToSpans(outages)), InitialGap(rangeMs))
  }

  /** The unrounded spans behind the timeline: one pass at the final gap. */
  ghost function TimelineOf(outages: seq<ClippedOutage>, rangeMs: int): seq<Span> {
    Coalesce(SortSpans(ToSpans(outages)), FinalGap(outages, rangeMs))
  }

  /** One turn of the doubling loop. */
  lemma DoublingTurn(sorted: seq<Span>, gapMs: real)
    requires gapMs >= 1.0 && WellFormed(sorted) && SortedSpans(sorted)
    requires |Coalesce(sorted, gapMs)| > MAX_TIMELINE_SPANS
    ensures gapMs <= Spread(sorted) as real
    ensures SettledGap(sorted, 2.0 * gapMs) == SettledGap(sorted, gapMs)
    ensures Coalesce(Coalesce(sorted, gapMs), 2.0 * gapMs) == Coalesce(sorted, 2.0 * gapMs)
  {
    SurvivingGapIsBounded(sorted[0], sorted[1..], gapMs);
    PassesCompose(sorted, gapMs, 2.0 * gapMs);
  }

  /**
   The source's doubling loop coalesces its previous result again and again; it
   returns what a single pass over the sorted outages at the final gap returns.
   */
  method DoubleGapUntilFew(sorted: seq<Span>, initialGapMs: real) returns (spans: seq<Span>)
    requires initialGapMs >= 1.0 && WellFormed(sorted) && SortedSpans(sorted)
    ensures spans == Coalesce(sorted, SettledGap(sorted, initialGapMs))
    ensures |spans| <= MAX_TIMELINE_SPANS
  {
    var gapMs := initialGapMs;
    spans := CoalesceSpans(sorted, gapMs);
    while |spans| > MAX_TIMELINE_SPANS
      invariant gapMs >= 1.0
      invariant spans == Coalesce(sorted, gapMs)
      invariant SettledGap(sorted, gapMs) == SettledGap(sorted, initialGapMs)
      decreases Spread(sorted) as real - gapMs
    {
      DoublingTurn(sorted, gapMs);
      gapMs := 2.0 * gapMs;
      spans := CoalesceSpans(spans, gapMs);
    }
  }

  method TimelineSpans(outages: seq<ClippedOutage>, rangeMs: int) returns (timeline: seq<TimelineSpan>)
    ensures timeline == PresentAll(TimelineOf(outages, rangeMs))
    ensures |timeline| <= MAX_TIMELINE_SPANS
  {
    SortSorts(ToSpans(outages));
    var spans := DoubleGapUntilFew(SortSpans(ToSpans(outages)), InitialGap(rangeMs));
    timeline := PresentAll(spans);
  }

  // ----- What a span is made of -----

  /** One span for a whole block of consecutive outages. */
  function MergeAll(block: seq<Span>): Span
    requires block != []
  {
    if |block| == 1 then block[0] else Merge(MergeAll(block[..|block| - 1]), block[|block| - 1])
  }

  /** The consecutive blocks a pass merges, `block` being the one under way. */
  function BlocksFrom(block: seq<Span>, rest: seq<Span>, gapMs: real): (blocks: seq<seq<Span>>)
    requires block != []
    ensures |blocks| > 0 && NonEmptyBlocks(blocks)
    decreases rest
  {
    if rest == [] then [block]
    else if Apart(MergeAll(block), rest[0], gapMs) then [block] + BlocksFrom([rest[0]], rest[1..], gapMs)
    else BlocksFrom(block + [rest[0]], rest[1..], gapMs)
  }

  predicate NonEmptyBlocks(blocks: seq<seq<Span>>) {
    forall k :: 0 <= k < |blocks| ==> blocks[k] != []
  }

  /** Each result span stands for the block at its position. */
  predicate MadeOf(merged: seq<Span>, blocks: seq<seq<Span>>)
    requires NonEmptyBlocks(blocks)
  {
    |merged| == |blocks| && forall k :: 0 <= k < |merged| ==> merged[k] == MergeAll(blocks[k])
  }

  function Flatten(blocks: seq<seq<Span>>): seq<Span> {
    if blocks == [] then [] else blocks[0] + Flatten(blocks[1..])
  }

  function TotalCount(spans: seq<Span>): nat {
    if spans == [] then 0 else TotalCount(spans[..|spans| - 1]) + spans[|spans| - 1].count
  }

  function TotalBroken(spans: seq<Span>): int {
    if spans == [] then 0 else TotalBroken(spans[..|spans| - 1]) + spans[|spans| - 1].brokenMs
  }

  /** A pass cuts its input, unchanged and in order, into the blocks the result spans stand for. */
  lemma {:induction false} BlocksPartition(block: seq<Span>, rest: seq<Span>, gapMs: real)
    requires block != []
    ensures Flatten(BlocksFrom(block, rest, gapMs)) == block + rest
    ensures MadeOf(CoalesceFrom(MergeAll(block), rest, gapMs), BlocksFrom(block, rest, gapMs))
    decreases rest
  {
    if rest == [] {
      assert Flatten([block]) == block + Flatten([]);
    } else {
      var next, tail := rest[0], rest[1..];
      assert rest == [next] + tail;
      if Apart(MergeAll(block), next, gapMs) {
        BlocksPartition([next], tail, gapMs);
        var blocks := BlocksFrom([next], tail, gapMs);
        assert ([block] + blocks)[1..] == blocks;
      } else {
        assert (block + [next])[..|block|] == block;
        BlocksPartition(block + [next], tail, gapMs);
        assert (block + [next]) + tail == block + rest;
      }
    }
  }

  predicate Within(o: Span, span: Span) {
    span.start <= o.start && o.end <= span.end
  }

  predicate EndsAt(o: Span, end: int) { o.end == end }

  /** The span ends with the last of the block, and is open exactly when an open one ends there. */
  ghost predicate EndsWith(block: seq<Span>, span: Span) {
    && (forall o :: o in block ==> o.end <= span.end)
    && (exists o :: o in block && EndsAt(o, span.end))
    && (span.open <==> exists o :: o in block && EndsAt(o, span.end) && o.open)
  }

  lemma MergeKeepsEnds(front: seq<Span>, last: Span, span: Span)
    requires EndsWith(front, span)
    ensures EndsWith(front + [last], Merge(span, last))
  {
    var block, merged := front + [last], Merge(span, last);
    assert last in block && forall o :: o in block <==> o in front || o == last;
    var w :| w in front && EndsAt(w, span.end);
    assert w in block;
    if span.end >= last.end {
      assert EndsAt(w, merged.end);
      if span.open {
        var o :| o in front && EndsAt(o, span.end) && o.open;
        assert o in block && EndsAt(o, merged.end);
      } else if merged.open {
        assert EndsAt(last, merged.end);
      }
    } else {
      assert EndsAt(last, merged.end);
    }
  }

  /** What a merged block keeps: first start, latest end, sums, and whether an open outage ends last. */
  lemma {:induction false} MergeAllMeaning(block: seq<Span>)
    requires block != []
    ensures var span := MergeAll(block);
            && span.start == block[0].start
            && span.count == TotalCount(block) && span.brokenMs == TotalBroken(block)
            && EndsWith(block, span)
  {
    var front, last := block[..|block| - 1], block[|block| - 1];
    assert block == front + [last];
    if |block| > 1 {
      MergeAllMeaning(front);
      MergeKeepsEnds(front, last, MergeAll(front));
    } else {
      assert TotalCount(front) == 0 && TotalBroken(front) == 0;
      assert last in block && EndsAt(last, last.end);
    }
  }

  lemma {:induction false} TotalsOfConcat(a: seq<Span>, b: seq<Span>)
    ensures TotalCount(a + b) == TotalCount(a) + TotalCount(b)
    ensures TotalBroken(a + b) == TotalBroken(a) + TotalBroken(b)
  {
    if b == [] {
      assert a + b == a;
    } else {
      var front := b[..|b| - 1];
      TotalsOfConcat(a, front);
      assert (a + b)[..|a + b| - 1] == a + front;
    }
  }

  lemma {:induction false} TotalsOfBlocks(blocks: seq<seq<Span>>, merged: seq<Span>)
    requires NonEmptyBlocks(blocks) && MadeOf(merged, blocks)
    ensures TotalCount(merged) == TotalCount(Flatten(blocks))
    ensures TotalBroken(merged) == TotalBroken(Flatten(blocks))
    decreases blocks
  {
    if blocks != [] {
      TotalsOfBlocks(blocks[1..], merged[1..]);
      MergeAllMeaning(blocks[0]);
      TotalsOfConcat(blocks[0], Flatten(blocks[1..]));
      TotalsOfConcat([merged[0]], merged[1..]);
      assert [merged[0]] + merged[1..] == merged;
      assert [merged[0]][..0] == [];
    }
  }

  // ----- Conservation -----

  predicate AllApart(spans: seq<Span>, gapMs: real) {
    forall k :: 0 <= k < |spans| - 1 ==> Apart(spans[k], spans[k + 1], gapMs)
  }

  predicate InOrder(spans: seq<Span>) {
    forall j, k :: 0 <= j < k < |spans| ==> spans[j].end < spans[k].start
  }

  /** `o` lies in exactly one of `spans`. */
  ghost predicate InExactlyOne(o: Span, spans: seq<Span>) {
    exists k :: 0 <= k < |spans| && Within(o, spans[k])
      && forall j :: 0 <= j < |spans| && Within(o, spans[j]) ==> j == k
  }

  /** Some open outage inside `span` attains its end. */
  ghost predicate OpenAtEnd(span: Span, outages: seq<Span>) {
    exists o :: o in outages && Within(o, span) && o.end == span.end && o.open
  }

  /** Result spans are never inverted, and consecutive ones are at least the gap apart. */
  lemma {:induction false} SpansApartFrom(cur: Span, rest: seq<Span>, gapMs: real)
    requires cur.start <= cur.end && WellFormed(rest)
    ensures WellFormed(CoalesceFrom(cur, rest, gapMs)) && AllApart(CoalesceFrom(cur, rest, gapMs), gapMs)
    decreases rest
  {
    if rest != [] {
      if Apart(cur, rest[0], gapMs) {
        SpansApartFrom(rest[0], rest[1..], gapMs);
      } else {
        SpansApartFrom(Merge(cur, rest[0]), rest[1..], gapMs);
      }
    }
  }

  /** With a positive gap, any two result spans are disjoint and in order. */
  lemma {:induction false} SpansInOrder(spans: seq<Span>, gapMs: real, j: nat, k: nat)
    requires gapMs > 0.0 && WellFormed(spans) && AllApart(spans, gapMs) && j < k < |spans|
    ensures spans[j].end < spans[k].start
    decreases k - j
  {
    assert Apart(spans[j], spans[j + 1], gapMs);
    if j + 1 < k {
      SpansInOrder(spans, gapMs, j + 1, k);
    }
  }

  /** Locates an element of a flattened list in its block. */
  lemma {:induction false} BlockOf(blocks: seq<seq<Span>>, o: Span) returns (k: nat)
    requires o in Flatten(blocks)
    ensures k < |blocks| && o in blocks[k]
    decreases blocks
  {
    if o in blocks[0] {
      k := 0;
    } else {
      var rest := BlockOf(blocks[1..], o);
      k := rest + 1;
    }
  }

  /** In a flattened sorted list, the head of a block starts no later than the block's elements. */
  lemma {:induction false} BlockHeadsFirst(blocks: seq<seq<Span>>, k: nat, o: Span)
    requires SortedSpans(Flatten(blocks)) && k < |blocks| && o in blocks[k]
    ensures blocks[k][0].start <= o.start && o in Flatten(blocks)
    decreases k
  {
    var flat, rest := Flatten(blocks), Flatten(blocks[1..]);
    if k == 0 {
      var i :| 0 <= i < |blocks[0]| && blocks[0][i] == o;
      assert flat[i] == o && flat[0] == blocks[0][0];
    } else {
      assert forall i :: 0 <= i < |rest| ==> rest[i] == flat[|blocks[0]| + i];
      BlockHeadsFirst(blocks[1..], k - 1, o);
    }
  }

  /** The span of an outage's own block contains it. */
  lemma WithinOwnBlock(blocks: seq<seq<Span>>, merged: seq<Span>, k: nat, o: Span)
    requires NonEmptyBlocks(blocks) && MadeOf(merged, blocks) && SortedSpans(Flatten(blocks))
    requires k < |blocks| && o in blocks[k]
    ensures Within(o, merged[k]) && o in Flatten(blocks)
  {
    BlockHeadsFirst(blocks, k, o);
    MergeAllMeaning(blocks[k]);
  }

  lemma InExactlyOneSpan(blocks: seq<seq<Span>>, merged: seq<Span>, o: Span)
    requires NonEmptyBlocks(blocks) && MadeOf(merged, blocks) && SortedSpans(Flatten(blocks))
    requires InOrder(merged) && o in Flatten(blocks) && o.start <= o.end
    ensures InExactlyOne(o, merged)
  {
    var k := BlockOf(blocks, o);
    WithinOwnBlock(blocks, merged, k, o);
    forall j | 0 <= j < |merged| && j != k ensures !Within(o, merged[j]) {
      if j < k {
        assert merged[j].end < merged[k].start;
      } else {
        assert merged[k].end < merged[j].start;
      }
    }
  }

  /** A result span is open exactly when an open outage inside it attains its end. */
  lemma OpenFlagMeaning(blocks: seq<seq<Span>>, merged: seq<Span>, k: nat)
    requires NonEmptyBlocks(blocks) && MadeOf(merged, blocks)
    requires SortedSpans(Flatten(blocks)) && WellFormed(Flatten(blocks)) && InOrder(merged) && k < |merged|
    ensures merged[k].open <==> OpenAtEnd(merged[k], Flatten(blocks))
  {
    var span := merged[k];
    MergeAllMeaning(blocks[k]);
    if span.open {
      var o :| o in blocks[k] && o.end == span.end && o.open;
      WithinOwnBlock(blocks, merged, k, o);
    }
    if OpenAtEnd(span, Flatten(blocks)) {
      var o :| o in Flatten(blocks) && Within(o, span) && o.end == span.end && o.open;
      var j := BlockOf(blocks, o);
      WithinOwnBlock(blocks, merged, j, o);
      assert j == k;
    }
  }

  /** What one pass over sorted outages keeps. */
  lemma PassConserves(spans: seq<Span>, gapMs: real)
    requires gapMs > 0.0 && WellFormed(spans) && SortedSpans(spans)
    ensures TotalCount(Coalesce(spans, gapMs)) == TotalCount(spans)
    ensures TotalBroken(Coalesce(spans, gapMs)) == TotalBroken(spans)
    ensures AllApart(Coalesce(spans, gapMs), gapMs) && InOrder(Coalesce(spans, gapMs))
    ensures forall o :: o in spans ==> InExactlyOne(o, Coalesce(spans, gapMs))
    ensures forall span :: span in Coalesce(spans, gapMs) ==> (span.open <==> OpenAtEnd(span, spans))
  {
    if spans != [] {
      var merged := Coalesce(spans, gapMs);
      var blocks := BlocksFrom([spans[0]], spans[1..], gapMs);
      BlocksPartition([spans[0]], spans[1..], gapMs);
      assert Flatten(blocks) == spans;
      TotalsOfBlocks(blocks, merged);
      SpansApartFrom(spans[0], spans[1..], gapMs);
      forall j, k | 0 <= j < k < |merged| ensures merged[j].end < merged[k].start {
        SpansInOrder(merged, gapMs, j, k);
      }
      forall o | o in spans ensures InExactlyOne(o, merged) {
        InExactlyOneSpan(blocks, merged, o);
      }
      forall k | 0 <= k < |merged| ensures merged[k].open <==> OpenAtEnd(merged[k], spans) {
        OpenFlagMeaning(blocks, merged, k);
      }
    }
  }

  // ----- Order independence -----

  predicate SameKey(a: Span, b: Span) { a.start == b.start && a.end == b.end }

  /** Two neighbours with the same start and end can be exchanged. */
  lemma SwapTies(cur: Span, a: Span, b: Span, rest: seq<Span>, gapMs: real)
    requires gapMs > 0.0 && SameKey(a, b) && a.start <= a.end
    ensures CoalesceFrom(cur, [a, b] + rest, gapMs) == CoalesceFrom(cur, [b, a] + rest, gapMs)
  {
    var ab, ba := [a, b] + rest, [b, a] + rest;
    assert ab[1..] == [b] + rest && ba[1..] == [a] + rest && ab[1..][1..] == rest && ba[1..][1..] == rest;
    assert Merge(a, b) == Merge(b, a);
    MergeAssociates(cur, a, b);
    MergeAssociates(cur, b, a);
  }

  /** An element can be moved to the front over elements with its own start and end. */
  lemma {:induction false} MoveToFront(cur: Span, ties: seq<Span>, x: Span, rest: seq<Span>, gapMs: real)
    requires gapMs > 0.0 && x.start <= x.end && forall i :: 0 <= i < |ties| ==> SameKey(ties[i], x)
    ensures CoalesceFrom(cur, ties + [x] + rest, gapMs) == CoalesceFrom(cur, [x] + ties + rest, gapMs)
    decreases ties
  {
    if ties == [] {
      assert ties + [x] + rest == [x] + ties + rest;
    } else {
      var t, more := ties[0], ties[1..];
      var inner := more + [x] + rest;
      assert ties + [x] + rest == [t] + inner;
      assert ([t] + inner)[1..] == inner;
      var moved := [x] + more + rest;
      if Apart(cur, t, gapMs) {
        MoveToFront(t, more, x, rest, gapMs);
      } else {
        MoveToFront(Merge(cur, t), more, x, rest, gapMs);
      }
      assert ([t] + moved)[1..] == moved;
      assert CoalesceFrom(cur, [t] + inner, gapMs) == CoalesceFrom(cur, [t] + moved, gapMs);
      assert [t] + moved == [t, x] + (more + rest);
      SwapTies(cur, t, x, more + rest, gapMs);
      assert [x, t] + (more + rest) == [x] + ties + rest;
    }
  }

  /** Sorted lists with the same elements coalesce alike, however ties were ordered. */
  lemma {:induction false} TieOrderIrrelevantFrom(cur: Span, a: seq<Span>, b: seq<Span>, gapMs: real)
    requires gapMs > 0.0 && SortedSpans(a) && SortedSpans(b) && WellFormed(a) && multiset(a) == multiset(b)
    ensures CoalesceFrom(cur, a, gapMs) == CoalesceFrom(cur, b, gapMs)
    decreases |a|
  {
    assert |multiset(a)| == |a| && |multiset(b)| == |b|;
    if a != [] {
      var x := a[0];
      SameElements(a, b, x);
      var k :| 0 <= k < |b| && b[k] == x;
      var others := b[..k] + b[k + 1..];
      EarlierAreTies(a, b, k);
      ElementToFront(cur, b, k, gapMs);
      assert ([x] + others)[1..] == others;
      RemainingElements(a, b, k);
      var grown := if Apart(cur, x, gapMs) then x else Merge(cur, x);
      TieOrderIrrelevantFrom(grown, a[1..], others, gapMs);
    }
  }

  /** An element may be moved to the front when everything before it ties with it. */
  lemma ElementToFront(cur: Span, b: seq<Span>, k: nat, gapMs: real)
    requires gapMs > 0.0 && k < |b| && b[k].start <= b[k].end
    requires forall i :: 0 <= i < k ==> SameKey(b[i], b[k])
    ensures CoalesceFrom(cur, b, gapMs) == CoalesceFrom(cur, [b[k]] + (b[..k] + b[k + 1..]), gapMs)
  {
    MoveToFront(cur, b[..k], b[k], b[k + 1..], gapMs);
    assert b == b[..k] + [b[k]] + b[k + 1..];
    assert [b[k]] + b[..k] + b[k + 1..] == [b[k]] + (b[..k] + b[k + 1..]);
  }

  lemma EarlierAreTies(a: seq<Span>, b: seq<Span>, k: nat)
    requires SortedSpans(a) && SortedSpans(b) && multiset(a) == multiset(b)
    requires a != [] && k < |b| && b[k] == a[0]
    ensures forall i :: 0 <= i < k ==> SameKey(b[i], a[0])
  {
    forall i | 0 <= i < k ensures SameKey(b[i], a[0]) {
      SameElements(a, b, b[i]);
      var j :| 0 <= j < |a| && a[j] == b[i];
      assert j == 0 || Before(a[0], a[j]);
      assert Before(b[i], b[k]);
    }
  }

  lemma RemainingElements<T>(a: seq<T>, b: seq<T>, k: nat)
    requires multiset(a) == multiset(b) && a != [] && k < |b| && b[k] == a[0]
    ensures multiset(a[1..]) == multiset(b[..k] + b[k + 1..])
  {
    assert a == [a[0]] + a[1..];
    assert b == b[..k] + [b[k]] + b[k + 1..];
    assert multiset(a[1..]) == multiset(a) - multiset{a[0]};
    assert multiset(b[..k] + b[k + 1..]) == multiset(b) - multiset{b[k]};
  }

  lemma TieOrderIrrelevant(a: seq<Span>, b: seq<Span>, gapMs: real)
    requires gapMs > 0.0 && SortedSpans(a) && SortedSpans(b) && WellFormed(a) && multiset(a) == multiset(b)
    ensures Coalesce(a, gapMs) == Coalesce(b, gapMs)
  {
    assert |multiset(a)| == |a| && |multiset(b)| == |b|;
    if a != [] {
      // A leading span far to the left is never merged with anything.
      SameElements(a, b, a[0]);
      SameElements(a, b, b[0]);
      var far := a[0].start - gapMs.Floor - 1;
      var guard := Span(far, far, false, 0, 0);
      assert Apart(guard, a[0], gapMs) && Apart(guard, b[0], gapMs);
      TieOrderIrrelevantFrom(guard, a, b, gapMs);
      assert CoalesceFrom(guard, a, gapMs)[1..] == Coalesce(a, gapMs);
      assert CoalesceFrom(guard, b, gapMs)[1..] == Coalesce(b, gapMs);
    }
  }

  lemma {:induction false} SameOutagesSameSpans(a: seq<ClippedOutage>, b: seq<ClippedOutage>)
    requires multiset(a) == multiset(b)
    ensures multiset(ToSpans(a)) == multiset(ToSpans(b))
    decreases |a|
  {
    if a == [] {
      assert |multiset(b)| == 0;
      assert ToSpans(a) == ToSpans(b);
    } else {
      SameElements(a, b, a[0]);
      var k :| 0 <= k < |b| && b[k] == a[0];
      RemainingElements(a, b, k);
      var others := b[..k] + b[k + 1..];
      SameOutagesSameSpans(a[1..], others);
      SpansWithout(b, k);
      assert ToSpans(a) == [ToSpan(a[0])] + ToSpans(a[1..]);
    }
  }

  lemma SpansWithout(outages: seq<ClippedOutage>, k: nat)
    requires k < |outages|
    ensures multiset(ToSpans(outages))
         == multiset{ToSpan(outages[k])} + multiset(ToSpans(outages[..k] + outages[k + 1..]))
  {
    var before, after := ToSpans(outages[..k]), ToSpans(outages[k + 1..]);
    assert ToSpans(outages) == before + [ToSpan(outages[k])] + after;
    assert ToSpans(outages[..k] + outages[k + 1..]) == before + after;
  }

  /** The timeline does not depend on the order the outages were listed in. */
  lemma TimelineIgnoresOrder(a: seq<ClippedOutage>, b: seq<ClippedOutage>, rangeMs: int)
    requires multiset(a) == multiset(b)
    ensures TimelineOf(a, rangeMs) == TimelineOf(b, rangeMs)
  {
    var sa, sb := SortSpans(ToSpans(a)), SortSpans(ToSpans(b));
    SameOutagesSameSpans(a, b);
    SortSorts(ToSpans(a));
    SortSorts(ToSpans(b));
    SameSettledGap(sa, sb, InitialGap(rangeMs));
    TieOrderIrrelevant(sa, sb, SettledGap(sa, InitialGap(rangeMs)));
  }

  lemma {:induction false} SameSettledGap(a: seq<Span>, b: seq<Span>, gapMs: real)
    requires gapMs >= 1.0 && multiset(a) == multiset(b)
    requires WellFormed(a) && SortedSpans(a) && WellFormed(b) && SortedSpans(b)
    ensures SettledGap(a, gapMs) == SettledGap(b, gapMs)
    decreases Spread(a) as real - gapMs
  {
    TieOrderIrrelevant(a, b, gapMs);
    if |Coalesce(a, gapMs)| > MAX_TIMELINE_SPANS {
      DoublingTurn(a, gapMs);
      DoublingTurn(b, gapMs);
      SameSettledGap(a, b, 2.0 * gapMs);
    }
  }

  function BrokenOf(outages: seq<ClippedOutage>): int {
    if outages == [] then 0 else BrokenOf(outages[..|outages| - 1]) + outages[|outages| - 1].brokenMs
  }

  lemma {:induction false} SpanTotals(outages: seq<ClippedOutage>)
    ensures TotalCount(ToSpans(outages)) == |outages|
    ensures TotalBroken(ToSpans(outages)) == BrokenOf(outages)
  {
    if outages != [] {
      var k := |outages| - 1;
      SpanTotals(outages[..k]);
      assert ToSpans(outages)[..k] == ToSpans(outages[..k]);
    }
  }

  lemma TotalsWithout(s: seq<Span>, k: nat)
    requires k < |s|
    ensures TotalCount(s) == s[k].count + TotalCount(s[..k] + s[k + 1..])
    ensures TotalBroken(s) == s[k].brokenMs + TotalBroken(s[..k] + s[k + 1..])
  {
    var front, rest := s[..k + 1], s[k + 1..];
    TotalsOfConcat(s[..k], rest);
    TotalsOfConcat(front, rest);
    assert s == front + rest && front[..k] == s[..k];
  }

  lemma {:induction false} TotalsIgnoreOrder(a: seq<Span>, b: seq<Span>)
    requires multiset(a) == multiset(b)
    ensures TotalCount(a) == TotalCount(b) && TotalBroken(a) == TotalBroken(b)
    decreases |a|
  {
    assert |multiset(a)| == |a| && |multiset(b)| == |b|;
    if a != [] {
      SameElements(a, b, a[0]);
      var k :| 0 <= k < |b| && b[k] == a[0];
      RemainingElements(a, b, k);
      TotalsIgnoreOrder(a[1..], b[..k] + b[k + 1..]);
      TotalsWithout(a, 0);
      TotalsWithout(b, k);
      assert a[..0] + a[1..] == a[1..];
    }
  }

  /**
   Timeline conservation: every outage lies in exactly one span, counts and broken
   time are kept, consecutive spans are at least the final gap apart, and a span is
   ongoing exactly when an open outage inside it attains its end.
   */
  lemma TimelineConserves(outages: seq<ClippedOutage>, rangeMs: int)
    ensures var spans, inputs := TimelineOf(outages, rangeMs), ToSpans(outages);
            && TotalCount(spans) == |outages| && TotalBroken(spans) == BrokenOf(outages)
            && FinalGap(outages, rangeMs) >= InitialGap(rangeMs)
            && AllApart(spans, FinalGap(outages, rangeMs)) && InOrder(spans)
            && (forall o :: o in inputs ==> InExactlyOne(o, spans))
            && (forall span :: span in spans ==> (span.open <==> OpenAtEnd(span, inputs)))
  {
    var inputs := ToSpans(outages);
    var sorted := SortSpans(inputs);
    SortSorts(inputs);
    var gapMs := FinalGap(outages, rangeMs);
    PassConserves(sorted, gapMs);
    TotalsIgnoreOrder(sorted, inputs);
    SpanTotals(outages);
    var spans := Coalesce(sorted, gapMs);
    forall o | o in inputs ensures InExactlyOne(o, spans) {
      SameElements(sorted, inputs, o);
    }
    forall span | span in spans ensures span.open <==> OpenAtEnd(span, inputs) {
      forall o ensures o in sorted <==> o in inputs {
        SameElements(sorted, inputs, o);
      }
    }
  }
}
