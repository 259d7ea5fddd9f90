/**
 What the overview's figures say of the outages and checks it is given, without the
 functions that compute them (api/src/overview/overview-aggregate.ts).
 */
module OverviewMeaning {
  import opened CheckStatus
  import opened Options
  import opened OverviewSpans
  import opened OverviewTotals
  import opened OverviewAggregate

  // ----- Positions -----

  /** `at` lists, in order, the positions below `n` that are chosen. */
  ghost predicate Selects(at: seq<nat>, n: nat, chosen: set<nat>) {
    && (forall i, j :: 0 <= i < j < |at| ==> at[i] < at[j])
    && (forall k: nat :: k in at <==> k < n && k in chosen)
  }

  function Positions(chosen: set<nat>, n: nat): seq<nat> {
    if n == 0 then [] else Positions(chosen, n - 1) + if n - 1 in chosen then [n - 1] else []
  }

  lemma {:induction false} PositionsSelect(chosen: set<nat>, n: nat)
    ensures Selects(Positions(chosen, n), n, chosen)
  {
    if n > 0 {
      PositionsSelect(chosen, n - 1);
      PositionsBelow(chosen, n - 1);
    }
  }

  lemma {:induction false} PositionsBelow(chosen: set<nat>, n: nat)
    ensures forall i :: 0 <= i < |Positions(chosen, n)| ==> Positions(chosen, n)[i] < n
  {
    if n > 0 {
      PositionsBelow(chosen, n - 1);
    }
  }

  // ----- Clipped outages -----

  /** Known is an outage of a check that the input lists. */
  predicate IsKnown(input: Input, o: Outage) { exists c :: c in input.checks && c.id == o.checkId }

  /** The part of an outage within the range: the instants of both, and their number. */
  ghost predicate IsPartOf(input: Input, x: ClippedOutage, o: Outage) {
    && x.checkId == o.checkId && (x.open <==> o.endedAt.None?)
    && x.end == (if o.endedAt.Some? then o.endedAt.value else input.now)
    && x.start >= o.startedAt && x.start >= input.rangeStart && (x.start == o.startedAt || x.start == input.rangeStart)
    && (forall t :: t in Millis(x.start, x.end) <==> o.startedAt <= t < x.end && input.rangeStart <= t)
    && x.brokenMs == |Millis(x.start, x.end)|
  }

  ghost function KnownPositions(input: Input, outages: seq<Outage>): set<nat> {
    set k: nat | k < |outages| && IsKnown(input, outages[k])
  }

  ghost predicate ClippedAt(input: Input, outages: seq<Outage>, clipped: seq<ClippedOutage>, at: seq<nat>) {
    |at| == |clipped| && forall i :: 0 <= i < |at| ==> at[i] < |outages| && IsPartOf(input, clipped[i], outages[at[i]])
  }

  lemma ClipNext(input: Input, outages: seq<Outage>, n: nat)
    requires n < |outages|
    ensures Clip(input, outages[..n + 1])
         == Clip(input, outages[..n])
          + if IsKnown(input, outages[n]) then [ClipOne(outages[n], input.now, input.rangeStart)] else []
  {
    assert outages[..n + 1][..n] == outages[..n];
  }

  lemma {:induction false} ClipUpTo(input: Input, outages: seq<Outage>, n: nat)
    requires n <= |outages|
    ensures var at, clipped := Positions(KnownPositions(input, outages), n), Clip(input, outages[..n]);
            |at| == |clipped|
            && forall i :: 0 <= i < |at| ==>
                 at[i] < n && clipped[i] == ClipOne(outages[at[i]], input.now, input.rangeStart)
  {
    if n > 0 {
      ClipUpTo(input, outages, n - 1);
      ClipNext(input, outages, n - 1);
    }
  }

  lemma PartOfOne(input: Input, o: Outage)
    ensures IsPartOf(input, ClipOne(o, input.now, input.rangeStart), o)
  {
  }

  /** The figures are about exactly the known outages, each cut to the range, in order. */
  lemma ClipMeaning(input: Input, outages: seq<Outage>) returns (at: seq<nat>)
    ensures Selects(at, |outages|, KnownPositions(input, outages))
    ensures ClippedAt(input, outages, Clip(input, outages), at)
  {
    at := Positions(KnownPositions(input, outages), |outages|);
    PositionsSelect(KnownPositions(input, outages), |outages|);
    ClipUpTo(input, outages, |outages|);
    assert outages[..|outages|] == outages;
    forall i | 0 <= i < |at| ensures IsPartOf(input, Clip(input, outages)[i], outages[at[i]]) {
      PartOfOne(input, outages[at[i]]);
    }
  }

  lemma {:induction false} BrokenOfConcat(a: seq<ClippedOutage>, b: seq<ClippedOutage>)
    ensures BrokenOf(a + b) == BrokenOf(a) + BrokenOf(b) && OpenCount(a + b) == OpenCount(a) + OpenCount(b)
  {
    if b == [] {
      assert a + b == a;
    } else {
      var k := |b| - 1;
      assert (a + b)[..|a| + k] == a + b[..k];
      BrokenOfConcat(a, b[..k]);
    }
  }

  /** Totals add up outage by outage. */
  lemma BrokenOfOne(x: ClippedOutage)
    ensures BrokenOf([x]) == x.brokenMs && OpenCount([x]) == if x.open then 1 else 0
  {
    assert [x][..0] == [];
  }

  /** The outages of one check, or of one organization's checks, are exactly those, in order. */
  lemma KeyMeaning(checks: seq<Check>, o: ClippedOutage, id: string)
    ensures CheckKey()(o) == id <==> o.checkId == id
    ensures (exists k: nat :: k < |checks| && checks[k].id == o.checkId) ==>
              exists k: nat :: k < |checks| && checks[k].id == o.checkId
                && (forall j :: k < j < |checks| ==> checks[j].id != o.checkId)
                && OrganizationKey(checks)(o) == checks[k].organizationId
  {
    if exists k: nat :: k < |checks| && checks[k].id == o.checkId {
      var k := LastWithId(checks, o.checkId);
    }
  }

  lemma {:induction false} LastWithId(checks: seq<Check>, id: string) returns (k: nat)
    requires exists j: nat :: j < |checks| && checks[j].id == id
    ensures k < |checks| && checks[k].id == id && CheckById(checks, id) == Some(checks[k])
    ensures forall j :: k < j < |checks| ==> checks[j].id != id
  {
    k := |checks| - 1;
    if checks[k].id != id {
      k := LastWithId(checks[..k], id);
    }
  }

  // ----- Rounding, median -----

  /** Rounded to the nearest second, half a second up. */
  lemma RoundMeaning(ms: int, s: int)
    ensures RoundSeconds(ms) == s <==> 1000 * s - 500 <= ms < 1000 * s + 500
  {
  }

  /** The median in seconds is the middle duration, or the mean of the two middle ones, rounded. */
  lemma MedianMeaning(sorted: seq<int>, s: int)
    ensures MedianSeconds(sorted).None? <==> sorted == []
    ensures sorted != [] ==>
              var mid := |sorted| / 2;
              var twice := sorted[mid] + if |sorted| % 2 == 1 then sorted[mid] else sorted[mid - 1];
              MedianSeconds(sorted) == Some(s) <==> 2000 * s - 1000 <= twice < 2000 * s + 1000
  {
  }

  // ----- Buckets -----

  /** A bucket's window: from its start up to the next one's, within the range and not after now. */
  lemma BucketWindow(input: Input, i: nat, t: int)
    requires i < |input.bucketStarts|
    ensures BucketLow(input, i) <= t < BucketHigh(input, i) <==>
            && input.bucketStarts[i] <= t && input.rangeStart <= t && t < input.now
            && (i + 1 < |input.bucketStarts| ==> t < input.bucketStarts[i + 1])
  {
  }

  /** An outage counts in a window for the instants they share. */
  lemma OverlapCounts(o: ClippedOutage, lo: int, hi: int)
    ensures Overlap(o, lo, hi) == |Millis(o.start, o.end) * Millis(lo, hi)|
  {
    var both := Millis(Max(o.start, lo), Min(o.end, hi));
    assert both == Millis(o.start, o.end) * Millis(lo, hi);
  }

  lemma {:induction false} OverlapOfConcat(a: seq<ClippedOutage>, b: seq<ClippedOutage>, lo: int, hi: int)
    ensures OverlapOf(a + b, lo, hi) == OverlapOf(a, lo, hi) + OverlapOf(b, lo, hi)
  {
    if b == [] {
      assert a + b == a;
    } else {
      var k := |b| - 1;
      assert (a + b)[..|a| + k] == a + b[..k];
      OverlapOfConcat(a, b[..k], lo, hi);
    }
  }

  // ----- Uptime -----

  /** A check is monitored from its creation, within the range, until now. */
  lemma MonitoredCounts(input: Input, c: Check)
    ensures MonitoredMs(input, c) == |Millis(Max(input.rangeStart, c.createdAt), input.now)|
    ensures forall t :: t in Millis(Max(input.rangeStart, c.createdAt), input.now) <==>
              input.rangeStart <= t < input.now && c.createdAt <= t
  {
  }

  /** Counted is a check that is not paused, and not new without an event. */
  predicate IsCounted(c: Check) { c.status != PAUSED && (c.status != NEW || c.lastEventAt.Some?) }

  predicate NoneBroken(clipped: seq<ClippedOutage>, checks: seq<Check>) {
    forall c :: c in checks && IsCounted(c) ==> BrokenOf(ForKey(clipped, CheckKey(), c.id)) == 0
  }

  /** Every counted check was broken for all the time it was monitored. */
  predicate AllBrokenAlong(input: Input, clipped: seq<ClippedOutage>) {
    forall c :: c in input.checks && IsCounted(c) ==>
      BrokenOf(ForKey(clipped, CheckKey(), c.id)) == MonitoredMs(input, c)
  }

  lemma {:induction false} NothingBroken(clipped: seq<ClippedOutage>, checks: seq<Check>)
    requires NoneBroken(clipped, checks)
    ensures MeasuredBroken(clipped, checks) == 0
  {
    if checks != [] {
      NothingBroken(clipped, checks[..|checks| - 1]);
    }
  }

  lemma {:induction false} AllBroken(input: Input, clipped: seq<ClippedOutage>, checks: seq<Check>)
    requires forall c :: c in checks && IsCounted(c) ==>
               BrokenOf(ForKey(clipped, CheckKey(), c.id)) == MonitoredMs(input, c)
    ensures MeasuredBroken(clipped, checks) == MeasuredMonitored(input, checks)
  {
    if checks != [] {
      AllBroken(input, clipped, checks[..|checks| - 1]);
    }
  }

  lemma {:induction false} SomethingMonitored(input: Input, checks: seq<Check>)
    ensures MeasuredMonitored(input, checks) >= 0
    ensures MeasuredMonitored(input, checks) > 0 <==>
            exists c :: c in checks && IsCounted(c) && MonitoredMs(input, c) > 0
  {
    if checks != [] {
      var k := |checks| - 1;
      SomethingMonitored(input, checks[..k]);
      assert checks == checks[..k] + [checks[k]];
    }
  }

  /**
   The account's uptime is reported exactly when some counted check was monitored at all; it
   is 100 when no counted check was broken, and 0 when each was broken all along.
   */
  lemma AccountUptime(input: Input, fire: CronFire, overview: Overview)
    requires IsOverview(input, fire, overview)
    ensures var clipped, u := Clip(input, input.outages), overview.summary.uptimePercent;
            && (u.Some? <==> exists c :: c in input.checks && IsCounted(c) && MonitoredMs(input, c) > 0)
            && (u.Some? && NoneBroken(clipped, input.checks) ==> u.value == 100.0)
            && (u.Some? && AllBrokenAlong(input, clipped) ==> u.value == 0.0)
  {
    var clipped, u := Clip(input, input.outages), overview.summary.uptimePercent;
    var b, m := MeasuredBroken(clipped, input.checks), MeasuredMonitored(input, input.checks);
    SomethingMonitored(input, input.checks);
    UptimeIsTheShare(u, b, m);
    if m > 0 {
      UptimeFalls(u, u, b, b, m);
      if NoneBroken(clipped, input.checks) {
        NothingBroken(clipped, input.checks);
      }
      if AllBrokenAlong(input, clipped) {
        AllBroken(input, clipped, input.checks);
      }
    }
  }

  /** Every row's uptime is its own check's share of the time it was monitored, if it is counted. */
  lemma RowUptime(input: Input, clipped: seq<ClippedOutage>, c: Check, t: CheckTotals)
    requires IsCheckTotals(input, clipped, c, t)
    ensures if IsCounted(c) then
              IsUptime(t.uptimePercent, BrokenOf(ForKey(clipped, CheckKey(), c.id)), MonitoredMs(input, c))
            else t.uptimePercent.None?
  {
    UptimeIsTheShare(t.uptimePercent, BrokenOf(ForKey(clipped, CheckKey(), c.id)), MonitoredMs(input, c));
  }

  // ----- Needs fixing -----

  /** The last listed open outage of a check, if it has one, began at `start`. */
  ghost predicate IsOpenStart(outages: seq<Outage>, id: string, start: Option<int>) {
    if start.None? then forall o :: o in outages && o.checkId == id ==> o.endedAt.Some?
    else
      exists k: nat :: k < |outages| && outages[k].checkId == id && outages[k].endedAt.None?
        && outages[k].startedAt == start.value
        && forall j :: k < j < |outages| && outages[j].checkId == id ==> outages[j].endedAt.Some?
  }

  lemma {:induction false} OpenStartMeaning(outages: seq<Outage>, id: string)
    ensures IsOpenStart(outages, id, OpenStart(outages, id))
  {
    if outages != [] {
      var k := |outages| - 1;
      var start := OpenStart(outages, id);
      if outages[k].endedAt.None? && outages[k].checkId == id {
        assert IsOpenStart(outages, id, Some(outages[k].startedAt));
      } else {
        OpenStartMeaning(outages[..k], id);
        if start.Some? {
          var i: nat :| i < k && outages[..k][i].checkId == id && outages[..k][i].endedAt.None?
                        && outages[..k][i].startedAt == start.value
                        && forall j :: i < j < k && outages[..k][j].checkId == id ==> outages[..k][j].endedAt.Some?;
          assert outages[i] == outages[..k][i] && forall j :: i < j < k ==> outages[..k][j] == outages[j];
        }
      }
    }
  }

  /** What is shown of a down check: since its open outage, or its last event, or now. */
  ghost predicate IsDownEntry(input: Input, c: Check, e: BrokenEntry) {
    && e.checkId == c.id && e.state == BROKEN_DOWN && e.downAt.None?
    && exists start :: IsOpenStart(input.outages, c.id, start)
         && e.since == if start.Some? then start.value
                       else if c.lastEventAt.Some? then c.lastEventAt.value else input.now
  }

  /** When the next event of a heartbeat was due: at the next fire of its schedule, or after its period. */
  function DueAfter(c: Check, event: int, fire: CronFire): Option<int> {
    if c.schedule.Some? && c.schedule.value != "" then
      Some(fire(c.schedule.value, if c.tz.Some? then c.tz.value else "UTC", event))
    else if c.periodSeconds.Some? then Some(event + 1000 * c.periodSeconds.value)
    else None
  }

  /** An up heartbeat whose next event was due before now. */
  predicate IsLate(c: Check, now: int, fire: CronFire) {
    && c.kind == "HEARTBEAT" && c.status == UP && c.lastEventAt.Some?
    && var due := DueAfter(c, c.lastEventAt.value, fire);
       due.Some? && due.value < now
  }

  /** What is shown of a late check: since it was due, and when its grace ends. */
  predicate IsLateEntry(c: Check, now: int, fire: CronFire, e: BrokenEntry) {
    && IsLate(c, now, fire) && e.checkId == c.id && e.state == BROKEN_LATE
    && var due := DueAfter(c, c.lastEventAt.value, fire).value;
       e.since == due && e.downAt == Some(due + 1000 * c.graceSeconds.GetOr(0))
  }

  ghost function DownPositions(checks: seq<Check>): set<nat> { set k: nat | k < |checks| && checks[k].status == DOWN }

  ghost function LatePositions(checks: seq<Check>, now: int, fire: CronFire): set<nat> {
    set k: nat | k < |checks| && IsLate(checks[k], now, fire)
  }

  ghost predicate DownEntriesAt(input: Input, checks: seq<Check>, entries: seq<BrokenEntry>, at: seq<nat>) {
    |at| == |entries| && forall i :: 0 <= i < |at| ==> at[i] < |checks| && IsDownEntry(input, checks[at[i]], entries[i])
  }

  ghost predicate LateEntriesAt(
      now: int, checks: seq<Check>, fire: CronFire, entries: seq<BrokenEntry>, at: seq<nat>) {
    |at| == |entries|
    && forall i :: 0 <= i < |at| ==> at[i] < |checks| && IsLateEntry(checks[at[i]], now, fire, entries[i])
  }

  function DownEntryOf(input: Input, c: Check): BrokenEntry {
    BrokenEntry(c.id, BROKEN_DOWN, OpenStart(input.outages, c.id).GetOr(c.lastEventAt.GetOr(input.now)), None)
  }

  lemma {:induction false} DownUpTo(input: Input, checks: seq<Check>, n: nat)
    requires n <= |checks|
    ensures var at, entries := Positions(DownPositions(checks), n), DownEntries(input, checks[..n]);
            |at| == |entries|
            && forall i :: 0 <= i < |at| ==> at[i] < n && entries[i] == DownEntryOf(input, checks[at[i]])
  {
    if n > 0 {
      DownUpTo(input, checks, n - 1);
      assert checks[..n][..n - 1] == checks[..n - 1];
    }
  }

  lemma LateOne(c: Check, now: int, fire: CronFire)
    ensures c.status != DOWN && LateState(c, now, fire).Some? <==> IsLate(c, now, fire)
    ensures IsLate(c, now, fire) ==>
              var late := LateState(c, now, fire).value;
              IsLateEntry(c, now, fire, BrokenEntry(c.id, BROKEN_LATE, late.since, Some(late.downAt)))
  {
  }

  lemma {:induction false} LateUpTo(now: int, checks: seq<Check>, fire: CronFire, n: nat)
    requires n <= |checks|
    ensures LateEntriesAt(now, checks, fire, LateEntries(now, checks[..n], fire),
                          Positions(LatePositions(checks, now, fire), n))
  {
    if n > 0 {
      LateUpTo(now, checks, fire, n - 1);
      assert checks[..n][..n - 1] == checks[..n - 1];
      LateOne(checks[n - 1], now, fire);
    }
  }

  lemma DownEntriesMeaning(input: Input) returns (at: seq<nat>)
    ensures Selects(at, |input.checks|, DownPositions(input.checks))
    ensures DownEntriesAt(input, input.checks, DownEntries(input, input.checks), at)
  {
    assert input.checks[..|input.checks|] == input.checks;
    at := Positions(DownPositions(input.checks), |input.checks|);
    PositionsSelect(DownPositions(input.checks), |input.checks|);
    DownUpTo(input, input.checks, |input.checks|);
    forall i | 0 <= i < |at| ensures IsDownEntry(input, input.checks[at[i]], DownEntries(input, input.checks)[i]) {
      OpenStartMeaning(input.outages, input.checks[at[i]].id);
    }
  }

  lemma LateEntriesMeaning(input: Input, fire: CronFire) returns (at: seq<nat>)
    ensures Selects(at, |input.checks|, LatePositions(input.checks, input.now, fire))
    ensures LateEntriesAt(input.now, input.checks, fire, LateEntries(input.now, input.checks, fire), at)
  {
    assert input.checks[..|input.checks|] == input.checks;
    at := Positions(LatePositions(input.checks, input.now, fire), |input.checks|);
    PositionsSelect(LatePositions(input.checks, input.now, fire), |input.checks|);
    LateUpTo(input.now, input.checks, fire, |input.checks|);
  }

  /** First the down checks, then the late ones, each part stably sorted by when it broke. */
  lemma NeedsFixingMeaning(input: Input, fire: CronFire, overview: Overview)
      returns (down: seq<BrokenEntry>, late: seq<BrokenEntry>, downAt: seq<nat>, lateAt: seq<nat>)
    requires IsOverview(input, fire, overview)
    ensures Selects(downAt, |input.checks|, DownPositions(input.checks))
    ensures Selects(lateAt, |input.checks|, LatePositions(input.checks, input.now, fire))
    ensures DownEntriesAt(input, input.checks, down, downAt)
    ensures LateEntriesAt(input.now, input.checks, fire, late, lateAt)
    ensures IsTwoParts(overview.needsFixing, down, late)
  {
    down, late := DownEntries(input, input.checks), LateEntries(input.now, input.checks, fire);
    downAt := DownEntriesMeaning(input);
    lateAt := LateEntriesMeaning(input, fire);
    PartsAreSorted(down, late);
  }

  function Since(): BrokenEntry -> int { (e: BrokenEntry) => e.since }

  ghost predicate IsTwoParts(entries: seq<BrokenEntry>, down: seq<BrokenEntry>, late: seq<BrokenEntry>) {
    && |entries| == |down| + |late|
    && IsStableSort(entries[..|down|], down, Since()) && IsStableSort(entries[|down|..], late, Since())
  }

  lemma PartsAreSorted(down: seq<BrokenEntry>, late: seq<BrokenEntry>)
    ensures IsTwoParts(SortBy(down, BySince()) + SortBy(late, BySince()), down, late)
  {
    var a, b := SortBy(down, BySince()), SortBy(late, BySince());
    SortByIsStable(down, BySince());
    SortByIsStable(late, BySince());
    assert |multiset(a)| == |a| && |multiset(down)| == |down| && |multiset(b)| == |b| && |multiset(late)| == |late|;
    assert (a + b)[..|down|] == a && (a + b)[|down|..] == b;
    assert BySince() == Since();
  }

  // ----- Timelines -----

  /** Each outage of the block but the first begins less than the gap after the end of an earlier one. */
  ghost predicate Chained(block: seq<Span>, gapMs: real) {
    forall k :: 1 <= k < |block| ==> FollowsClosely(block, k, gapMs)
  }

  predicate Close(block: seq<Span>, j: nat, k: nat, gapMs: real) {
    j < k < |block| && !Apart(block[j], block[k], gapMs)
  }

  ghost predicate FollowsClosely(block: seq<Span>, k: nat, gapMs: real) { exists j :: Close(block, j, k, gapMs) }

  /** Outages of different blocks are at least the gap apart. */
  ghost predicate CutApart(blocks: seq<seq<Span>>, gapMs: real) {
    forall i, j, x, y :: 0 <= i < j < |blocks| && x in blocks[i] && y in blocks[j] ==> Apart(x, y, gapMs)
  }

  /** The sorted outages, cut wherever none of the earlier ones reaches within the gap of the next. */
  ghost predicate IsClustering(sorted: seq<Span>, blocks: seq<seq<Span>>, gapMs: real) {
    && NonEmptyBlocks(blocks) && Flatten(blocks) == sorted && CutApart(blocks, gapMs)
    && forall k :: 0 <= k < |blocks| ==> Chained(blocks[k], gapMs)
  }

  /** The first start, the latest end, the sums, and whether an open outage ends last. */
  ghost predicate IsSummary(block: seq<Span>, span: Span)
    requires block != []
  {
    && span.start == block[0].start && EndsWith(block, span)
    && span.count == TotalCount(block) && span.brokenMs == TotalBroken(block)
  }

  lemma ChainExtends(block: seq<Span>, next: Span, gapMs: real, i: nat)
    requires Chained(block, gapMs) && i < |block| && !Apart(block[i], next, gapMs)
    ensures Chained(block + [next], gapMs)
  {
    var more := block + [next];
    forall k | 1 <= k < |more| ensures FollowsClosely(more, k, gapMs) {
      if k < |block| {
        assert FollowsClosely(block, k, gapMs);
        var j :| Close(block, j, k, gapMs);
        assert Close(more, j, k, gapMs);
      } else {
        assert Close(more, i, k, gapMs);
      }
    }
  }

  lemma ChainGrows(block: seq<Span>, next: Span, gapMs: real)
    requires block != [] && Chained(block, gapMs) && !Apart(MergeAll(block), next, gapMs)
    ensures Chained(block + [next], gapMs)
  {
    MergeAllMeaning(block);
    var o :| o in block && EndsAt(o, MergeAll(block).end);
    var i :| 0 <= i < |block| && block[i] == o;
    ChainExtends(block, next, gapMs, i);
  }

  lemma {:induction false} BlocksAreChained(block: seq<Span>, rest: seq<Span>, gapMs: real)
    requires block != [] && Chained(block, gapMs)
    ensures forall k :: 0 <= k < |BlocksFrom(block, rest, gapMs)| ==> Chained(BlocksFrom(block, rest, gapMs)[k], gapMs)
    decreases rest
  {
    if rest != [] {
      if Apart(MergeAll(block), rest[0], gapMs) {
        BlocksAreChained([rest[0]], rest[1..], gapMs);
      } else {
        ChainGrows(block, rest[0], gapMs);
        BlocksAreChained(block + [rest[0]], rest[1..], gapMs);
      }
    }
  }

  lemma BlocksAreApart(blocks: seq<seq<Span>>, merged: seq<Span>, gapMs: real)
    requires gapMs > 0.0 && NonEmptyBlocks(blocks) && MadeOf(merged, blocks)
    requires WellFormed(merged) && AllApart(merged, gapMs) && SortedSpans(Flatten(blocks))
    ensures CutApart(blocks, gapMs)
  {
    forall i, j, x, y | 0 <= i < j < |blocks| && x in blocks[i] && y in blocks[j] ensures Apart(x, y, gapMs) {
      WithinOwnBlock(blocks, merged, i, x);
      WithinOwnBlock(blocks, merged, j, y);
      assert Apart(merged[i], merged[i + 1], gapMs);
      if i + 1 < j {
        SpansInOrder(merged, gapMs, i + 1, j);
      }
    }
  }

  /** A pass finds the clusters of its sorted input and summarises each of them. */
  lemma PassClusters(sorted: seq<Span>, gapMs: real) returns (blocks: seq<seq<Span>>)
    requires gapMs > 0.0 && WellFormed(sorted) && SortedSpans(sorted)
    ensures IsClustering(sorted, blocks, gapMs) && |blocks| == |Coalesce(sorted, gapMs)|
    ensures forall k :: 0 <= k < |blocks| ==> IsSummary(blocks[k], Coalesce(sorted, gapMs)[k])
  {
    if sorted == [] {
      blocks := [];
    } else {
      blocks := BlocksFrom([sorted[0]], sorted[1..], gapMs);
      BlocksPartition([sorted[0]], sorted[1..], gapMs);
      assert [sorted[0]] + sorted[1..] == sorted;
      BlocksAreChained([sorted[0]], sorted[1..], gapMs);
      SpansApartFrom(sorted[0], sorted[1..], gapMs);
      BlocksAreApart(blocks, Coalesce(sorted, gapMs), gapMs);
      forall k | 0 <= k < |blocks| ensures IsSummary(blocks[k], Coalesce(sorted, gapMs)[k]) {
        MergeAllMeaning(blocks[k]);
      }
    }
  }

  ghost predicate IsLatestEnd(block: seq<Span>, end: int) {
    (forall o :: o in block ==> o.end <= end) && exists o :: o in block && EndsAt(o, end)
  }

  ghost predicate OpenEndsAt(block: seq<Span>, end: int) { exists o :: o in block && EndsAt(o, end) && o.open }

  /** A row of the timeline: one cluster, still open if an open outage ends last. */
  ghost predicate IsRow(block: seq<Span>, row: TimelineSpan, end: int)
    requires block != []
  {
    && row.startedAt == block[0].start && row.outageCount == TotalCount(block)
    && row.brokenSeconds == RoundSeconds(TotalBroken(block)) && IsLatestEnd(block, end)
    && row.endedAt == if OpenEndsAt(block, end) then None else Some(end)
  }

  lemma InitialGapMeaning(rangeMs: int)
    ensures 1000.0 * InitialGap(rangeMs) >= rangeMs as real
    ensures InitialGap(rangeMs) == 1.0 || 1000.0 * InitialGap(rangeMs) == rangeMs as real
  {
  }

  /** The gap is a millisecond or a thousandth of the range, doubled only while more than 200 rows were left. */
  lemma FinalGapMeaning(outages: seq<ClippedOutage>, rangeMs: int)
    ensures var gapMs := FinalGap(outages, rangeMs);
            && gapMs >= 1.0 && gapMs >= InitialGap(rangeMs) && |TimelineOf(outages, rangeMs)| <= MAX_TIMELINE_SPANS
            && (gapMs == InitialGap(rangeMs)
                || |Coalesce(SortSpans(ToSpans(outages)), gapMs / 2.0)| > MAX_TIMELINE_SPANS)
  {
    SortSorts(ToSpans(outages));
  }

  /** The spans of a timeline are the clusters, at that gap, of its outages sorted by start and end. */
  lemma TimelineClusters(outages: seq<ClippedOutage>, rangeMs: int) returns (blocks: seq<seq<Span>>)
    ensures IsClustering(SortSpans(ToSpans(outages)), blocks, FinalGap(outages, rangeMs))
    ensures |blocks| == |TimelineOf(outages, rangeMs)|
    ensures forall k :: 0 <= k < |blocks| ==> IsSummary(blocks[k], TimelineOf(outages, rangeMs)[k])
  {
    SortSorts(ToSpans(outages));
    blocks := PassClusters(SortSpans(ToSpans(outages)), FinalGap(outages, rangeMs));
  }

  /** Its rows show one cluster each. */
  lemma TimelineRows(blocks: seq<seq<Span>>, spans: seq<Span>)
    requires NonEmptyBlocks(blocks) && |blocks| == |spans|
    requires forall k :: 0 <= k < |blocks| ==> IsSummary(blocks[k], spans[k])
    ensures forall k :: 0 <= k < |blocks| ==> IsRow(blocks[k], PresentAll(spans)[k], spans[k].end)
  {
    forall k | 0 <= k < |blocks| ensures IsRow(blocks[k], PresentAll(spans)[k], spans[k].end) {
      RowOf(blocks[k], spans[k]);
    }
  }

  lemma RowOf(block: seq<Span>, span: Span)
    requires block != [] && IsSummary(block, span)
    ensures IsRow(block, Present(span), span.end)
  {
  }
}
