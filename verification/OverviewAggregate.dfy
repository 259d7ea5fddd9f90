/**
 `aggregateOverview` as one method (api/src/overview/overview-aggregate.ts), tied to the
 clipped outages whose laws OverviewSpans and OverviewTotals prove.
 */
module OverviewAggregate {
  import opened CheckStatus
  import opened Options
  import opened OverviewSpans
  import opened OverviewTotals

  /** The next fire of a cron expression in a time zone, strictly after an instant. */
  type CronFire = (string, string, int) -> int

  datatype LateSince = LateSince(since: int, downAt: int)

  datatype BrokenState = BROKEN_DOWN | BROKEN_LATE

  datatype BrokenEntry = BrokenEntry(checkId: string, state: BrokenState, since: int, downAt: Option<int>)

  datatype CheckTotals = CheckTotals(
    checkId: string, brokenSeconds: int, outageCount: nat, longestOutageSeconds: int, longestOutageOngoing: bool,
    ongoing: bool, uptimePercent: Option<real>, outages: seq<TimelineSpan>)

  datatype Summary = Summary(
    uptimePercent: Option<real>, brokenSeconds: int, outageCount: nat, ongoingCount: nat,
    medianOutageSeconds: Option<int>, longestOutageCheckId: Option<string>)

  datatype Bucket = Bucket(start: int, brokenSeconds: int)

  datatype OrganizationTotals = OrganizationTotals(organizationId: string, brokenSeconds: int, outageCount: nat)

  datatype Overview = Overview(
    needsFixing: seq<BrokenEntry>, summary: Summary, buckets: seq<Bucket>,
    byOrganization: seq<OrganizationTotals>, checks: seq<CheckTotals>)

  // ----- Sorting -----

  predicate SortedBy<T>(s: seq<T>, key: T -> int) {
    forall i, j :: 0 <= i < j < |s| ==> key(s[i]) <= key(s[j])
  }

  /** Stable insertion, standing for the library sort. */
  function InsertBy<T>(x: T, sorted: seq<T>, key: T -> int): (r: seq<T>)
    ensures multiset(r) == multiset{x} + multiset(sorted)
  {
    if sorted == [] then [x]
    else
      assert sorted == [sorted[0]] + sorted[1..];
      if key(x) <= key(sorted[0]) then [x] + sorted else [sorted[0]] + InsertBy(x, sorted[1..], key)
  }

  function SortBy<T>(s: seq<T>, key: T -> int): (r: seq<T>)
    ensures multiset(r) == multiset(s)
  {
    if s == [] then []
    else
      assert s == [s[0]] + s[1..];
      InsertBy(s[0], SortBy(s[1..], key), key)
  }

  lemma {:induction false} InsertBySorted<T>(x: T, sorted: seq<T>, key: T -> int)
    requires SortedBy(sorted, key)
    ensures SortedBy(InsertBy(x, sorted, key), key)
  {
    if sorted != [] && key(x) > key(sorted[0]) {
      InsertBySorted(x, sorted[1..], key);
      var tail := InsertBy(x, sorted[1..], key);
      forall j | 0 <= j < |tail| ensures key(sorted[0]) <= key(tail[j]) {
        assert tail[j] in multiset(tail);
        assert tail[j] == x || tail[j] in sorted[1..];
      }
    }
  }

  lemma {:induction false} SortBySorts<T>(s: seq<T>, key: T -> int)
    ensures SortedBy(SortBy(s, key), key)
  {
    if s != [] {
      SortBySorts(s[1..], key);
      InsertBySorted(s[0], SortBy(s[1..], key), key);
    }
  }

  function WithKey<T>(s: seq<T>, key: T -> int, k: int): seq<T> {
    if s == [] then [] else (if key(s[0]) == k then [s[0]] else []) + WithKey(s[1..], key, k)
  }

  /** Sorted, and elements of equal key keep their order. */
  ghost predicate IsStableSort<T>(sorted: seq<T>, s: seq<T>, key: T -> int) {
    && SortedBy(sorted, key) && multiset(sorted) == multiset(s)
    && forall k :: WithKey(sorted, key, k) == WithKey(s, key, k)
  }

  lemma WithKeyFirst<T>(x: T, rest: seq<T>, key: T -> int, k: int)
    ensures WithKey([x] + rest, key, k) == (if key(x) == k then [x] else []) + WithKey(rest, key, k)
  {
    assert ([x] + rest)[1..] == rest;
  }

  lemma {:induction false} InsertByIsStable<T>(x: T, sorted: seq<T>, key: T -> int, k: int)
    requires SortedBy(sorted, key)
    ensures WithKey(InsertBy(x, sorted, key), key, k) == WithKey([x] + sorted, key, k)
  {
    WithKeyFirst(x, sorted, key, k);
    if sorted != [] && key(x) > key(sorted[0]) {
      var tail := sorted[1..];
      InsertByIsStable(x, tail, key, k);
      WithKeyFirst(x, tail, key, k);
      WithKeyFirst(sorted[0], InsertBy(x, tail, key), key, k);
    }
  }

  lemma {:induction false} SortByIsStable<T>(s: seq<T>, key: T -> int)
    ensures IsStableSort(SortBy(s, key), s, key)
  {
    SortBySorts(s, key);
    if s != [] {
      SortByIsStable(s[1..], key);
      SortBySorts(s[1..], key);
      assert s == [s[0]] + s[1..];
      forall k ensures WithKey(SortBy(s, key), key, k) == WithKey(s, key, k) {
        var rest := SortBy(s[1..], key);
        InsertByIsStable(s[0], rest, key, k);
        WithKeyFirst(s[0], rest, key, k);
      }
    }
  }

  // ----- Needs fixing -----

  /** An up heartbeat whose expected event is overdue, and when it will be called down. */
  function LateState(c: Check, now: int, fire: CronFire): Option<LateSince> {
    if c.kind != "HEARTBEAT" || c.status != UP || c.lastEventAt.None? then None
    else
      var expected :=
        if c.schedule.Some? && c.schedule.value != "" then
          Some(fire(c.schedule.value, c.tz.GetOr("UTC"), c.lastEventAt.value))
        else if c.periodSeconds.Some? then Some(c.lastEventAt.value + c.periodSeconds.value * 1000)
        else None;
      if expected.None? || expected.value >= now then None
      else Some(LateSince(expected.value, expected.value + c.graceSeconds.GetOr(0) * 1000))
  }

  /** The start of the last listed open outage of a check. */
  function OpenStart(outages: seq<Outage>, id: string): Option<int> {
    if outages == [] then None
    else
      var o := outages[|outages| - 1];
      if o.endedAt.None? && o.checkId == id then Some(o.startedAt) else OpenStart(outages[..|outages| - 1], id)
  }

  function DownEntries(input: Input, checks: seq<Check>): seq<BrokenEntry> {
    if checks == [] then []
    else
      var front, c := DownEntries(input, checks[..|checks| - 1]), checks[|checks| - 1];
      if c.status == DOWN then
        var since := OpenStart(input.outages, c.id).GetOr(c.lastEventAt.GetOr(input.now));
        front + [BrokenEntry(c.id, BROKEN_DOWN, since, None)]
      else front
  }

  function LateEntries(now: int, checks: seq<Check>, fire: CronFire): seq<BrokenEntry> {
    if checks == [] then []
    else
      var front, c := LateEntries(now, checks[..|checks| - 1], fire), checks[|checks| - 1];
      var late := LateState(c, now, fire);
      if c.status != DOWN && late.Some? then
        front + [BrokenEntry(c.id, BROKEN_LATE, late.value.since, Some(late.value.downAt))]
      else front
  }

  function BySince(): BrokenEntry -> int { (e: BrokenEntry) => e.since }

  method NeedsFixing(input: Input, fire: CronFire) returns (entries: seq<BrokenEntry>)
    ensures entries == SortBy(DownEntries(input, input.checks), BySince())
                     + SortBy(LateEntries(input.now, input.checks, fire), BySince())
  {
    var openStart: map<string, int> := map[];
    for i := 0 to |input.outages|
      invariant forall id :: id in openStart <==> OpenStart(input.outages[..i], id).Some?
      invariant forall id :: id in openStart ==> openStart[id] == OpenStart(input.outages[..i], id).value
    {
      var o := input.outages[i];
      assert input.outages[..i + 1][..i] == input.outages[..i];
      if o.endedAt.None? {
        openStart := openStart[o.checkId := o.startedAt];
      }
    }
    assert input.outages[..|input.outages|] == input.outages;
    var down, late := [], [];
    for i := 0 to |input.checks|
      invariant down == DownEntries(input, input.checks[..i])
      invariant late == LateEntries(input.now, input.checks[..i], fire)
    {
      var c := input.checks[i];
      assert input.checks[..i + 1][..i] == input.checks[..i];
      if c.status == DOWN {
        var since := if c.id in openStart then openStart[c.id] else c.lastEventAt.GetOr(input.now);
        down := down + [BrokenEntry(c.id, BROKEN_DOWN, since, None)];
        continue;
      }
      var l := LateState(c, input.now, fire);
      if l.Some? {
        late := late + [BrokenEntry(c.id, BROKEN_LATE, l.value.since, Some(l.value.downAt))];
      }
    }
    assert input.checks[..|input.checks|] == input.checks;
    entries := SortBy(down, BySince()) + SortBy(late, BySince());
  }

  // ----- Summary -----

  function Durations(clipped: seq<ClippedOutage>): (r: seq<int>)
    ensures |r| == |clipped| && forall i :: 0 <= i < |r| ==> r[i] == clipped[i].brokenMs
  {
    seq(|clipped|, i requires 0 <= i < |clipped| => clipped[i].brokenMs)
  }

  function Ascending(): int -> int { (x: int) => x }

  /** Twice the median, so that the mean of two middle values stays whole. */
  function TwiceMedian(sorted: seq<int>): (r: Option<int>)
    ensures r.None? <==> sorted == []
  {
    if sorted == [] then None
    else
      var mid := |sorted| / 2;
      if |sorted| % 2 == 1 then Some(2 * sorted[mid]) else Some(sorted[mid - 1] + sorted[mid])
  }

  function MedianSeconds(sorted: seq<int>): Option<int> {
    match TwiceMedian(sorted) case Some(twice) => Some((twice + 1000) / 2000) case None => None
  }

  /** The median splits a sorted list in two halves of equal length. */
  lemma MedianSplits(sorted: seq<int>)
    requires sorted != [] && SortedBy(sorted, Ascending())
    ensures var twice, n := TwiceMedian(sorted).value, |sorted|;
            && (forall i :: 0 <= i < (n + 1) / 2 ==> 2 * sorted[i] <= twice)
            && (forall i :: n / 2 <= i < n ==> twice <= 2 * sorted[i])
  {
    var mid := |sorted| / 2;
    var key := Ascending();
    forall i | 0 <= i < |sorted|
      ensures i <= mid ==> sorted[i] <= sorted[mid]
      ensures mid <= i ==> sorted[mid] <= sorted[i]
      ensures mid > 0 && i <= mid - 1 ==> sorted[i] <= sorted[mid - 1]
      ensures mid > 0 && mid - 1 <= i ==> sorted[mid - 1] <= sorted[i]
    {
      assert i < mid ==> key(sorted[i]) <= key(sorted[mid]);
      assert mid < i ==> key(sorted[mid]) <= key(sorted[i]);
      assert mid > 0 && i < mid - 1 ==> key(sorted[i]) <= key(sorted[mid - 1]);
      assert mid > 0 && mid - 1 < i ==> key(sorted[mid - 1]) <= key(sorted[i]);
    }
  }

  function OpenCount(clipped: seq<ClippedOutage>): nat {
    if clipped == [] then 0 else OpenCount(clipped[..|clipped| - 1]) + if clipped[|clipped| - 1].open then 1 else 0
  }

  /** The first outage no other outage outlasts. */
  ghost predicate IsFirstLongest(clipped: seq<ClippedOutage>, k: nat) {
    && k < |clipped|
    && (forall i :: 0 <= i < k ==> clipped[i].brokenMs < clipped[k].brokenMs)
    && (forall i :: k < i < |clipped| ==> clipped[i].brokenMs <= clipped[k].brokenMs)
  }

  method Summarize(input: Input, clipped: seq<ClippedOutage>) returns (summary: Summary)
    ensures summary.brokenSeconds == RoundSeconds(BrokenOf(clipped))
    ensures summary.outageCount == |clipped| && summary.ongoingCount == OpenCount(clipped)
    ensures summary.medianOutageSeconds == MedianSeconds(SortBy(Durations(clipped), Ascending()))
    ensures summary.uptimePercent
         == Uptime(MeasuredBroken(clipped, input.checks), MeasuredMonitored(input, input.checks))
    ensures IsUptime(summary.uptimePercent, MeasuredBroken(clipped, input.checks),
                     MeasuredMonitored(input, input.checks))
    ensures summary.longestOutageCheckId.None? <==> clipped == []
    ensures summary.longestOutageCheckId.Some? ==>
              exists k: nat :: IsFirstLongest(clipped, k) && clipped[k].checkId == summary.longestOutageCheckId.value
  {
    var longest, total, ongoing := -1, 0, 0;
    for i := 0 to |clipped|
      invariant -1 <= longest < i && (longest == -1 <==> i == 0)
      invariant longest >= 0 ==> IsFirstLongest(clipped[..i], longest)
      invariant total == BrokenOf(clipped[..i]) && ongoing == OpenCount(clipped[..i])
    {
      assert clipped[..i + 1][..i] == clipped[..i];
      if longest == -1 || clipped[i].brokenMs > clipped[longest].brokenMs {
        longest := i;
      }
      total := total + clipped[i].brokenMs;
      ongoing := ongoing + if clipped[i].open then 1 else 0;
    }
    assert clipped[..|clipped|] == clipped;
    var measuredBroken, measuredMonitored := 0, 0;
    for i := 0 to |input.checks|
      invariant measuredBroken == MeasuredBroken(clipped, input.checks[..i])
      invariant measuredMonitored == MeasuredMonitored(input, input.checks[..i])
    {
      var c := input.checks[i];
      assert input.checks[..i + 1][..i] == input.checks[..i];
      if IsMeasured(c) {
        measuredBroken := measuredBroken + BrokenOf(ForKey(clipped, CheckKey(), c.id));
        measuredMonitored := measuredMonitored + MonitoredMs(input, c);
      }
    }
    assert input.checks[..|input.checks|] == input.checks;
    UptimeIsTheShare(Uptime(measuredBroken, measuredMonitored), measuredBroken, measuredMonitored);
    summary := Summary(
      Uptime(measuredBroken, measuredMonitored), RoundSeconds(total), |clipped|, ongoing,
      MedianSeconds(SortBy(Durations(clipped), Ascending())),
      if longest == -1 then None else Some(clipped[longest].checkId));
  }

  // ----- Per check, per organization, per bucket -----

  /** The duration of the longest outage, and whether one of that duration is open. */
  ghost predicate IsLongest(mine: seq<ClippedOutage>, ms: int, ongoing: bool) {
    && (forall o :: o in mine ==> o.brokenMs <= ms)
    && (exists o :: o in mine && o.brokenMs == ms)
    && (ongoing <==> exists o :: o in mine && o.brokenMs == ms && o.open)
  }

  method LongestOf(mine: seq<ClippedOutage>) returns (ms: int, ongoing: bool)
    requires mine != [] && forall o :: o in mine ==> o.brokenMs >= 0
    ensures IsLongest(mine, ms, ongoing)
  {
    ms, ongoing := -1, false;
    for i := 0 to |mine|
      invariant i == 0 ==> ms == -1 && !ongoing
      invariant i > 0 ==> IsLongest(mine[..i], ms, ongoing)
    {
      var o := mine[i];
      assert mine[..i + 1] == mine[..i] + [o] && o in mine;
      if o.brokenMs > ms || (o.brokenMs == ms && o.open) {
        ms, ongoing := o.brokenMs, o.open;
      }
    }
    assert mine[..|mine|] == mine;
  }

  ghost predicate IsCheckTotals(input: Input, clipped: seq<ClippedOutage>, c: Check, t: CheckTotals) {
    var mine := ForKey(clipped, CheckKey(), c.id);
    && mine != []
    && t.checkId == c.id && t.brokenSeconds == RoundSeconds(BrokenOf(mine)) && t.outageCount == |mine|
    && (exists ms :: IsLongest(mine, ms, t.longestOutageOngoing) && t.longestOutageSeconds == RoundSeconds(ms))
    && (t.ongoing <==> exists o :: o in mine && o.open)
    && t.uptimePercent == (if IsMeasured(c) then Uptime(BrokenOf(mine), MonitoredMs(input, c)) else None)
    && t.outages == PresentAll(TimelineOf(mine, input.now - input.rangeStart))
  }

  /** The checks that had an outage, in input order. */
  function ChecksWithOutages(clipped: seq<ClippedOutage>, checks: seq<Check>): seq<Check> {
    if checks == [] then []
    else
      var front, c := ChecksWithOutages(clipped, checks[..|checks| - 1]), checks[|checks| - 1];
      if ForKey(clipped, CheckKey(), c.id) == [] then front else front + [c]
  }

  method TotalsForCheck(input: Input, clipped: seq<ClippedOutage>, c: Check) returns (t: CheckTotals)
    requires ForKey(clipped, CheckKey(), c.id) != [] && forall o :: o in clipped ==> o.brokenMs >= 0
    ensures IsCheckTotals(input, clipped, c, t)
    ensures var brokenMs := BrokenOf(ForKey(clipped, CheckKey(), c.id));
            if IsMeasured(c) then IsUptime(t.uptimePercent, brokenMs, MonitoredMs(input, c)) else t.uptimePercent.None?
  {
    var mine := ForKey(clipped, CheckKey(), c.id);
    var longest, longestOngoing := LongestOf(mine);
    var timeline := TimelineSpans(mine, input.now - input.rangeStart);
    UptimeIsTheShare(Uptime(BrokenOf(mine), MonitoredMs(input, c)), BrokenOf(mine), MonitoredMs(input, c));
    var uptime := if IsMeasured(c) then Uptime(BrokenOf(mine), MonitoredMs(input, c)) else None;
    t := CheckTotals(c.id, RoundSeconds(BrokenOf(mine)), |mine|, RoundSeconds(longest), longestOngoing,
                     exists o :: o in mine && o.open, uptime, timeline);
  }

  method TotalsPerCheck(input: Input, clipped: seq<ClippedOutage>) returns (totals: seq<CheckTotals>)
    requires forall o :: o in clipped ==> o.brokenMs >= 0
    ensures var broken := ChecksWithOutages(clipped, input.checks);
            && |totals| == |broken|
            && forall i :: 0 <= i < |totals| ==> IsCheckTotals(input, clipped, broken[i], totals[i])
  {
    totals := [];
    for i := 0 to |input.checks|
      invariant var broken := ChecksWithOutages(clipped, input.checks[..i]);
                && |totals| == |broken|
                && forall j :: 0 <= j < |totals| ==> IsCheckTotals(input, clipped, broken[j], totals[j])
    {
      var c := input.checks[i];
      assert input.checks[..i + 1][..i] == input.checks[..i];
      if ForKey(clipped, CheckKey(), c.id) == [] {
        continue;
      }
      var t := TotalsForCheck(input, clipped, c);
      assert IsCheckTotals(input, clipped, c, t);
      totals := totals + [t];
    }
    assert input.checks[..|input.checks|] == input.checks;
  }

  method BucketTotals(input: Input, clipped: seq<ClippedOutage>) returns (buckets: seq<Bucket>)
    ensures |buckets| == |input.bucketStarts|
    ensures forall i :: 0 <= i < |buckets| ==>
              buckets[i] == Bucket(input.bucketStarts[i], RoundSeconds(BucketMs(input, clipped, i)))
  {
    buckets := [];
    for i := 0 to |input.bucketStarts|
      invariant |buckets| == i
      invariant forall j :: 0 <= j < i ==>
                  buckets[j] == Bucket(input.bucketStarts[j], RoundSeconds(BucketMs(input, clipped, j)))
    {
      var lo := Max(input.bucketStarts[i], input.rangeStart);
      var hi := Min(if i + 1 < |input.bucketStarts| then input.bucketStarts[i + 1] else input.now, input.now);
      var ms := 0;
      for j := 0 to |clipped|
        invariant ms == OverlapOf(clipped[..j], lo, hi)
      {
        assert clipped[..j + 1][..j] == clipped[..j];
        ms := ms + Max(0, Min(clipped[j].end, hi) - Max(clipped[j].start, lo));
      }
      assert clipped[..|clipped|] == clipped;
      buckets := buckets + [Bucket(input.bucketStarts[i], RoundSeconds(ms))];
    }
  }

  method OrganizationTotal(input: Input, clipped: seq<ClippedOutage>, id: string) returns (row: OrganizationTotals)
    requires forall o :: o in clipped ==> CheckById(input.checks, o.checkId).Some?
    ensures var mine := ForKey(clipped, OrganizationKey(input.checks), id);
            row == OrganizationTotals(id, RoundSeconds(BrokenOf(mine)), |mine|)
  {
    var ms, count: nat := 0, 0;
    ghost var mine := [];
    for j := 0 to |clipped|
      invariant mine == ForKey(clipped[..j], OrganizationKey(input.checks), id)
      invariant ms == BrokenOf(mine) && count == |mine|
    {
      var o := clipped[j];
      assert o in clipped && clipped[..j + 1][..j] == clipped[..j];
      if CheckById(input.checks, o.checkId).value.organizationId != id {
        continue;
      }
      assert (mine + [o])[..|mine|] == mine;
      mine := mine + [o];
      ms, count := ms + o.brokenMs, count + 1;
    }
    assert clipped[..|clipped|] == clipped;
    row := OrganizationTotals(id, RoundSeconds(ms), count);
  }

  method OrganizationBreakdown(input: Input, clipped: seq<ClippedOutage>) returns (rows: seq<OrganizationTotals>)
    requires forall o :: o in clipped ==> CheckById(input.checks, o.checkId).Some?
    ensures |rows| == |input.organizationIds|
    ensures forall i :: 0 <= i < |rows| ==>
              var mine := ForKey(clipped, OrganizationKey(input.checks), input.organizationIds[i]);
              rows[i] == OrganizationTotals(input.organizationIds[i], RoundSeconds(BrokenOf(mine)), |mine|)
  {
    rows := [];
    for i := 0 to |input.organizationIds|
      invariant |rows| == i
      invariant forall j :: 0 <= j < i ==>
                  var mine := ForKey(clipped, OrganizationKey(input.checks), input.organizationIds[j]);
                  rows[j] == OrganizationTotals(input.organizationIds[j], RoundSeconds(BrokenOf(mine)), |mine|)
    {
      var row := OrganizationTotal(input, clipped, input.organizationIds[i]);
      rows := rows + [row];
    }
  }

  function MostBrokenCheckFirst(): CheckTotals -> int { (t: CheckTotals) => -t.brokenSeconds }

  function MostBrokenOrganizationFirst(): OrganizationTotals -> int { (t: OrganizationTotals) => -t.brokenSeconds }

  lemma {:induction false} ClippedNotNegative(input: Input, outages: seq<Outage>)
    ensures forall o :: o in Clip(input, outages) ==> o.brokenMs >= 0
  {
    if outages != [] {
      ClippedNotNegative(input, outages[..|outages| - 1]);
    }
  }

  /** `rows` are the totals of the broken checks, sorted stably from input order. */
  ghost predicate RowsFor(input: Input, clipped: seq<ClippedOutage>, rows: seq<CheckTotals>) {
    exists inOrder: seq<CheckTotals> ::
      && IsStableSort(rows, inOrder, MostBrokenCheckFirst())
      && |inOrder| == |ChecksWithOutages(clipped, input.checks)|
      && forall i :: 0 <= i < |inOrder| ==>
           IsCheckTotals(input, clipped, ChecksWithOutages(clipped, input.checks)[i], inOrder[i])
  }

  /** `rows` are the organizations' totals, sorted stably from input order. */
  ghost predicate OrganizationRowsFor(input: Input, clipped: seq<ClippedOutage>, rows: seq<OrganizationTotals>) {
    exists inOrder: seq<OrganizationTotals> ::
      && IsStableSort(rows, inOrder, MostBrokenOrganizationFirst())
      && |inOrder| == |input.organizationIds|
      && forall i :: 0 <= i < |inOrder| ==>
           var mine := ForKey(clipped, OrganizationKey(input.checks), input.organizationIds[i]);
           inOrder[i] == OrganizationTotals(input.organizationIds[i], RoundSeconds(BrokenOf(mine)), |mine|)
  }

  /** The overview in terms of the clipped outages. */
  ghost predicate IsOverview(input: Input, fire: CronFire, overview: Overview) {
    var clipped := Clip(input, input.outages);
    && overview.summary.brokenSeconds == RoundSeconds(BrokenOf(clipped))
    && overview.summary.outageCount == |clipped| && overview.summary.ongoingCount == OpenCount(clipped)
    && overview.summary.medianOutageSeconds == MedianSeconds(SortBy(Durations(clipped), Ascending()))
    && overview.summary.uptimePercent
       == Uptime(MeasuredBroken(clipped, input.checks), MeasuredMonitored(input, input.checks))
    && (overview.summary.longestOutageCheckId.None? <==> clipped == [])
    && (overview.summary.longestOutageCheckId.Some? ==>
          exists k: nat :: IsFirstLongest(clipped, k)
                           && clipped[k].checkId == overview.summary.longestOutageCheckId.value)
    && |overview.buckets| == |input.bucketStarts|
    && (forall i :: 0 <= i < |overview.buckets| ==>
          overview.buckets[i] == Bucket(input.bucketStarts[i], RoundSeconds(BucketMs(input, clipped, i))))
    && |overview.byOrganization| == |input.organizationIds|
    && OrganizationRowsFor(input, clipped, overview.byOrganization)
    && (forall i, j :: 0 <= i < j < |overview.byOrganization| ==>
          overview.byOrganization[i].brokenSeconds >= overview.byOrganization[j].brokenSeconds)
    && RowsFor(input, clipped, overview.checks)
    && (forall i, j :: 0 <= i < j < |overview.checks| ==>
          overview.checks[i].brokenSeconds >= overview.checks[j].brokenSeconds)
    && overview.needsFixing == SortBy(DownEntries(input, input.checks), BySince())
                             + SortBy(LateEntries(input.now, input.checks, fire), BySince())
  }

  method AggregateOverview(input: Input, fire: CronFire) returns (overview: Overview)
    ensures IsOverview(input, fire, overview)
    ensures IsUptime(overview.summary.uptimePercent, MeasuredBroken(Clip(input, input.outages), input.checks),
                     MeasuredMonitored(input, input.checks))
  {
    var clipped := ClipOutages(input);
    ClippedAreKnown(input, input.outages);
    ClippedNotNegative(input, input.outages);
    var needsFixing := NeedsFixing(input, fire);
    var summary := Summarize(input, clipped);
    var perCheck := TotalsPerCheck(input, clipped);
    SortByIsStable(perCheck, MostBrokenCheckFirst());
    var buckets := BucketTotals(input, clipped);
    var rows := OrganizationBreakdown(input, clipped);
    SortByIsStable(rows, MostBrokenOrganizationFirst());
    var byOrganization := SortBy(rows, MostBrokenOrganizationFirst());
    assert |multiset(byOrganization)| == |byOrganization| && |multiset(rows)| == |rows|;
    overview := Overview(needsFixing, summary, buckets, byOrganization, SortBy(perCheck, MostBrokenCheckFirst()));
  }
}
