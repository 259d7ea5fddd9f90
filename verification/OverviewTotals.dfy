/**
 Clipping, totals, buckets and uptime of the overview
 (api/src/overview/overview-aggregate.ts). All times are integer milliseconds.
 */
module OverviewTotals {
  import opened CheckStatus
  import opened Options
  import opened OverviewSpans
  import opened Sets

  datatype Check = Check(
    id: string, organizationId: string, kind: string, status: Status, createdAt: int, lastEventAt: Option<int>,
    periodSeconds: Option<int>, graceSeconds: Option<int>, schedule: Option<string>, tz: Option<string>)

  datatype Outage = Outage(checkId: string, startedAt: int, endedAt: Option<int>)

  datatype Input = Input(
    now: int, rangeStart: int, bucketStarts: seq<int>, organizationIds: seq<string>,
    checks: seq<Check>, outages: seq<Outage>)

  // ----- Clipping -----

  /** The entry a `Map` built from `checks` keeps for `id`: the last one. */
  function CheckById(checks: seq<Check>, id: string): (r: Option<Check>)
    ensures r.Some? <==> exists c :: c in checks && c.id == id
    ensures r.Some? ==> r.value in checks && r.value.id == id
  {
    if checks == [] then None
    else if checks[|checks| - 1].id == id then Some(checks[|checks| - 1])
    else CheckById(checks[..|checks| - 1], id)
  }

  function EndOf(o: Outage, now: int): int { o.endedAt.GetOr(now) }

  function ClipOne(o: Outage, now: int, rangeStart: int): ClippedOutage {
    var start := Max(o.startedAt, rangeStart);
    ClippedOutage(o.checkId, start, EndOf(o, now), o.endedAt.None?, Max(0, EndOf(o, now) - start))
  }

  /** Outages of known checks, clipped to the range, in input order. */
  function Clip(input: Input, outages: seq<Outage>): seq<ClippedOutage> {
    if outages == [] then []
    else
      var front, o := Clip(input, outages[..|outages| - 1]), outages[|outages| - 1];
      if CheckById(input.checks, o.checkId).None? then front
      else front + [ClipOne(o, input.now, input.rangeStart)]
  }

  predicate ClippedWithin(o: ClippedOutage, lo: int, hi: int) {
    lo <= o.start && o.end <= hi && o.brokenMs == Max(0, o.end - o.start)
  }

  method ClipOutages(input: Input) returns (clipped: seq<ClippedOutage>)
    ensures clipped == Clip(input, input.outages)
  {
    clipped := [];
    for i := 0 to |input.outages|
      invariant clipped == Clip(input, input.outages[..i])
    {
      var o := input.outages[i];
      assert input.outages[..i + 1][..i] == input.outages[..i];
      if CheckById(input.checks, o.checkId).None? {
        continue;
      }
      var start := Max(o.startedAt, input.rangeStart);
      var end := if o.endedAt.Some? then o.endedAt.value else input.now;
      clipped := clipped + [ClippedOutage(o.checkId, start, end, o.endedAt.None?, Max(0, end - start))];
    }
    assert input.outages[..|input.outages|] == input.outages;
  }

  // ----- Totals by key -----

  function ForKey(clipped: seq<ClippedOutage>, keyOf: ClippedOutage -> string, key: string): (r: seq<ClippedOutage>)
    ensures forall o :: o in r ==> o in clipped && keyOf(o) == key
  {
    if clipped == [] then []
    else
      var front, o := ForKey(clipped[..|clipped| - 1], keyOf, key), clipped[|clipped| - 1];
      if keyOf(o) == key then front + [o] else front
  }

  function CheckKey(): ClippedOutage -> string { (o: ClippedOutage) => o.checkId }

  function OrganizationKey(checks: seq<Check>): ClippedOutage -> string {
    (o: ClippedOutage) => match CheckById(checks, o.checkId) case Some(c) => c.organizationId case None => ""
  }

  function BrokenByKeys(clipped: seq<ClippedOutage>, keyOf: ClippedOutage -> string, keys: seq<string>): int {
    if keys == [] then 0
    else BrokenByKeys(clipped, keyOf, keys[..|keys| - 1]) + BrokenOf(ForKey(clipped, keyOf, keys[|keys| - 1]))
  }

  function CountByKeys(clipped: seq<ClippedOutage>, keyOf: ClippedOutage -> string, keys: seq<string>): int {
    if keys == [] then 0
    else CountByKeys(clipped, keyOf, keys[..|keys| - 1]) + |ForKey(clipped, keyOf, keys[|keys| - 1])|
  }

  predicate Distinct<T(==)>(s: seq<T>) {
    forall i, j :: 0 <= i < j < |s| ==> s[i] != s[j]
  }

  /** One more outage adds to the total of its own key only. */
  lemma {:induction false} OneMoreByKeys(
        clipped: seq<ClippedOutage>, o: ClippedOutage, keyOf: ClippedOutage -> string, keys: seq<string>)
    requires Distinct(keys)
    ensures BrokenByKeys(clipped + [o], keyOf, keys)
         == BrokenByKeys(clipped, keyOf, keys) + if keyOf(o) in keys then o.brokenMs else 0
    ensures CountByKeys(clipped + [o], keyOf, keys)
         == CountByKeys(clipped, keyOf, keys) + if keyOf(o) in keys then 1 else 0
    decreases keys
  {
    if keys != [] {
      var k := |keys| - 1;
      OneMoreByKeys(clipped, o, keyOf, keys[..k]);
      assert (clipped + [o])[..|clipped|] == clipped;
      var mine := ForKey(clipped, keyOf, keys[k]);
      assert keyOf(o) == keys[k] ==> (mine + [o])[..|mine|] == mine;
      assert keyOf(o) in keys <==> keyOf(o) in keys[..k] || keyOf(o) == keys[k];
    }
  }

  /** Distinct keys that cover every outage split the totals exactly. */
  lemma {:induction false} TotalsSplitByKey(
        clipped: seq<ClippedOutage>, keyOf: ClippedOutage -> string, keys: seq<string>)
    requires Distinct(keys) && forall o :: o in clipped ==> keyOf(o) in keys
    ensures BrokenByKeys(clipped, keyOf, keys) == BrokenOf(clipped)
    ensures CountByKeys(clipped, keyOf, keys) == |clipped|
    decreases clipped
  {
    if clipped == [] {
      NothingByKeys(keyOf, keys);
    } else {
      var k := |clipped| - 1;
      var front, o := clipped[..k], clipped[k];
      assert front + [o] == clipped && o in clipped;
      TotalsSplitByKey(front, keyOf, keys);
      OneMoreByKeys(front, o, keyOf, keys);
    }
  }

  lemma {:induction false} NothingByKeys(keyOf: ClippedOutage -> string, keys: seq<string>)
    ensures BrokenByKeys([], keyOf, keys) == 0 && CountByKeys([], keyOf, keys) == 0
    decreases keys
  {
    if keys != [] {
      NothingByKeys(keyOf, keys[..|keys| - 1]);
    }
  }

  function CheckIds(checks: seq<Check>): (ids: seq<string>)
    ensures |ids| == |checks| && forall i :: 0 <= i < |checks| ==> ids[i] == checks[i].id
  {
    seq(|checks|, i requires 0 <= i < |checks| => checks[i].id)
  }

  lemma {:induction false} ClippedAreKnown(input: Input, outages: seq<Outage>)
    ensures forall o :: o in Clip(input, outages) ==> CheckById(input.checks, o.checkId).Some?
  {
    if outages != [] {
      ClippedAreKnown(input, outages[..|outages| - 1]);
    }
  }

  /**
   The unrounded account total, the per-check totals and the per-organization totals
   agree, in broken time and in number of outages, when check ids are distinct and the
   organization ids are distinct and cover every check.
   */
  lemma TotalsAgree(input: Input)
    requires Distinct(CheckIds(input.checks)) && Distinct(input.organizationIds)
    requires forall c :: c in input.checks ==> c.organizationId in input.organizationIds
    ensures var clipped := Clip(input, input.outages);
            && BrokenByKeys(clipped, CheckKey(), CheckIds(input.checks)) == BrokenOf(clipped)
            && BrokenByKeys(clipped, OrganizationKey(input.checks), input.organizationIds) == BrokenOf(clipped)
            && CountByKeys(clipped, CheckKey(), CheckIds(input.checks)) == |clipped|
            && CountByKeys(clipped, OrganizationKey(input.checks), input.organizationIds) == |clipped|
  {
    var clipped := Clip(input, input.outages);
    ClippedAreKnown(input, input.outages);
    forall o | o in clipped
      ensures CheckKey()(o) in CheckIds(input.checks)
      ensures OrganizationKey(input.checks)(o) in input.organizationIds
    {
      var c := CheckById(input.checks, o.checkId).value;
      var i :| 0 <= i < |input.checks| && input.checks[i] == c;
      assert CheckIds(input.checks)[i] == o.checkId;
    }
    TotalsSplitByKey(clipped, CheckKey(), CheckIds(input.checks));
    TotalsSplitByKey(clipped, OrganizationKey(input.checks), input.organizationIds);
  }

  // ----- Buckets -----

  function Overlap(o: ClippedOutage, lo: int, hi: int): int {
    Max(0, Min(o.end, hi) - Max(o.start, lo))
  }

  function OverlapOf(clipped: seq<ClippedOutage>, lo: int, hi: int): int {
    if clipped == [] then 0
    else OverlapOf(clipped[..|clipped| - 1], lo, hi) + Overlap(clipped[|clipped| - 1], lo, hi)
  }

  function BucketLow(input: Input, i: nat): int
    requires i < |input.bucketStarts|
  {
    Max(input.bucketStarts[i], input.rangeStart)
  }

  function BucketHigh(input: Input, i: nat): int
    requires i < |input.bucketStarts|
  {
    Min(if i + 1 < |input.bucketStarts| then input.bucketStarts[i + 1] else input.now, input.now)
  }

  function BucketMs(input: Input, clipped: seq<ClippedOutage>, i: nat): int
    requires i < |input.bucketStarts|
  {
    OverlapOf(clipped, BucketLow(input, i), BucketHigh(input, i))
  }

  /** The first `n` unrounded buckets, summed. */
  function BucketSum(input: Input, clipped: seq<ClippedOutage>, n: nat): int
    requires n <= |input.bucketStarts|
  {
    if n == 0 then 0 else BucketSum(input, clipped, n - 1) + BucketMs(input, clipped, n - 1)
  }

  function RoundedBucketSum(input: Input, clipped: seq<ClippedOutage>, n: nat): int
    requires n <= |input.bucketStarts|
  {
    if n == 0 then 0 else RoundedBucketSum(input, clipped, n - 1) + RoundSeconds(BucketMs(input, clipped, n - 1))
  }

  /** The range is cut at `CutPoint(0) <= ... <= CutPoint(n)`, bucket `i` lying between two cuts. */
  function CutPoint(input: Input, i: nat): int
    requires i <= |input.bucketStarts|
  {
    if i < |input.bucketStarts| then BucketLow(input, i) else Max(input.now, input.rangeStart)
  }

  predicate BucketsSpanRange(input: Input) {
    && |input.bucketStarts| > 0
    && input.bucketStarts[0] <= input.rangeStart
    && input.bucketStarts[|input.bucketStarts| - 1] <= input.now
    && forall i, j :: 0 <= i < j < |input.bucketStarts| ==> input.bucketStarts[i] < input.bucketStarts[j]
  }

  /** What the first `n` buckets see of one outage is what lies before the `n`th cut. */
  lemma {:induction false} OneOutageOverBuckets(input: Input, o: ClippedOutage, n: nat)
    requires BucketsSpanRange(input) && n <= |input.bucketStarts| && o.start >= input.rangeStart && o.end <= input.now
    ensures BucketSum(input, [o], n) == Overlap(o, input.rangeStart, CutPoint(input, n))
  {
    if n > 0 {
      OneOutageOverBuckets(input, o, n - 1);
      assert [o][..0] == [];
      assert OverlapOf([o], BucketLow(input, n - 1), BucketHigh(input, n - 1))
          == OverlapOf([], BucketLow(input, n - 1), BucketHigh(input, n - 1))
           + Overlap(o, BucketLow(input, n - 1), BucketHigh(input, n - 1));
    }
  }

  lemma {:induction false} BucketSumAdds(input: Input, clipped: seq<ClippedOutage>, o: ClippedOutage, n: nat)
    requires n <= |input.bucketStarts|
    ensures BucketSum(input, clipped + [o], n) == BucketSum(input, clipped, n) + BucketSum(input, [o], n)
  {
    if n > 0 {
      BucketSumAdds(input, clipped, o, n - 1);
      assert (clipped + [o])[..|clipped|] == clipped;
      assert [o][..0] == [];
      assert OverlapOf([], BucketLow(input, n - 1), BucketHigh(input, n - 1)) == 0;
    }
  }

  lemma {:induction false} BucketSumOfNothing(input: Input, n: nat)
    requires n <= |input.bucketStarts|
    ensures BucketSum(input, [], n) == 0
  {
    if n > 0 {
      BucketSumOfNothing(input, n - 1);
    }
  }

  /** Unrounded bucket overlaps add up exactly to the broken time. */
  lemma {:induction false} BucketsConserve(input: Input, clipped: seq<ClippedOutage>)
    requires BucketsSpanRange(input)
    requires forall o :: o in clipped ==> ClippedWithin(o, input.rangeStart, input.now)
    ensures BucketSum(input, clipped, |input.bucketStarts|) == BrokenOf(clipped)
    decreases clipped
  {
    var n := |input.bucketStarts|;
    if clipped == [] {
      BucketSumOfNothing(input, n);
    } else {
      var k := |clipped| - 1;
      var front, o := clipped[..k], clipped[k];
      BucketsConserve(input, front);
      BucketSumAdds(input, front, o, n);
      assert front + [o] == clipped && o in clipped;
      OneOutageOverBuckets(input, o, n);
    }
  }

  lemma {:induction false} RoundingDrift(input: Input, clipped: seq<ClippedOutage>, n: nat)
    requires n <= |input.bucketStarts|
    ensures -500 * n <= 1000 * RoundedBucketSum(input, clipped, n) - BucketSum(input, clipped, n) <= 500 * n
  {
    if n > 0 {
      RoundingDrift(input, clipped, n - 1);
    }
  }

  lemma {:induction false} ClippedShape(input: Input, outages: seq<Outage>)
    requires forall o :: o in outages ==> EndOf(o, input.now) <= input.now
    ensures forall o :: o in Clip(input, outages) ==> ClippedWithin(o, input.rangeStart, input.now)
  {
    if outages != [] {
      ClippedShape(input, outages[..|outages| - 1]);
    }
  }

  /**
   For increasing bucket starts that span the range, and outages that end by now, the
   bucket overlaps sum exactly to the broken time, and the `n` rounded buckets differ
   from the rounded total by at most (n + 1) / 2 seconds.
   */
  lemma BucketConservation(input: Input)
    requires BucketsSpanRange(input) && forall o :: o in input.outages ==> EndOf(o, input.now) <= input.now
    ensures var clipped, n := Clip(input, input.outages), |input.bucketStarts|;
            && BucketSum(input, clipped, n) == BrokenOf(clipped)
            && -(n + 1) <= 2 * (RoundedBucketSum(input, clipped, n) - RoundSeconds(BrokenOf(clipped))) <= n + 1
  {
    var clipped, n := Clip(input, input.outages), |input.bucketStarts|;
    ClippedShape(input, input.outages);
    BucketsConserve(input, clipped);
    RoundingDrift(input, clipped, n);
  }

  // ----- Uptime -----

  function MonitoredMs(input: Input, c: Check): int {
    Max(0, input.now - Max(input.rangeStart, c.createdAt))
  }

  predicate IsMeasured(c: Check) {
    !(c.status == PAUSED || (c.status == NEW && c.lastEventAt.None?))
  }

  function Uptime(brokenMs: int, monitoredMs: int): Option<real> {
    if monitoredMs > 0 then Some(100.0 * (1.0 - brokenMs as real / monitoredMs as real)) else None
  }

  /** The share of the monitored time that was not broken, in percent; none without monitored time. */
  predicate IsUptime(u: Option<real>, brokenMs: int, monitoredMs: int) {
    && (u.None? <==> monitoredMs <= 0)
    && (u.Some? ==> u.value * monitoredMs as real == 100.0 * (monitoredMs - brokenMs) as real)
  }

  lemma FactorOrders(x: real, y: real, m: real)
    requires m > 0.0
    ensures x > y <==> x * m > y * m
    ensures x == y <==> x * m == y * m
  {
    if x > y {
      assert (x - y) * m > 0.0;
    } else if x < y {
      assert (y - x) * m > 0.0;
    }
  }

  /** There is one such figure, and `Uptime` is it. */
  lemma UptimeIsTheShare(u: Option<real>, brokenMs: int, monitoredMs: int)
    ensures IsUptime(u, brokenMs, monitoredMs) <==> u == Uptime(brokenMs, monitoredMs)
  {
    if monitoredMs > 0 {
      var b, m := brokenMs as real, monitoredMs as real;
      assert b / m * m == b;
      assert 100.0 * (1.0 - b / m) * m == 100.0 * (m - b);
      if u.Some? && u.value * m == 100.0 * (m - b) {
        FactorOrders(u.value, 100.0 * (1.0 - b / m), m);
      }
    }
  }

  /** It is 100 exactly without broken time, 0 exactly when all was broken, and falls as broken time grows. */
  lemma UptimeFalls(u: Option<real>, v: Option<real>, broken: int, more: int, monitoredMs: int)
    requires monitoredMs > 0 && IsUptime(u, broken, monitoredMs) && IsUptime(v, more, monitoredMs)
    ensures u.value == 100.0 <==> broken == 0
    ensures u.value == 0.0 <==> broken == monitoredMs
    ensures u.value > v.value <==> broken < more
  {
    var m := monitoredMs as real;
    var left, leftLater := (monitoredMs - broken) as real, (monitoredMs - more) as real;
    assert u.value * m == 100.0 * left && v.value * m == 100.0 * leftLater;
    assert left > leftLater <==> broken < more;
    assert left == m <==> broken == 0;
    assert left == 0.0 <==> broken == monitoredMs;
    FactorOrders(u.value, v.value, m);
    FactorOrders(u.value, 100.0, m);
    FactorOrders(u.value, 0.0, m);
  }

  /** The milliseconds from `lo` up to, not including, `hi`. */
  function Millis(lo: int, hi: int): (r: set<int>)
    ensures forall t :: t in r <==> lo <= t < hi
    ensures |r| == Max(0, hi - lo)
    decreases hi - lo
  {
    if lo >= hi then {} else Millis(lo, hi - 1) + {hi - 1}
  }

  function Covered(clipped: seq<ClippedOutage>): set<int> {
    if clipped == [] then {}
    else Covered(clipped[..|clipped| - 1]) + Millis(clipped[|clipped| - 1].start, clipped[|clipped| - 1].end)
  }

  predicate Separate(a: ClippedOutage, b: ClippedOutage) { a.end <= b.start || b.end <= a.start }

  predicate PairwiseSeparate(clipped: seq<ClippedOutage>) {
    clipped == [] || (
      var front, last := clipped[..|clipped| - 1], clipped[|clipped| - 1];
      PairwiseSeparate(front) && forall o :: o in front ==> Separate(o, last))
  }

  lemma {:induction false} CoveredMembers(clipped: seq<ClippedOutage>)
    ensures forall t :: t in Covered(clipped) <==> exists o :: o in clipped && o.start <= t < o.end
  {
    if clipped != [] {
      CoveredMembers(clipped[..|clipped| - 1]);
      assert clipped == clipped[..|clipped| - 1] + [clipped[|clipped| - 1]];
    }
  }

  /** Disjoint outages cover exactly as many milliseconds as their durations add up to. */
  lemma {:induction false} CoveredCount(clipped: seq<ClippedOutage>)
    requires PairwiseSeparate(clipped) && forall o :: o in clipped ==> o.brokenMs == Max(0, o.end - o.start)
    ensures |Covered(clipped)| == BrokenOf(clipped)
  {
    if clipped != [] {
      var front, o := clipped[..|clipped| - 1], clipped[|clipped| - 1];
      CoveredCount(front);
      CoveredMembers(front);
      assert Covered(front) !! Millis(o.start, o.end);
    }
  }

  /** Outages of one check that do not overlap, begin after its creation and end by now. */
  ghost predicate OutagesFit(input: Input, outages: seq<Outage>, c: Check) {
    outages == [] || (
      var front, o := outages[..|outages| - 1], outages[|outages| - 1];
      && OutagesFit(input, front, c)
      && (o.checkId == c.id ==>
            && c.createdAt <= o.startedAt && EndOf(o, input.now) <= input.now
            && forall p :: p in front && p.checkId == c.id ==>
                 EndOf(p, input.now) <= o.startedAt || EndOf(o, input.now) <= p.startedAt))
  }

  /** Every clipped outage comes from an input outage of the same check. */
  lemma {:induction false} ClippedFrom(input: Input, outages: seq<Outage>, x: ClippedOutage) returns (o: Outage)
    requires x in Clip(input, outages)
    ensures o in outages && x == ClipOne(o, input.now, input.rangeStart)
  {
    var k := |outages| - 1;
    if x in Clip(input, outages[..k]) {
      o := ClippedFrom(input, outages[..k], x);
    } else {
      o := outages[k];
    }
  }

  /** The clipped outages of `c` are apart from each other and within its monitored time. */
  ghost predicate StaysSeparate(input: Input, clipped: seq<ClippedOutage>, c: Check) {
    var mine := ForKey(clipped, CheckKey(), c.id);
    && PairwiseSeparate(mine)
    && forall o :: o in mine ==> ClippedWithin(o, Max(input.rangeStart, c.createdAt), input.now)
  }

  lemma {:induction false} FittingStaysSeparate(input: Input, outages: seq<Outage>, c: Check)
    requires OutagesFit(input, outages, c)
    ensures StaysSeparate(input, Clip(input, outages), c)
  {
    if outages != [] {
      var k := |outages| - 1;
      var front, o := outages[..k], outages[k];
      assert front + [o] == outages;
      FittingStaysSeparate(input, front, c);
      if CheckById(input.checks, o.checkId).None? {
        UnknownOutageIsDropped(input, front, o);
      } else if o.checkId != c.id {
        OtherOutageIsElsewhere(input, front, o, c);
      } else {
        OwnOutageStaysSeparate(input, front, o, c);
      }
    }
  }

  lemma UnknownOutageIsDropped(input: Input, front: seq<Outage>, o: Outage)
    requires CheckById(input.checks, o.checkId).None?
    ensures Clip(input, front + [o]) == Clip(input, front)
  {
    assert (front + [o])[..|front|] == front;
  }

  lemma KnownOutageIsAppended(input: Input, front: seq<Outage>, o: Outage)
    requires CheckById(input.checks, o.checkId).Some?
    ensures Clip(input, front + [o]) == Clip(input, front) + [ClipOne(o, input.now, input.rangeStart)]
  {
    assert (front + [o])[..|front|] == front;
  }

  lemma OtherOutageIsElsewhere(input: Input, front: seq<Outage>, o: Outage, c: Check)
    requires CheckById(input.checks, o.checkId).Some? && o.checkId != c.id
    ensures ForKey(Clip(input, front + [o]), CheckKey(), c.id) == ForKey(Clip(input, front), CheckKey(), c.id)
  {
    KnownOutageIsAppended(input, front, o);
    ForKeyAppend(Clip(input, front), ClipOne(o, input.now, input.rangeStart), CheckKey(), c.id);
  }

  lemma OwnOutageStaysSeparate(input: Input, front: seq<Outage>, o: Outage, c: Check)
    requires OutagesFit(input, front + [o], c) && CheckById(input.checks, o.checkId).Some? && o.checkId == c.id
    requires StaysSeparate(input, Clip(input, front), c)
    ensures StaysSeparate(input, Clip(input, front + [o]), c)
  {
    var before, x := Clip(input, front), ClipOne(o, input.now, input.rangeStart);
    var mine := ForKey(before, CheckKey(), c.id);
    KnownOutageIsAppended(input, front, o);
    ForKeyAppend(before, x, CheckKey(), c.id);
    forall y | y in mine ensures Separate(y, x) {
      ClippingKeepsSeparate(input, front, o, c, y);
    }
    AppendSeparate(mine, x, Max(input.rangeStart, c.createdAt), input.now);
  }

  lemma ClippingKeepsSeparate(input: Input, front: seq<Outage>, o: Outage, c: Check, y: ClippedOutage)
    requires OutagesFit(input, front + [o], c) && o.checkId == c.id
    requires y in Clip(input, front) && y.checkId == c.id
    ensures Separate(y, ClipOne(o, input.now, input.rangeStart))
  {
    assert (front + [o])[..|front|] == front;
    var p := ClippedFrom(input, front, y);
  }

  lemma AppendSeparate(mine: seq<ClippedOutage>, x: ClippedOutage, lo: int, hi: int)
    requires PairwiseSeparate(mine) && forall y :: y in mine ==> Separate(y, x)
    requires ClippedWithin(x, lo, hi) && forall y :: y in mine ==> ClippedWithin(y, lo, hi)
    ensures PairwiseSeparate(mine + [x]) && forall y :: y in mine + [x] ==> ClippedWithin(y, lo, hi)
  {
    assert (mine + [x])[..|mine|] == mine;
  }

  lemma ForKeyAppend(clipped: seq<ClippedOutage>, x: ClippedOutage, keyOf: ClippedOutage -> string, key: string)
    ensures ForKey(clipped + [x], keyOf, key)
         == if keyOf(x) == key then ForKey(clipped, keyOf, key) + [x] else ForKey(clipped, keyOf, key)
  {
    assert (clipped + [x])[..|clipped|] == clipped;
  }

  /** A check is never broken for longer than it was monitored. */
  lemma BrokenWithinMonitored(input: Input, c: Check)
    requires OutagesFit(input, input.outages, c)
    ensures 0 <= BrokenOf(ForKey(Clip(input, input.outages), CheckKey(), c.id)) <= MonitoredMs(input, c)
  {
    var mine := ForKey(Clip(input, input.outages), CheckKey(), c.id);
    FittingStaysSeparate(input, input.outages, c);
    CoveredCount(mine);
    CoveredMembers(mine);
    var window := Millis(Max(input.rangeStart, c.createdAt), input.now);
    SubsetSize(Covered(mine), window);
  }

  lemma UptimeInRange(brokenMs: int, monitoredMs: int)
    requires 0 <= brokenMs <= monitoredMs
    ensures var u := Uptime(brokenMs, monitoredMs); u.Some? ==> 0.0 <= u.value <= 100.0
  {
    if monitoredMs > 0 {
      var b, m := brokenMs as real, monitoredMs as real;
      var ratio := b / m;
      assert ratio * m == b;
      assert 0.0 <= ratio <= 1.0;
    }
  }

  function MeasuredBroken(clipped: seq<ClippedOutage>, checks: seq<Check>): int {
    if checks == [] then 0
    else
      var c := checks[|checks| - 1];
      MeasuredBroken(clipped, checks[..|checks| - 1])
      + if IsMeasured(c) then BrokenOf(ForKey(clipped, CheckKey(), c.id)) else 0
  }

  function MeasuredMonitored(input: Input, checks: seq<Check>): int {
    if checks == [] then 0
    else
      var c := checks[|checks| - 1];
      MeasuredMonitored(input, checks[..|checks| - 1]) + if IsMeasured(c) then MonitoredMs(input, c) else 0
  }

  lemma {:induction false} MeasuredWithinMonitored(input: Input, checks: seq<Check>)
    requires forall c :: c in checks ==> OutagesFit(input, input.outages, c)
    ensures 0 <= MeasuredBroken(Clip(input, input.outages), checks) <= MeasuredMonitored(input, checks)
  {
    if checks != [] {
      MeasuredWithinMonitored(input, checks[..|checks| - 1]);
      BrokenWithinMonitored(input, checks[|checks| - 1]);
    }
  }

  /**
   When every check's outages are disjoint, start no earlier than its creation and end by
   now, each reported uptime, the account-wide one included, is within 0 and 100.
   */
  lemma UptimeIsAPercentage(input: Input)
    requires forall c :: c in input.checks ==> OutagesFit(input, input.outages, c)
    ensures var clipped := Clip(input, input.outages);
            && (forall c :: c in input.checks ==>
                  var u := Uptime(BrokenOf(ForKey(clipped, CheckKey(), c.id)), MonitoredMs(input, c));
                  u.Some? ==> 0.0 <= u.value <= 100.0)
            && var account := Uptime(MeasuredBroken(clipped, input.checks), MeasuredMonitored(input, input.checks));
               account.Some? ==> 0.0 <= account.value <= 100.0
  {
    var clipped := Clip(input, input.outages);
    forall c | c in input.checks
      ensures var u := Uptime(BrokenOf(ForKey(clipped, CheckKey(), c.id)), MonitoredMs(input, c));
              u.Some? ==> 0.0 <= u.value <= 100.0
    {
      BrokenWithinMonitored(input, c);
      UptimeInRange(BrokenOf(ForKey(clipped, CheckKey(), c.id)), MonitoredMs(input, c));
    }
    MeasuredWithinMonitored(input, input.checks);
    UptimeInRange(MeasuredBroken(clipped, input.checks), MeasuredMonitored(input, input.checks));
  }
}
