/** The dashboard's check of a usage report: day buckets over a range, with bounded totals. */
module UsageReport {
  import opened Basics

  const I64_MAX: int := 0x7FFF_FFFF_FFFF_FFFF
  const MAXIMUM_SAFE_INTEGER: nat := 9_007_199_254_740_991
  const DAY: nat := 86_400_000
  const USAGE_DAYS: nat := 30
  const COLUMNS: nat := 12

  /** The columns are completed, succeeded, failed and cancelled runs, then eight usage counters. */
  datatype Bucket = Bucket(start: int, end: int, columns: seq<U64>)

  datatype Report = Report(apiVersionValid: bool, from: int, to: int, buckets: seq<Bucket>)

  predicate Safe(n: int) {
    0 <= n <= MAXIMUM_SAFE_INTEGER
  }

  /** One day's bucket: aligned, overlapping the range and clipped to its end, with at least one run
      and every run accounted for. */
  predicate BucketValid(b: Bucket, from: int, to: int) {
    && b.start + DAY <= I64_MAX
    && b.start >= 0
    && b.start % DAY == 0
    && from < b.start + DAY
    && b.start < to
    && b.end == Min(b.start + DAY, to)
    && |b.columns| == COLUMNS
    && b.columns[0] > 0
    && Ended(b) == b.columns[0]
    && Safe(b.start) && Safe(b.end)
    && forall c :: 0 <= c < COLUMNS ==> b.columns[c] <= MAXIMUM_SAFE_INTEGER
  }

  /** Runs that succeeded, failed or were cancelled. */
  function Ended(b: Bucket): nat
    requires |b.columns| == COLUMNS
  {
    var succeeded: nat, failed: nat, cancelled: nat := b.columns[1], b.columns[2], b.columns[3];
    succeeded + failed + cancelled
  }

  /** The sum of one column. */
  function Total(buckets: seq<Bucket>, column: nat): nat {
    if buckets == [] then 0 else
    var last := buckets[|buckets| - 1];
    Total(buckets[..|buckets| - 1], column) + if column < |last.columns| then last.columns[column] else 0
  }

  ghost predicate Increasing(buckets: seq<Bucket>) {
    forall i, j :: 0 <= i < j < |buckets| ==> buckets[i].start < buckets[j].start
  }

  ghost predicate BucketsValid(buckets: seq<Bucket>, from: int, to: int) {
    && (forall i :: 0 <= i < |buckets| ==> BucketValid(buckets[i], from, to))
    && Increasing(buckets)
    && TotalsSafe(buckets)
  }

  ghost predicate TotalsSafe(buckets: seq<Bucket>) {
    forall c :: 0 <= c < COLUMNS ==> Total(buckets, c) <= MAXIMUM_SAFE_INTEGER
  }

  /** What an acceptable report is, said without the loop. */
  ghost predicate Acceptable(r: Report, from: int, to: int) {
    && r.apiVersionValid && r.from == from && r.to == to
    && |r.buckets| <= 31
    && Safe(from) && Safe(to)
    && BucketsValid(r.buckets, from, to)
  }

  lemma TotalSnoc(before: seq<Bucket>, bucket: Bucket, c: nat)
    requires c < |bucket.columns|
    ensures Total(before + [bucket], c) == Total(before, c) + bucket.columns[c]
  {
  }

  lemma {:induction false} TotalMonotone(buckets: seq<Bucket>, i: nat, c: nat)
    requires i <= |buckets|
    ensures Total(buckets[..i], c) <= Total(buckets, c)
    decreases |buckets| - i
  {
    if i == |buckets| {
      assert buckets[..i] == buckets;
    } else {
      assert buckets[..i + 1][..i] == buckets[..i];
      TotalMonotone(buckets, i + 1, c);
    }
  }

  /** Add one bucket to the running totals; false when a column leaves the safe range. */
  method AddTotals(totals: array<nat>, ghost before: seq<Bucket>, bucket: Bucket) returns (ok: bool)
    requires totals.Length == COLUMNS && |bucket.columns| == COLUMNS && TotalsSafe(before)
    requires forall c :: 0 <= c < COLUMNS ==> totals[c] == Total(before, c)
    modifies totals
    ensures ok <==> TotalsSafe(before + [bucket])
    ensures ok ==> forall c :: 0 <= c < COLUMNS ==> totals[c] == Total(before + [bucket], c)
  {
    hide Total;
    ghost var now := before + [bucket];
    for c := 0 to COLUMNS
      invariant forall d :: 0 <= d < c ==> totals[d] == Total(now, d) <= MAXIMUM_SAFE_INTEGER
      invariant forall d :: c <= d < COLUMNS ==> totals[d] == Total(before, d)
    {
      TotalSnoc(before, bucket, c);
      var sum := totals[c] + bucket.columns[c];
      if sum > U64_MAX || sum > MAXIMUM_SAFE_INTEGER {
        return false;
      }
      totals[c] := sum;
    }
    return true;
  }

  predicate BucketChecked(b: Bucket, report: Report, previousStart: Option<int>) {
    && b.start + DAY <= I64_MAX
    && b.start >= 0 && b.start % DAY == 0
    && report.from < b.start + DAY && b.start < report.to && b.end == Min(b.start + DAY, report.to)
    && |b.columns| == COLUMNS && b.columns[0] > 0
    && Ended(b) <= U64_MAX && Ended(b) == b.columns[0]
    && (previousStart.Some? ==> previousStart.value < b.start)
    && Safe(b.start) && Safe(b.end)
    && forall c :: 0 <= c < COLUMNS ==> b.columns[c] <= MAXIMUM_SAFE_INTEGER
  }

  /** The loop accepts exactly the acceptable reports. */
  method ValidAdminUsageReport(report: Report, expectedFrom: int, expectedTo: int) returns (ok: bool)
    ensures ok <==> Acceptable(report, expectedFrom, expectedTo)
  {
    hide BucketValid, Total;
    if || !report.apiVersionValid || report.from != expectedFrom || report.to != expectedTo
       || |report.buckets| > 31 || !Safe(report.from) || !Safe(report.to) {
      return false;
    }
    var previousStart: Option<int> := None;
    var totals := new nat[COLUMNS](_ => 0);
    var buckets := report.buckets;
    EmptyTotals(buckets);
    for i := 0 to |buckets|
      invariant forall j :: 0 <= j < i ==> BucketValid(buckets[j], report.from, report.to)
      invariant Increasing(buckets[..i])
      invariant previousStart == if i == 0 then None else Some(buckets[i - 1].start)
      invariant TotalsSafe(buckets[..i])
      invariant forall c :: 0 <= c < COLUMNS ==> totals[c] == Total(buckets[..i], c)
      invariant fresh(totals)
    {
      var bucket := buckets[i];
      CheckedIff(buckets, i, report, previousStart);
      if !BucketChecked(bucket, report, previousStart) {
        return false;
      }
      assert buckets[..i + 1] == buckets[..i] + [bucket];
      var added := AddTotals(totals, buckets[..i], bucket);
      if !added {
        Overflowed(buckets, i);
        return false;
      }
      previousStart := Some(bucket.start);
    }
    assert buckets[..|buckets|] == buckets;
    return true;
  }

  lemma EmptyTotals(buckets: seq<Bucket>)
    ensures TotalsSafe(buckets[..0])
    ensures forall c :: 0 <= c < COLUMNS ==> Total(buckets[..0], c) == 0
  {
  }

  /** The check of one bucket against the one before decides validity and order. */
  lemma CheckedIff(buckets: seq<Bucket>, i: nat, report: Report, previousStart: Option<int>)
    requires i < |buckets| && Increasing(buckets[..i])
    requires previousStart == if i == 0 then None else Some(buckets[i - 1].start)
    ensures BucketChecked(buckets[i], report, previousStart) <==>
            BucketValid(buckets[i], report.from, report.to) && Increasing(buckets[..i + 1])
    ensures !Increasing(buckets[..i + 1]) ==> !Increasing(buckets)
    ensures BucketChecked(buckets[i], report, previousStart) ==> |buckets[i].columns| == COLUMNS
  {
  }

  lemma Overflowed(buckets: seq<Bucket>, i: nat)
    requires i < |buckets| && !TotalsSafe(buckets[..i + 1])
    ensures !TotalsSafe(buckets)
  {
    hide Total;
    var now := buckets[..i + 1];
    var c :| 0 <= c < COLUMNS && Total(now, c) > MAXIMUM_SAFE_INTEGER;
    TotalMonotone(buckets, i + 1, c);
  }

  // ----- What acceptance means ------------------------------------------------------------------------

  lemma {:induction false} DaysApart(buckets: seq<Bucket>, n: nat, from: int, to: int)
    requires n < |buckets| && Increasing(buckets)
    requires forall i :: 0 <= i < |buckets| ==> buckets[i].start % DAY == 0
    ensures buckets[n].start >= buckets[0].start + n * DAY
  {
    if n > 0 {
      DaysApart(buckets, n - 1, from, to);
      NextDay(buckets[n - 1].start, buckets[n].start);
    }
  }

  lemma NextDay(a: int, b: int)
    requires a % DAY == 0 && b % DAY == 0 && a < b
    ensures a + DAY <= b
  {
  }

  /** Alignment, overlap and order alone allow at most one bucket more than the days asked for. */
  lemma BucketCountBound(buckets: seq<Bucket>, from: int, days: nat)
    requires Increasing(buckets)
    requires forall i :: 0 <= i < |buckets| ==>
               buckets[i].start % DAY == 0 && from < buckets[i].start + DAY && buckets[i].start < from + days * DAY
    ensures |buckets| <= days + 1
  {
    if buckets != [] {
      DaysApart(buckets, |buckets| - 1, from, from + days * DAY);
    }
  }

  /** For the range the dashboard asks for, the bound of 31 buckets is never what rejects a report. */
  lemma ThirtyDaysFit(r: Report, from: int)
    requires BucketsValid(r.buckets, from, from + USAGE_DAYS * DAY)
    ensures |r.buckets| <= 31
  {
    BucketCountBound(r.buckets, from, USAGE_DAYS);
  }

  lemma {:induction false} RunsAddUp(buckets: seq<Bucket>)
    requires forall i :: 0 <= i < |buckets| ==>
               |buckets[i].columns| == COLUMNS && Ended(buckets[i]) == buckets[i].columns[0]
    ensures Total(buckets, 0) == Total(buckets, 1) + Total(buckets, 2) + Total(buckets, 3)
  {
    if buckets != [] {
      RunsAddUp(buckets[..|buckets| - 1]);
    }
  }

  /** An accepted report has pairwise disjoint day windows in order, inside the range at its end,
      safe column totals, and a total of completed runs that is the sum of its three outcomes. */
  lemma AcceptedReport(r: Report, from: int, to: int)
    requires Acceptable(r, from, to)
    ensures forall i, j :: 0 <= i < j < |r.buckets| ==> r.buckets[i].end <= r.buckets[j].start
    ensures forall i :: 0 <= i < |r.buckets| ==> r.buckets[i].start < r.buckets[i].end <= to && r.buckets[i].end - r.buckets[i].start <= DAY
    ensures Total(r.buckets, 0) == Total(r.buckets, 1) + Total(r.buckets, 2) + Total(r.buckets, 3) <= MAXIMUM_SAFE_INTEGER
  {
    forall i, j | 0 <= i < j < |r.buckets| ensures r.buckets[i].end <= r.buckets[j].start {
      assert BucketValid(r.buckets[i], from, to) && BucketValid(r.buckets[j], from, to);
      NextDay(r.buckets[i].start, r.buckets[j].start);
    }
    RunsAddUp(r.buckets);
  }
}
