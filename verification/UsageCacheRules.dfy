/** The dates and buckets a merged snapshot shows, and the days a scan reads and claims, in plain terms
    (src/services/localUsageAnalytics.ts, mergeLocalUsageSnapshots, resolveScanPeriodDays, mergeUsageCoverage and
    scanAndPersist). */
module UsageCacheRules {
  import opened SnapshotMerge
  import opened UsageCoverage
  import opened UsageTables
  import opened UsageTotals
  import opened Wrappers

  // ---- Merged snapshots ----

  /** The last 370 dates, today included, are retained. */
  lemma RetainedExactlyWhen(date: Date, today: Date)
    ensures Retained(date, today) <==> 0 <= today - date < 370
  {
  }

  /** A first merge shows the retained part of the scan. */
  lemma FirstMergeShows(s: Snapshot, scanned: Snapshot, today: Date, retained: set<int>, date: Date, cell: Cell)
    requires IsMerge(s, None, scanned, today, retained) && !Empty(scanned)
    ensures date in s.byDay <==> date in scanned.byDay && 0 <= today - date < 370
    ensures date in s.byDay ==> s.byDay[date] == scanned.byDay[date]
    ensures cell in s.byDayModel <==> cell in scanned.byDayModel && 0 <= today - cell.0 < 370
    ensures cell in s.byDayModel ==> s.byDayModel[cell] == scanned.byDayModel[cell]
  {
  }

  /** A scan that found nothing at all leaves nothing of the cached snapshot. */
  lemma EmptyScanClears(s: Snapshot, previous: Option<Snapshot>, scanned: Snapshot, today: Date, retained: set<int>)
    requires IsMerge(s, previous, scanned, today, retained) && Empty(scanned)
    ensures s.byDay == map[] && s.byDayModel == map[] && s.by3Hour == map[] && s.by3HourModel == map[] && s.total == scanned.total
  {
  }

  /** A bucket-by-model row comes from the scan, or was cached for a retained bucket that was not scanned. */
  lemma BucketModelRowComesFrom(s: Snapshot, cached: Snapshot, scanned: Snapshot, today: Date, retained: set<int>, cell: Cell)
    requires IsMerge(s, Some(cached), scanned, today, retained) && !Empty(scanned)
    ensures cell in s.by3HourModel <==>
              cell in scanned.by3HourModel || (cell in cached.by3HourModel && cell.0 in retained && cell.0 !in scanned.by3Hour)
    ensures cell in s.by3HourModel ==>
              s.by3HourModel[cell] == if cell in scanned.by3HourModel then scanned.by3HourModel[cell] else cached.by3HourModel[cell]
  {
  }

  /** A day-by-model row comes from the scan, or was cached for a date that was not scanned; either way it is retained. */
  lemma DayModelRowComesFrom(s: Snapshot, cached: Snapshot, scanned: Snapshot, today: Date, retained: set<int>, cell: Cell)
    requires IsMerge(s, Some(cached), scanned, today, retained) && !Empty(scanned)
    ensures cell in s.byDayModel <==>
              0 <= today - cell.0 < 370
              && (cell in scanned.byDayModel || (cell in cached.byDayModel && cell.0 !in scanned.byDay))
    ensures cell in s.byDayModel ==>
              s.byDayModel[cell] == if cell in scanned.byDayModel then scanned.byDayModel[cell] else cached.byDayModel[cell]
  {
  }

  // ---- The days that have to be scanned ----

  /** 1970-01-01, day 0, was a Thursday. */
  predicate Monday(date: Date) {
    (date - 4) % 7 == 0
  }

  /** The daily ranges start 7 and 14 days back, today included, on the Monday six weeks before this week's, and on the
      first day of the month six months before. */
  lemma RangesStart(s: ScanDay)
    ensures s.today - StartOf(Days7, s) + 1 == 7 && s.today - StartOf(Days14, s) + 1 == 14
    ensures Monday(StartOf(Weeks7, s)) && 6 * 7 <= s.today - StartOf(Weeks7, s) < 7 * 7
    ensures StartOf(Months7, s) == s.monthStart
    ensures !Daily(Hours24) && !Daily(Days3)
  {
  }

  /** These start first among the enabled daily ranges. */
  predicate StartsFirst(range: Range, s: ScanDay) {
    range in s.ranges && Daily(range)
    && forall other :: other in s.ranges && Daily(other) ==> StartOf(range, s) <= StartOf(other, s)
  }

  lemma FirstIsRequired(s: ScanDay, range: Range)
    requires StartsFirst(range, s)
    ensures EarliestRequired(s) == Some(StartOf(range, s))
  {
    assert Days7 in s.ranges ==> StartOf(range, s) <= StartOf(Days7, s);
    assert Days14 in s.ranges ==> StartOf(range, s) <= StartOf(Days14, s);
    assert Weeks7 in s.ranges ==> StartOf(range, s) <= StartOf(Weeks7, s);
    assert Months7 in s.ranges ==> StartOf(range, s) <= StartOf(Months7, s);
  }

  /** The scan reads back exactly to this date, or further only when the default period is longer. */
  predicate ReachesBackTo(days: int, s: ScanDay, date: Date) {
    days >= s.defaultPeriodDays && s.today - days + 1 <= date && (days > s.defaultPeriodDays ==> s.today - days + 1 == date)
  }

  /** How far a scan reads: back to the first required date when the claim does not reach it; otherwise to the last
      claimed date when the claim does not reach today; otherwise four days. */
  lemma ScanReachesBack(coverage: Option<Coverage>, s: ScanDay, range: Range)
    requires StartsFirst(range, s)
    ensures var (days, first) := (ResolveScanPeriodDays(coverage, s), StartOf(range, s));
            if coverage == None || coverage.value.start > first then ReachesBackTo(days, s, first)
            else if coverage.value.end < s.today then ReachesBackTo(days, s, coverage.value.end)
            else ReachesBackTo(days, s, s.today - 3)
  {
    FirstIsRequired(s, range);
  }

  /** Without a daily range it reads four days, or the default period when that is longer. */
  lemma ShortScanReachesBack(coverage: Option<Coverage>, s: ScanDay)
    requires forall range :: range in s.ranges ==> !Daily(range)
    ensures ReachesBackTo(ResolveScanPeriodDays(coverage, s), s, s.today - 3)
  {
    assert EarliestRequired(s) == None;
  }

  // ---- What is claimed and kept ----

  /** A scan makes rows for its dates, today at least; the claim then spans from the earlier start to the later end. */
  lemma ClaimSpans(c: Cache, s: ScanDay, at: int)
    ensures var (after, first) := (Scanned(c, s, at), s.today - Max(1, ResolveScanPeriodDays(c.coverage, s)) + 1);
            && after.at == Some(at) && after.coverage.Some?
            && (forall date :: date in after.dates <==> 0 <= s.today - date < 370 && (date in c.dates || date >= first))
            && (c.coverage == None ==> after.coverage.value == Coverage(first, s.today))
            && (c.coverage.Some? ==>
                  && after.coverage.value.start == (if c.coverage.value.start <= first then c.coverage.value.start else first)
                  && after.coverage.value.end == (if c.coverage.value.end >= s.today then c.coverage.value.end else s.today))
  {
  }

  /** The cache file is taken exactly when it was calculated later than what is in memory. */
  lemma SyncTakesLater(c: Cache, file: Cache, at: int)
    requires file.at == Some(at)
    ensures Synced(c, Some(file)) == if c.at.Some? && c.at.value >= at then c else file
    ensures Synced(c, None) == c
  {
  }

  /** A scan that ends later than the cache file was calculated keeps its own rows, and extends the claim of the file if
      that is later than what was in memory; a scan that ends earlier gives way to the file. */
  lemma ScanAgainstFile(c: Cache, s: ScanDay, at: int, file: Cache, fileAt: int)
    requires file.at == Some(fileAt) && (c.at.Some? ==> c.at.value < fileAt)
    ensures fileAt > at ==> Finished(c, s, at, Some(file)) == file
    ensures fileAt <= at ==>
              var after := Finished(c, s, at, Some(file));
              && after.dates == Scanned(c, s, at).dates && after.at == Some(at) && after.coverage.Some?
              && (file.coverage.Some? ==> after.coverage.value.start <= file.coverage.value.start
                                          && after.coverage.value.end >= file.coverage.value.end)
              && (file.coverage == None ==> after.coverage.value == Coverage(ScanStart(c, s), s.today))
  {
  }

  /** Without a later file a scan gives way only to what was calculated after it. */
  lemma ScanWithoutFile(c: Cache, s: ScanDay, at: int)
    ensures Finished(c, s, at, None) == if c.at.Some? && c.at.value > at then c else Scanned(c, s, at)
  {
  }
}
