/** Which days a scan covers, and what the cache may claim to cover afterwards (src/services/localUsageAnalytics.ts,
    resolveScanPeriodDays, mergeUsageCoverage and scanAndPersist). Dates are day numbers; day 0 is a Thursday,
    as 1970-01-01 was. */
module UsageCoverage {
  import opened Wrappers
  import opened SnapshotMerge

  const SHORT_PERIOD_DAYS := 4

  datatype Range = Hours24 | Days3 | Days7 | Days14 | Weeks7 | Months7

  datatype Coverage = Coverage(start: Date, end: Date)

  /** What coverage is about in a cache: the dates that have a day row, the claimed interval, and the time at which the
      snapshot was calculated, if there is one. */
  datatype Cache = Cache(dates: set<Date>, coverage: Option<Coverage>, at: Option<int>)

  const NoCache := Cache({}, None, None)

  /** One scan: the date it runs on, the first day of the month six months before, and the settings. */
  datatype ScanDay = ScanDay(today: Date, monthStart: Date, ranges: set<Range>, defaultPeriodDays: nat)

  /** The first day of a month lies at most 214 days back from any day of the sixth month after it. */
  predicate Calendar(s: ScanDay) {
    s.today - 214 <= s.monthStart <= s.today
  }

  predicate Daily(range: Range) {
    range.Days7? || range.Days14? || range.Weeks7? || range.Months7?
  }

  function StartOfWeek(date: Date): Date {
    date - (date + 3) % 7
  }

  function StartOf(range: Range, s: ScanDay): Date
    requires Daily(range)
  {
    match range
    case Days7 => s.today - 6
    case Days14 => s.today - 13
    case Weeks7 => StartOfWeek(s.today) - 42
    case Months7 => s.monthStart
  }

  function Earlier(a: Option<Date>, range: Range, s: ScanDay): Option<Date> {
    if range !in s.ranges || !Daily(range) then a
    else if a.Some? && a.value <= StartOf(range, s) then a
    else Some(StartOf(range, s))
  }

  /** The earliest start among the enabled daily ranges. */
  function EarliestRequired(s: ScanDay): Option<Date> {
    Earlier(Earlier(Earlier(Earlier(None, Days7, s), Days14, s), Weeks7, s), Months7, s)
  }

  function Max(a: int, b: int): int {
    if a >= b then a else b
  }

  function Min(a: int, b: int): int {
    if a <= b then a else b
  }

  function ResolveScanPeriodDays(coverage: Option<Coverage>, s: ScanDay): int {
    var required := EarliestRequired(s);
    if required.Some? && (coverage == None || coverage.value.start > required.value) then
      Max(s.defaultPeriodDays, s.today - required.value + 1)
    else if required.Some? && (coverage == None || coverage.value.end < s.today) then
      Max(s.defaultPeriodDays, s.today - (if coverage.Some? then coverage.value.end else s.today) + 1)
    else Max(s.defaultPeriodDays, SHORT_PERIOD_DAYS)
  }

  function DatesBetween(start: Date, end: Date): (dates: set<Date>)
    ensures forall date :: date in dates <==> start <= date <= end
    decreases end - start
  {
    if start > end then {} else DatesBetween(start, end - 1) + {end}
  }

  /** A scan makes a row for each of the last `days` days, and at least for today. */
  function RecentDates(today: Date, days: int): set<Date> {
    DatesBetween(today - Max(1, days) + 1, today)
  }

  function MergeCoverage(previous: Option<Coverage>, today: Date, days: int): Coverage {
    var fallback := if previous.Some? then previous.value else Coverage(today, today);
    Coverage(Min(fallback.start, today - Max(1, days) + 1), Max(fallback.end, today))
  }

  /** The rows after merging a scan into those in memory. */
  function MergedDates(c: Cache, s: ScanDay): set<Date> {
    set date | date in c.dates + RecentDates(s.today, ResolveScanPeriodDays(c.coverage, s)) && Retained(date, s.today)
  }

  /** What is kept after a scan that extends the claim `base`. */
  function Extended(c: Cache, base: Option<Coverage>, s: ScanDay, at: int): Cache {
    Cache(MergedDates(c, s), Some(MergeCoverage(base, s.today, ResolveScanPeriodDays(c.coverage, s))), Some(at))
  }

  function Scanned(c: Cache, s: ScanDay, at: int): Cache {
    Extended(c, c.coverage, s, at)
  }

  /** The cache file replaces what is in memory when it was calculated later. */
  predicate Adopts(c: Cache, file: Option<Cache>) {
    file.Some? && file.value.at.Some? && (c.at == None || file.value.at.value > c.at.value)
  }

  function Synced(c: Cache, file: Option<Cache>): Cache {
    if Adopts(c, file) then file.value else c
  }

  /** The rows are merged before the cache file is read again, the claim is extended afterwards, and nothing is kept
      when what is then in memory is newer than the merge. */
  function Finished(c: Cache, s: ScanDay, at: int, file: Option<Cache>): Cache {
    var current := Synced(c, file);
    if current.at.Some? && current.at.value > at then current else Extended(c, current.coverage, s, at)
  }

  // ---- The claimed interval has rows ----

  /** Every retained date of the claimed interval has a row, and no row lies outside the interval. */
  ghost predicate Covered(c: Cache, today: Date) {
    match c.coverage
    case None => c.dates == {}
    case Some(claimed) =>
      && claimed.start <= claimed.end <= today
      && (forall date :: claimed.start <= date <= claimed.end && Retained(date, today) ==> date in c.dates)
      && forall date :: date in c.dates ==> claimed.start <= date <= claimed.end
  }

  lemma RequiredIsEarliest(s: ScanDay)
    requires Calendar(s)
    ensures EarliestRequired(s).Some? <==> exists range :: range in s.ranges && Daily(range)
    ensures EarliestRequired(s).Some? ==> s.today - 214 <= EarliestRequired(s).value <= s.today
    ensures forall range :: range in s.ranges && Daily(range) ==> EarliestRequired(s).value <= StartOf(range, s)
  {
    if range :| range in s.ranges && Daily(range) {
      match range
      case Days7 =>
      case Days14 =>
      case Weeks7 =>
      case Months7 =>
    }
  }

  /** A scan reaches back to the day after the claimed interval. */
  predicate Adjoins(c: Cache, s: ScanDay) {
    c.coverage == None || s.today - Max(1, ResolveScanPeriodDays(c.coverage, s)) <= c.coverage.value.end
  }

  /** After a scan the claim holds exactly when the scan adjoins the earlier claim, or is at least as long as
      the retention period. */
  lemma CoveredExactlyWhen(c: Cache, before: Date, s: ScanDay, at: int)
    requires Covered(c, before) && before <= s.today
    ensures Covered(Scanned(c, s, at), s.today) <==> Adjoins(c, s) || ResolveScanPeriodDays(c.coverage, s) >= RETENTION_DAYS
  {
    var days := Max(1, ResolveScanPeriodDays(c.coverage, s));
    var after := Scanned(c, s, at);
    if !Adjoins(c, s) && days < RETENTION_DAYS {
      var gap := s.today - days;
      assert gap !in after.dates && Retained(gap, s.today);
      assert after.coverage.value.start <= gap <= after.coverage.value.end;
    }
  }

  /** With a daily range enabled, a scan always adjoins the earlier claim. */
  lemma DailyRangeAdjoins(c: Cache, before: Date, s: ScanDay)
    requires Covered(c, before) && before <= s.today && Calendar(s)
    requires exists range :: range in s.ranges && Daily(range)
    ensures Adjoins(c, s)
  {
    RequiredIsEarliest(s);
  }

  /** Then every date from the earliest required start to today has a row. */
  lemma RequiredDatesHaveRows(c: Cache, before: Date, s: ScanDay, range: Range, date: Date)
    requires Covered(c, before) && before <= s.today && Calendar(s)
    requires range in s.ranges && Daily(range)
    requires StartOf(range, s) <= date <= s.today
    ensures date in MergedDates(c, s)
  {
    RequiredIsEarliest(s);
    DailyRangeAdjoins(c, before, s);
    CoveredExactlyWhen(c, before, s, 0);
    var after := Scanned(c, s, 0).coverage.value;
    assert after.start <= EarliestRequired(s).value && after.end == s.today;
  }

  // ---- Cache files of other processes ----

  /** The first date of the scan. */
  function ScanStart(c: Cache, s: ScanDay): Date {
    s.today - Max(1, ResolveScanPeriodDays(c.coverage, s)) + 1
  }

  /** Before the scan, the rows in memory are exactly the retained dates of the claim that is extended. */
  ghost predicate RowsMatchClaim(c: Cache, base: Option<Coverage>, s: ScanDay) {
    forall date | Retained(date, s.today) && date < ScanStart(c, s) ::
      date in c.dates <==> base.Some? && base.value.start <= date
  }

  /** Extending a claim by a scan keeps it true exactly when the rows in memory match it: the scan supplies the rest. */
  lemma ExtendedCoveredExactlyWhen(c: Cache, base: Option<Coverage>, before: Date, s: ScanDay, at: int)
    requires Covered(c, before) && before <= s.today
    requires base.Some? ==> base.value.start <= base.value.end <= s.today
    ensures Covered(Extended(c, base, s, at), s.today) <==> RowsMatchClaim(c, base, s)
  {
    var after := Extended(c, base, s, at);
    if RowsMatchClaim(c, base, s) {
      forall date | after.coverage.value.start <= date <= after.coverage.value.end && Retained(date, s.today)
        ensures date in after.dates
      {
        assert date < ScanStart(c, s) ==> date in c.dates;
      }
      forall date | date in after.dates
        ensures after.coverage.value.start <= date <= after.coverage.value.end
      {
        assert Retained(date, s.today);
      }
    } else {
      var date :| Retained(date, s.today) && date < ScanStart(c, s)
                  && !(date in c.dates <==> base.Some? && base.value.start <= date);
      assert date in after.dates <==> date in c.dates;
      assert !Covered(after, s.today);
    }
  }

  lemma StaysCovered(c: Cache, before: Date, today: Date)
    requires Covered(c, before) && before <= today
    ensures Covered(c, today)
  {
  }

  /** What happens to the cache in memory: the file is read, or a scan is carried out and the file is read at its end. */
  datatype Turn =
    | Sync(today: Date, file: Option<Cache>)
    | Scan(day: ScanDay, at: int, file: Option<Cache>)

  function DateOf(turn: Turn): Date {
    match turn
    case Sync(today, _) => today
    case Scan(day, _, _) => day.today
  }

  function Taken(c: Cache, turn: Turn): Cache {
    match turn
    case Sync(_, file) => Synced(c, file)
    case Scan(day, at, file) => Finished(c, day, at, file)
  }

  /** The file was written during the scan, by a process that calculated it after what is in memory but no later than
      the merge: its claim is extended, but its rows are lost. */
  predicate Slips(c: Cache, turn: Turn) {
    turn.Scan? && Adopts(c, turn.file) && turn.file.value.at.value <= turn.at
  }

  /** The scan has a daily range, its dates are those of a calendar, and the claim of a file that is read is true. */
  ghost predicate Sound(turn: Turn) {
    && (turn.file.Some? ==> Covered(turn.file.value, DateOf(turn)))
    && (turn.Scan? ==> Calendar(turn.day) && exists range :: range in turn.day.ranges && Daily(range))
  }

  /** No file slips in during this turn whose claim the rows in memory do not match. */
  ghost predicate KeepsClaim(c: Cache, turn: Turn) {
    Slips(c, turn) ==> RowsMatchClaim(c, turn.file.value.coverage, turn.day)
  }

  /** One turn keeps the claim true unless the file slips in during the scan, and then exactly when the rows in memory
      match its claim. */
  lemma TurnCoveredExactlyWhen(c: Cache, before: Date, turn: Turn)
    requires Covered(c, before) && before <= DateOf(turn) && Sound(turn)
    ensures Covered(Taken(c, turn), DateOf(turn)) <==> KeepsClaim(c, turn)
  {
    StaysCovered(c, before, DateOf(turn));
    if turn.Scan? {
      var current := Synced(c, turn.file);
      if current.at == None || current.at.value <= turn.at {
        ExtendedCoveredExactlyWhen(c, current.coverage, before, turn.day, turn.at);
        if !Slips(c, turn) {
          DailyRangeAdjoins(c, before, turn.day);
          CoveredExactlyWhen(c, before, turn.day, turn.at);
        }
      }
    }
  }

  function RunTurns(c: Cache, turns: seq<Turn>): Cache {
    if turns == [] then c else Taken(RunTurns(c, turns[..|turns| - 1]), turns[|turns| - 1])
  }

  function DateAfter(start: Date, turns: seq<Turn>): Date {
    if turns == [] then start else DateOf(turns[|turns| - 1])
  }

  ghost predicate TodayNeverGoesBack(start: Date, turns: seq<Turn>) {
    && (forall i | 0 <= i < |turns| :: start <= DateOf(turns[i]))
    && forall i, j :: 0 <= i < j < |turns| ==> DateOf(turns[i]) <= DateOf(turns[j])
  }

  lemma {:induction false} RunIsCovered(c: Cache, start: Date, turns: seq<Turn>)
    requires Covered(c, start) && TodayNeverGoesBack(start, turns)
    requires forall i | 0 <= i < |turns| :: Sound(turns[i]) && KeepsClaim(RunTurns(c, turns[..i]), turns[i])
    ensures Covered(RunTurns(c, turns), DateAfter(start, turns))
  {
    if turns == [] {
    } else {
      var init, last := turns[..|turns| - 1], turns[|turns| - 1];
      assert forall i | 0 <= i < |init| :: init[..i] == turns[..i];
      RunIsCovered(c, start, init);
      TurnCoveredExactlyWhen(RunTurns(c, init), DateAfter(start, init), last);
    }
  }

  /** With a daily range enabled at every scan, dates that never go back and true claims in the files of other processes,
      the claim in memory is true all along a run exactly when no file slips in during a scan whose claim the rows in
      memory do not match. */
  lemma RunIsCoveredExactlyWhen(c: Cache, start: Date, turns: seq<Turn>)
    requires Covered(c, start) && TodayNeverGoesBack(start, turns)
    requires forall i | 0 <= i < |turns| :: Sound(turns[i])
    ensures (forall k :: 0 <= k <= |turns| ==> Covered(RunTurns(c, turns[..k]), DateAfter(start, turns[..k])))
       <==> (forall i :: 0 <= i < |turns| ==> KeepsClaim(RunTurns(c, turns[..i]), turns[i]))
  {
    if forall i :: 0 <= i < |turns| ==> KeepsClaim(RunTurns(c, turns[..i]), turns[i]) {
      forall k | 0 <= k <= |turns|
        ensures Covered(RunTurns(c, turns[..k]), DateAfter(start, turns[..k]))
      {
        assert forall i | 0 <= i < k :: turns[..k][..i] == turns[..i];
        RunIsCovered(c, start, turns[..k]);
      }
    } else {
      var i :| 0 <= i < |turns| && !KeepsClaim(RunTurns(c, turns[..i]), turns[i]);
      if Covered(RunTurns(c, turns[..i]), DateAfter(start, turns[..i])) {
        assert turns[..i + 1][..i] == turns[..i];
        TurnCoveredExactlyWhen(RunTurns(c, turns[..i]), DateAfter(start, turns[..i]), turns[i]);
        assert !Covered(RunTurns(c, turns[..i + 1]), DateAfter(start, turns[..i + 1]));
      }
    }
  }

  /** While no other process writes during a scan, the file holds nothing newer at its end, and every run is covered. */
  lemma UndisturbedRunIsCovered(c: Cache, start: Date, turns: seq<Turn>)
    requires Covered(c, start) && TodayNeverGoesBack(start, turns)
    requires forall i | 0 <= i < |turns| :: Sound(turns[i])
    requires forall i | 0 <= i < |turns| && turns[i].Scan? :: !Adopts(RunTurns(c, turns[..i]), turns[i].file)
    ensures Covered(RunTurns(c, turns), DateAfter(start, turns))
  {
    RunIsCovered(c, start, turns);
  }

  /** A true claim, read at the end of a scan, becomes a false one: the file claims a hundred days whose rows the merge
      does not have. */
  lemma SlippedClaimLosesRows() returns (turn: Turn)
    ensures Sound(turn) && Slips(NoCache, turn) && Covered(NoCache, DateOf(turn))
    ensures !Covered(Taken(NoCache, turn), DateOf(turn))
  {
    var day, file := ScanDay(0, -150, {Days7}, 14), Cache(DatesBetween(-100, 0), Some(Coverage(-100, 0)), Some(1));
    turn := Scan(day, 2, Some(file));
    assert Days7 in day.ranges && Daily(Days7);
    TurnCoveredExactlyWhen(NoCache, 0, turn);
    assert !RowsMatchClaim(NoCache, file.coverage, day) by {
      OneWeekScansDefault(day);
      assert Retained(-50, 0) && -50 < ScanStart(NoCache, day) && -50 !in NoCache.dates;
    }
  }

  lemma OneWeekScansDefault(s: ScanDay)
    requires s.ranges == {Days7} && s.defaultPeriodDays >= 7
    ensures ResolveScanPeriodDays(None, s) == s.defaultPeriodDays
  {
    assert EarliestRequired(s) == Some(s.today - 6);
  }

  lemma RunTwo(c: Cache, first: Turn, second: Turn)
    ensures RunTurns(c, [first, second]) == Taken(Taken(c, first), second)
  {
    assert [first][..0] == [] && RunTurns(c, []) == c;
    assert RunTurns(c, [first]) == Taken(c, first);
    assert [first, second][..1] == [first];
  }

  lemma ShortRangesScanShortPeriod(coverage: Option<Coverage>, s: ScanDay)
    requires s.ranges == {Hours24}
    ensures ResolveScanPeriodDays(coverage, s) == Max(s.defaultPeriodDays, SHORT_PERIOD_DAYS)
  {
    assert EarliestRequired(s) == None;
  }

  /** With only short ranges the claim can bridge days that were never scanned. */
  lemma ShortRangesLeaveGap() returns (turns: seq<Turn>)
    ensures TodayNeverGoesBack(3, turns) && |turns| == 2
    ensures forall i | 0 <= i < |turns| :: turns[i].Scan? && turns[i].file == None
    ensures !Covered(RunTurns(NoCache, turns), DateAfter(3, turns))
  {
    var first, second := ScanDay(3, -150, {Hours24}, 4), ScanDay(10, -150, {Hours24}, 4);
    turns := [Scan(first, 0, None), Scan(second, 1, None)];
    RunTwo(NoCache, turns[0], turns[1]);
    ShortRangesScanShortPeriod(None, first);
    CoveredExactlyWhen(NoCache, 3, first, 0);
    var c := Scanned(NoCache, first, 0);
    assert c.coverage == Some(Coverage(0, 3));
    ShortRangesScanShortPeriod(c.coverage, second);
    CoveredExactlyWhen(c, 3, second, 1);
  }

  // ---- The service that keeps the cache ----

  /** The cache file. */
  datatype Stored = Stored(snapshot: Snapshot, coverage: Coverage, calculatedAt: int)

  function CacheOf(file: Option<Stored>): Option<Cache> {
    if file == None then None
    else Some(Cache(file.value.snapshot.byDay.Keys, Some(file.value.coverage), Some(file.value.calculatedAt)))
  }

  class UsageService {
    var snapshot: Option<Snapshot>
    var cacheCoverage: Option<Coverage>
    var calculatedAt: Option<int>

    constructor ()
      ensures Contents() == NoCache && snapshot == None
    {
      snapshot, cacheCoverage, calculatedAt := None, None, None;
    }

    function Contents(): Cache
      reads this
    {
      Cache(if snapshot.Some? then snapshot.value.byDay.Keys else {}, cacheCoverage, calculatedAt)
    }

    method SyncSnapshotFromCache(file: Option<Stored>) returns (adopted: bool)
      modifies this
      ensures Contents() == Synced(old(Contents()), CacheOf(file)) && adopted == Adopts(old(Contents()), CacheOf(file))
      ensures snapshot == if adopted then Some(file.value.snapshot) else old(snapshot)
    {
      if file == None || (calculatedAt.Some? && file.value.calculatedAt <= calculatedAt.value) {
        return false;
      }
      snapshot, cacheCoverage, calculatedAt := Some(file.value.snapshot), Some(file.value.coverage), Some(file.value.calculatedAt);
      return true;
    }

    /** `scanner` is a scan of the session files over the last so many days, `now` the time of the merge, and `file` the
        cache file as it is then. */
    method ScanAndPersist(s: ScanDay, retained: set<int>, scanner: int -> Snapshot, now: int, file: Option<Stored>)
      returns (written: bool)
      requires forall days: int :: scanner(days).byDay.Keys == RecentDates(s.today, days)
      modifies this
      ensures Contents() == Finished(old(Contents()), s, now, CacheOf(file))
      ensures written <==> !(Synced(old(Contents()), CacheOf(file)).at.Some? && Synced(old(Contents()), CacheOf(file)).at.value > now)
      ensures written ==>
                snapshot.Some?
                && IsMerge(snapshot.value, old(snapshot), scanner(ResolveScanPeriodDays(old(cacheCoverage), s)), s.today, retained)
    {
      var periodDays := ResolveScanPeriodDays(cacheCoverage, s);
      var scanned := scanner(periodDays);
      assert s.today in scanned.byDay.Keys;
      var merged := MergeLocalUsageSnapshots(snapshot, scanned, s.today, retained);
      assert merged.byDay.Keys == MergedDates(old(Contents()), s);
      var _ := SyncSnapshotFromCache(file);
      if calculatedAt.Some? && calculatedAt.value > now {
        return false;
      }
      cacheCoverage := Some(MergeCoverage(cacheCoverage, s.today, periodDays));
      snapshot, calculatedAt := Some(merged), Some(now);
      return true;
    }
  }
}
