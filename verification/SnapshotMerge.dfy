/** Merging a scan into the cached usage snapshot (src/services/localUsageAnalytics.ts, mergeLocalUsageSnapshots).
    Tables are maps; the arrays of the source also carry a display order. */
module SnapshotMerge {
  import opened Wrappers
  import opened UsageTables
  import opened UsageTotals
  import UsageLedger

  type Date = int

  const RETENTION_DAYS := 370

  datatype Snapshot = Snapshot(byDay: map<Date, Row>, byDayModel: map<Cell, Totals>,
                               by3Hour: map<int, Row>, by3HourModel: map<Cell, Totals>,
                               total: Totals, byModel: map<string, Totals>, eventCount: nat)

  const Nothing := Snapshot(map[], map[], map[], map[], Zero, map[], 0)

  predicate Retained(date: Date, today: Date) {
    today - (RETENTION_DAYS - 1) <= date <= today
  }

  predicate Empty(s: Snapshot) {
    s.byDay == map[] && s.byDayModel == map[] && s.by3Hour == map[] && s.by3HourModel == map[]
  }

  // ---- The tables after a merge ----

  function MergedDays(previous: map<Date, Row>, scanned: map<Date, Row>, today: Date): map<Date, Row> {
    map date | date in previous.Keys + scanned.Keys && Retained(date, today) ::
      if date in scanned then scanned[date] else previous[date]
  }

  function MergedDayModels(previous: map<Cell, Totals>, scanned: map<Cell, Totals>, scannedDates: set<Date>, today: Date): map<Cell, Totals> {
    map cell | cell in previous.Keys + scanned.Keys && (cell in scanned || cell.0 !in scannedDates) && Retained(cell.0, today) ::
      if cell in scanned then scanned[cell] else previous[cell]
  }

  function MergedBuckets(previous: map<int, Row>, scanned: map<int, Row>, retained: set<int>): map<int, Row> {
    map startAt | startAt in previous.Keys + scanned.Keys && startAt in retained ::
      if startAt in scanned then scanned[startAt] else previous[startAt]
  }

  function MergedBucketModels(previous: map<Cell, Totals>, scanned: map<Cell, Totals>, scannedStarts: set<int>, retained: set<int>): map<Cell, Totals> {
    map cell | cell in previous.Keys + scanned.Keys && (cell in scanned || (cell.0 !in scannedStarts && cell.0 in retained)) ::
      if cell in scanned then scanned[cell] else previous[cell]
  }

  // ---- Totals recomputed from the retained rows ----

  ghost predicate SumsTo<K>(table: map<K, Totals>, sum: Totals) {
    forall p: Part :: PartOf(sum, p) == Sum(Column(table, p))
  }

  ghost predicate RowsSumTo<K>(table: map<K, Row>, sum: Totals) {
    forall p: Part :: PartOf(sum, p) == Sum(RowColumn(table, p))
  }

  /** One row per model that has cells, holding the sum of its cells. */
  ghost predicate AggregatesModels(cells: map<Cell, Totals>, byModel: map<string, Totals>) {
    && (forall model :: model in byModel <==> exists cell :: cell in cells && cell.1 == model)
    && forall model | model in byModel :: SumsTo(RowsFor(cells, model), byModel[model])
  }

  /** `s` is the result of merging `scanned` into `previous`. */
  ghost predicate IsMerge(s: Snapshot, previous: Option<Snapshot>, scanned: Snapshot, today: Date, retained: set<int>) {
    if Empty(scanned) then s == scanned
    else
      var cached := if previous.Some? then previous.value else Nothing;
      && s.byDay == MergedDays(cached.byDay, scanned.byDay, today)
      && s.byDayModel == MergedDayModels(cached.byDayModel, scanned.byDayModel, scanned.byDay.Keys, today)
      && s.by3Hour == MergedBuckets(cached.by3Hour, scanned.by3Hour, retained)
      && s.by3HourModel == MergedBucketModels(cached.by3HourModel, scanned.by3HourModel, scanned.by3Hour.Keys, retained)
      && RowsSumTo(s.byDay, s.total)
      && AggregatesModels(s.byDayModel, s.byModel)
      && s.eventCount == Sum(Counts(s.byDay))
  }

  // ---- Day rows stay the sums of their cells ----

  ghost predicate DaysMatchCells(s: Snapshot) {
    forall p: Part :: RowsMatchCells(RowColumn(s.byDay, p), Column(s.byDayModel, p))
  }

  /** Day rows, model rows, grand total and event count all agree. */
  ghost predicate Consistent(s: Snapshot) {
    && DaysMatchCells(s)
    && RowsSumTo(s.byDay, s.total) && SumsTo(s.byDayModel, s.total) && SumsTo(s.byModel, s.total)
    && AggregatesModels(s.byDayModel, s.byModel)
    && s.eventCount == Sum(Counts(s.byDay))
  }

  lemma ColumnAt(cells: map<Cell, Totals>, at: int, p: Part)
    ensures RowsAt(Column(cells, p), at) == Column(RowsAt(cells, at), p)
  {
  }

  lemma ColumnFor(cells: map<Cell, Totals>, model: string, p: Part)
    ensures RowsFor(Column(cells, p), model) == Column(RowsFor(cells, model), p)
  {
  }

  /** On each retained date, a scanned date shows what was scanned, and any other date what was cached. */
  lemma MergedDateShows(previous: map<Cell, Totals>, scanned: map<Cell, Totals>, dates: set<Date>, today: Date, date: Date)
    requires forall cell | cell in scanned :: cell.0 in dates
    requires Retained(date, today)
    ensures RowsAt(MergedDayModels(previous, scanned, dates, today), date)
         == if date in dates then RowsAt(scanned, date) else RowsAt(previous, date)
  {
  }

  lemma MergedDaysMatchCells(s: Snapshot, cached: Snapshot, scanned: Snapshot, today: Date)
    requires DaysMatchCells(cached) && DaysMatchCells(scanned)
    requires s.byDay == MergedDays(cached.byDay, scanned.byDay, today)
    requires s.byDayModel == MergedDayModels(cached.byDayModel, scanned.byDayModel, scanned.byDay.Keys, today)
    ensures DaysMatchCells(s)
  {
    forall p: Part
      ensures RowsMatchCells(RowColumn(s.byDay, p), Column(s.byDayModel, p))
    {
      MergedDaysMatchCellsIn(s, cached, scanned, today, p);
    }
  }

  lemma SameDateSameSum(s: Snapshot, source: Snapshot, date: Date, p: Part)
    requires RowsMatchCells(RowColumn(source.byDay, p), Column(source.byDayModel, p))
    requires date in s.byDay && date in source.byDay && s.byDay[date] == source.byDay[date]
    requires RowsAt(s.byDayModel, date) == RowsAt(source.byDayModel, date)
    ensures RowColumn(s.byDay, p)[date] == Sum(RowsAt(Column(s.byDayModel, p), date))
  {
    ColumnAt(s.byDayModel, date, p);
    ColumnAt(source.byDayModel, date, p);
    assert RowColumn(source.byDay, p)[date] == Sum(RowsAt(Column(source.byDayModel, p), date));
  }

  lemma MergedDaysMatchCellsIn(s: Snapshot, cached: Snapshot, scanned: Snapshot, today: Date, p: Part)
    requires RowsMatchCells(RowColumn(cached.byDay, p), Column(cached.byDayModel, p))
    requires RowsMatchCells(RowColumn(scanned.byDay, p), Column(scanned.byDayModel, p))
    requires s.byDay == MergedDays(cached.byDay, scanned.byDay, today)
    requires s.byDayModel == MergedDayModels(cached.byDayModel, scanned.byDayModel, scanned.byDay.Keys, today)
    ensures RowsMatchCells(RowColumn(s.byDay, p), Column(s.byDayModel, p))
  {
    CellsHaveRows(cached, p);
    CellsHaveRows(scanned, p);
    forall date | date in s.byDay
      ensures RowColumn(s.byDay, p)[date] == Sum(RowsAt(Column(s.byDayModel, p), date))
    {
      MergedDateShows(cached.byDayModel, scanned.byDayModel, scanned.byDay.Keys, today, date);
      SameDateSameSum(s, if date in scanned.byDay then scanned else cached, date, p);
    }
    MergedCellsHaveRows(s, cached, scanned, today);
  }

  lemma MergedCellsHaveRows(s: Snapshot, cached: Snapshot, scanned: Snapshot, today: Date)
    requires forall cell | cell in cached.byDayModel :: cell.0 in cached.byDay
    requires forall cell | cell in scanned.byDayModel :: cell.0 in scanned.byDay
    requires s.byDay == MergedDays(cached.byDay, scanned.byDay, today)
    requires s.byDayModel == MergedDayModels(cached.byDayModel, scanned.byDayModel, scanned.byDay.Keys, today)
    ensures forall cell | cell in s.byDayModel :: cell.0 in s.byDay
  {
  }

  lemma CellsHaveRows(s: Snapshot, p: Part)
    requires RowsMatchCells(RowColumn(s.byDay, p), Column(s.byDayModel, p))
    ensures forall cell | cell in s.byDayModel :: cell.0 in s.byDay
  {
    forall cell | cell in s.byDayModel
      ensures cell.0 in s.byDay
    {
      assert cell in Column(s.byDayModel, p);
    }
  }

  lemma ModelsAgree(s: Snapshot, p: Part)
    requires AggregatesModels(s.byDayModel, s.byModel)
    ensures ModelsMatchCells(Column(s.byModel, p), Column(s.byDayModel, p))
    ensures Sum(Column(s.byModel, p)) == Sum(Column(s.byDayModel, p))
  {
    forall model | model in s.byModel
      ensures Column(s.byModel, p)[model] == Sum(RowsFor(Column(s.byDayModel, p), model))
    {
      ColumnFor(s.byDayModel, model, p);
      assert SumsTo(RowsFor(s.byDayModel, model), s.byModel[model]);
    }
    forall cell | cell in Column(s.byDayModel, p)
      ensures cell.1 in Column(s.byModel, p)
    {
      assert cell in s.byDayModel;
    }
    ModelsAndCellsHaveOneSum(Column(s.byModel, p), Column(s.byDayModel, p));
  }

  /** If day rows equal the sums of their cells in the cached and in the scanned snapshot, they still do after merging,
      and then the totals, the model rows and the event count equal the sums of the retained rows. */
  lemma MergeIsConsistent(s: Snapshot, previous: Option<Snapshot>, scanned: Snapshot, today: Date, retained: set<int>)
    requires IsMerge(s, previous, scanned, today, retained)
    requires previous.Some? ==> DaysMatchCells(previous.value)
    requires DaysMatchCells(scanned)
    ensures DaysMatchCells(s)
    ensures Empty(scanned) || Consistent(s)
  {
    if !Empty(scanned) {
      NothingMatches();
      var cached := if previous.Some? then previous.value else Nothing;
      MergedDaysMatchCells(s, cached, scanned, today);
      forall p: Part
        ensures PartOf(s.total, p) == Sum(Column(s.byDayModel, p)) == Sum(Column(s.byModel, p))
      {
        RowsAndCellsHaveOneSum(RowColumn(s.byDay, p), Column(s.byDayModel, p));
        ModelsAgree(s, p);
      }
    }
  }

  lemma NothingMatches()
    ensures DaysMatchCells(Nothing)
  {
  }

  /** Scanned dates replace cached ones, other cached dates stay while they are retained, and nothing else appears. */
  lemma ScannedReplacesCached(s: Snapshot, cached: Snapshot, scanned: Snapshot, today: Date, retained: set<int>, date: Date)
    requires IsMerge(s, Some(cached), scanned, today, retained) && !Empty(scanned)
    requires DaysMatchCells(cached) && DaysMatchCells(scanned)
    ensures date in s.byDay <==> Retained(date, today) && (date in scanned.byDay || date in cached.byDay)
    ensures date in s.byDay ==>
              var source := if date in scanned.byDay then scanned else cached;
              s.byDay[date] == source.byDay[date] && RowsAt(s.byDayModel, date) == RowsAt(source.byDayModel, date)
    ensures !Retained(date, today) ==> RowsAt(s.byDayModel, date) == map[]
  {
    CellsHaveRows(scanned, Input);
    if Retained(date, today) {
      MergedDateShows(cached.byDayModel, scanned.byDayModel, scanned.byDay.Keys, today, date);
    }
  }

  lemma SameParts(a: Totals, b: Totals)
    requires forall p: Part :: PartOf(a, p) == PartOf(b, p)
    ensures a == b
  {
    assert PartOf(a, Input) == PartOf(b, Input) && PartOf(a, Cached) == PartOf(b, Cached);
    assert PartOf(a, Output) == PartOf(b, Output) && PartOf(a, Reasoning) == PartOf(b, Reasoning);
    assert PartOf(a, Total) == PartOf(b, Total);
  }

  lemma SameTotals<K>(a: Totals, b: Totals, table: map<K, Row>)
    requires RowsSumTo(table, a) && RowsSumTo(table, b)
    ensures a == b
  {
    forall p: Part
      ensures PartOf(a, p) == PartOf(b, p)
    {
    }
    SameParts(a, b);
  }

  lemma SameSums<K>(a: Totals, b: Totals, table: map<K, Totals>)
    requires SumsTo(table, a) && SumsTo(table, b)
    ensures a == b
  {
    forall p: Part
      ensures PartOf(a, p) == PartOf(b, p)
    {
    }
    SameParts(a, b);
  }

  /** Scanned 3-hour buckets replace cached ones, other cached buckets stay while they are in the retained period, and
      the model rows of a bucket come from the same side as the bucket. */
  lemma ScannedBucketsReplaceCached(s: Snapshot, cached: Snapshot, scanned: Snapshot, today: Date, retained: set<int>, startAt: int)
    requires IsMerge(s, Some(cached), scanned, today, retained) && !Empty(scanned)
    requires forall cell | cell in scanned.by3HourModel :: cell.0 in scanned.by3Hour
    ensures startAt in s.by3Hour <==> startAt in retained && (startAt in scanned.by3Hour || startAt in cached.by3Hour)
    ensures startAt in s.by3Hour ==>
              var source := if startAt in scanned.by3Hour then scanned else cached;
              s.by3Hour[startAt] == source.by3Hour[startAt] && RowsAt(s.by3HourModel, startAt) == RowsAt(source.by3HourModel, startAt)
  {
    if startAt in retained {
      MergedBucketShows(cached.by3HourModel, scanned.by3HourModel, scanned.by3Hour.Keys, retained, startAt);
    }
  }

  lemma MergedBucketShows(previous: map<Cell, Totals>, scanned: map<Cell, Totals>, starts: set<int>, retained: set<int>, startAt: int)
    requires forall cell | cell in scanned :: cell.0 in starts
    requires startAt in retained
    ensures RowsAt(MergedBucketModels(previous, scanned, starts, retained), startAt)
         == if startAt in starts then RowsAt(scanned, startAt) else RowsAt(previous, startAt)
  {
  }

  lemma TablesMergeOnce(cached: Snapshot, scanned: Snapshot, dates: set<Date>, starts: set<int>, today: Date, retained: set<int>)
    ensures MergedDays(MergedDays(cached.byDay, scanned.byDay, today), scanned.byDay, today)
         == MergedDays(cached.byDay, scanned.byDay, today)
    ensures MergedDayModels(MergedDayModels(cached.byDayModel, scanned.byDayModel, dates, today), scanned.byDayModel, dates, today)
         == MergedDayModels(cached.byDayModel, scanned.byDayModel, dates, today)
    ensures MergedBuckets(MergedBuckets(cached.by3Hour, scanned.by3Hour, retained), scanned.by3Hour, retained)
         == MergedBuckets(cached.by3Hour, scanned.by3Hour, retained)
  {
  }

  lemma BucketModelsMergeOnce(cached: map<Cell, Totals>, scanned: map<Cell, Totals>, starts: set<int>, retained: set<int>)
    ensures MergedBucketModels(MergedBucketModels(cached, scanned, starts, retained), scanned, starts, retained)
         == MergedBucketModels(cached, scanned, starts, retained)
  {
  }

  lemma SameModels(cells: map<Cell, Totals>, a: map<string, Totals>, b: map<string, Totals>)
    requires AggregatesModels(cells, a) && AggregatesModels(cells, b)
    ensures a == b
  {
    assert forall model :: model in a <==> model in b;
    forall model | model in a
      ensures a[model] == b[model]
    {
      SameSums(a[model], b[model], RowsFor(cells, model));
    }
  }

  /** Merging the same scan again at the same time changes nothing. */
  lemma MergeIsIdempotent(once: Snapshot, twice: Snapshot, previous: Option<Snapshot>, scanned: Snapshot, today: Date, retained: set<int>)
    requires IsMerge(once, previous, scanned, today, retained)
    requires IsMerge(twice, Some(once), scanned, today, retained)
    ensures twice == once
  {
    if !Empty(scanned) {
      var cached := if previous.Some? then previous.value else Nothing;
      TablesMergeOnce(cached, scanned, scanned.byDay.Keys, scanned.by3Hour.Keys, today, retained);
      BucketModelsMergeOnce(cached.by3HourModel, scanned.by3HourModel, scanned.by3Hour.Keys, retained);
      SameTotals(once.total, twice.total, once.byDay);
      SameModels(once.byDayModel, once.byModel, twice.byModel);
    }
  }

  // ---- Runs of scans ----

  /** The snapshot that a scan's tables amount to. */
  function SnapshotOf(b: UsageLedger.Books): Snapshot {
    Snapshot(b.byDate, b.byDayModel, b.by3Hour, b.by3HourModel, b.total, b.byModel, b.eventCount)
  }

  /** A scan of any observations can be merged: its day rows are the sums of their cells. */
  lemma ScansMatchCells(c: UsageLedger.Config, observations: seq<UsageLedger.Observation>)
    ensures DaysMatchCells(SnapshotOf(UsageLedger.RecordAll(c, observations)))
  {
    forall p: Part
      ensures var b := UsageLedger.RecordAll(c, observations); RowsMatchCells(RowColumn(b.byDate, p), Column(b.byDayModel, p))
    {
      UsageLedger.BooksBalance(c, observations, p);
    }
  }

  datatype Merging = Merging(scanned: Snapshot, today: Date, retained: set<int>)

  /** `states` are the cached snapshots before and after each merge. */
  ghost predicate IsRun(states: seq<Snapshot>, merges: seq<Merging>) {
    |states| == |merges| + 1
    && forall i | 0 <= i < |merges| :: IsMerge(states[i + 1], Some(states[i]), merges[i].scanned, merges[i].today, merges[i].retained)
  }

  lemma {:induction false} RunStaysConsistent(states: seq<Snapshot>, merges: seq<Merging>, i: nat)
    requires IsRun(states, merges) && i < |states|
    requires DaysMatchCells(states[0])
    requires forall j | 0 <= j < |merges| :: DaysMatchCells(merges[j].scanned)
    ensures DaysMatchCells(states[i])
    ensures i > 0 && !Empty(merges[i - 1].scanned) ==> Consistent(states[i])
  {
    if i > 0 {
      RunStaysConsistent(states, merges, i - 1);
      var before, after, m := states[i - 1], states[i], merges[i - 1];
      assert IsMerge(states[i - 1 + 1], Some(before), m.scanned, m.today, m.retained);
      MergeIsConsistent(after, Some(before), m.scanned, m.today, m.retained);
    }
  }


  // ---- The merge as it is carried out ----

  function Only<K, V>(table: map<K, V>, keys: set<K>): map<K, V> {
    map key | key in table && key in keys :: table[key]
  }

  method SumUsageRows(rows: map<Date, Row>) returns (total: Totals, eventCount: nat)
    ensures RowsSumTo(rows, total)
    ensures eventCount == Sum(Counts(rows))
  {
    total, eventCount := Zero, 0;
    var pending := rows.Keys;
    assert Only(rows, pending) == rows;
    while pending != {}
      invariant pending <= rows.Keys
      invariant forall p: Part ::
                  PartOf(total, p) + Sum(RowColumn(Only(rows, pending), p)) == Sum(RowColumn(rows, p))
      invariant eventCount + Sum(Counts(Only(rows, pending))) == Sum(Counts(rows))
      decreases pending
    {
      ghost var some := SomeMember(pending);
      var date :| date in pending;
      RowTakenOut(rows, pending, date);
      forall p: Part
        ensures PartOf(Add(total, rows[date].usage), p) + Sum(RowColumn(Only(rows, pending - {date}), p)) == Sum(RowColumn(rows, p))
      {
        PartOfAdd(total, rows[date].usage, p);
      }
      total := Add(total, rows[date].usage);
      eventCount := eventCount + rows[date].eventCount;
      pending := pending - {date};
    }
    NothingLeft(Only(rows, pending));
  }

  lemma NothingLeft(rows: map<Date, Row>)
    requires rows.Keys == {}
    ensures forall p: Part :: Sum(RowColumn(rows, p)) == 0
    ensures Sum(Counts(rows)) == 0
  {
    EmptyColumn(Counts(rows));
    forall p: Part
      ensures Sum(RowColumn(rows, p)) == 0
    {
      EmptyColumn(RowColumn(rows, p));
    }
  }

  lemma RowTakenOut(rows: map<Date, Row>, pending: set<Date>, date: Date)
    requires pending <= rows.Keys && date in pending
    ensures Sum(Counts(Only(rows, pending))) == rows[date].eventCount + Sum(Counts(Only(rows, pending - {date})))
    ensures forall p: Part ::
              Sum(RowColumn(Only(rows, pending), p)) == PartOf(rows[date].usage, p) + Sum(RowColumn(Only(rows, pending - {date}), p))
  {
    var all, rest := Only(rows, pending), Only(rows, pending - {date});
    SumTakeOut(Counts(all), date);
    assert Counts(all) - {date} == Counts(rest);
    forall p: Part
      ensures Sum(RowColumn(all, p)) == PartOf(rows[date].usage, p) + Sum(RowColumn(rest, p))
    {
      SumTakeOut(RowColumn(all, p), date);
      assert RowColumn(all, p) - {date} == RowColumn(rest, p);
    }
  }

  lemma AggregateOne(cells: map<Cell, Totals>, models: map<string, Totals>, cell: Cell, usage: Totals)
    requires AggregatesModels(cells, models) && cell !in cells
    ensures AggregatesModels(cells[cell := usage], Bump(models, cell.1, usage))
  {
    var more, bumped := cells[cell := usage], Bump(models, cell.1, usage);
    forall model
      ensures model in bumped <==> exists c :: c in more && c.1 == model
    {
      assert cell in more;
      if c :| c in cells && c.1 == model {
        assert c in more;
      }
    }
    forall model | model in bumped
      ensures SumsTo(RowsFor(more, model), bumped[model])
    {
      forall p: Part
        ensures PartOf(bumped[model], p) == Sum(Column(RowsFor(more, model), p))
      {
        assert Column(more, p) == Raise(Column(cells, p), cell, PartOf(usage, p));
        RaiseFor(Column(cells, p), cell, PartOf(usage, p), model);
        ColumnFor(more, model, p);
        ColumnFor(cells, model, p);
        PartOfAdd(RowOf(models, model), usage, p);
        if model !in models {
          assert RowsFor(cells, model).Keys == {};
          EmptyColumn(Column(RowsFor(cells, model), p));
        }
      }
    }
  }

  method AggregateUsageModels(cells: map<Cell, Totals>) returns (models: map<string, Totals>)
    ensures AggregatesModels(cells, models)
  {
    models := map[];
    var pending := cells.Keys;
    assert cells.Keys - pending == {} && Only(cells, {}) == map[];
    while pending != {}
      invariant pending <= cells.Keys
      invariant AggregatesModels(Only(cells, cells.Keys - pending), models)
      decreases pending
    {
      ghost var some := SomeMember(pending);
      var cell :| cell in pending;
      AggregateOne(Only(cells, cells.Keys - pending), models, cell, cells[cell]);
      models := Bump(models, cell.1, cells[cell]);
      assert Only(cells, cells.Keys - (pending - {cell})) == Only(cells, cells.Keys - pending)[cell := cells[cell]];
      pending := pending - {cell};
    }
    assert cells.Keys - pending == cells.Keys && Only(cells, cells.Keys) == cells;
  }

  method MergeDayRows(cached: map<Date, Row>, scanned: map<Date, Row>, today: Date) returns (days: map<Date, Row>)
    ensures days == MergedDays(cached, scanned, today)
  {
    var rows := (cached - scanned.Keys) + scanned;
    days := map date | date in rows && Retained(date, today) :: rows[date];
  }

  method MergeDayModelRows(cached: map<Cell, Totals>, scanned: map<Cell, Totals>, dates: set<Date>, today: Date)
    returns (dayModels: map<Cell, Totals>)
    ensures dayModels == MergedDayModels(cached, scanned, dates, today)
  {
    var rows := map cell | cell in cached && cell.0 !in dates :: cached[cell];
    rows := rows + scanned;
    dayModels := map cell | cell in rows && Retained(cell.0, today) :: rows[cell];
  }

  method MergeShortRows(cached: map<int, Row>, scanned: map<int, Row>, retained: set<int>) returns (shortRows: map<int, Row>)
    ensures shortRows == MergedBuckets(cached, scanned, retained)
  {
    var rows := (cached - scanned.Keys) + scanned;
    shortRows := map startAt | startAt in rows && startAt in retained :: rows[startAt];
  }

  method MergeShortModelRows(cached: map<Cell, Totals>, scanned: map<Cell, Totals>, starts: set<int>, retained: set<int>)
    returns (shortModelRows: map<Cell, Totals>)
    ensures shortModelRows == MergedBucketModels(cached, scanned, starts, retained)
  {
    var rows := map cell | cell in cached && !(cell.0 in starts || cell.0 !in retained) :: cached[cell];
    shortModelRows := rows + scanned;
  }

  method MergeLocalUsageSnapshots(previous: Option<Snapshot>, scanned: Snapshot, today: Date, retained: set<int>) returns (merged: Snapshot)
    ensures IsMerge(merged, previous, scanned, today, retained)
  {
    if scanned.byDay == map[] && scanned.byDayModel == map[] && scanned.by3Hour == map[] && scanned.by3HourModel == map[] {
      return scanned;
    }
    var cached := if previous.Some? then previous.value else Nothing;
    var dates, starts := scanned.byDay.Keys, scanned.by3Hour.Keys;

    var days := MergeDayRows(cached.byDay, scanned.byDay, today);
    var dayModels := MergeDayModelRows(cached.byDayModel, scanned.byDayModel, dates, today);
    var shortRows := MergeShortRows(cached.by3Hour, scanned.by3Hour, retained);
    var shortModelRows := MergeShortModelRows(cached.by3HourModel, scanned.by3HourModel, starts, retained);
    var total, eventCount := SumUsageRows(days);
    var byModel := AggregateUsageModels(dayModels);
    merged := Snapshot(days, dayModels, shortRows, shortModelRows, total, byModel, eventCount);
  }
}
