/** The tables that one scan fills from its recorded observations (src/services/localUsageAnalytics.ts,
    recordUsage, addAccountTokenUsage and the bucket helpers). */
module UsageLedger {
  import opened Wrappers
  import opened UsageTables
  import opened UsageTotals
  import LifetimeWindows

  type Date = int
  type Key = LifetimeWindows.Key
  type Window = LifetimeWindows.Window

  /** What a scan counts: whole local dates, the 3-hour buckets of a shorter recent period, and, when requests were
      attributed to accounts, everything after a retention limit. */
  datatype Config = Config(allowedDates: set<Date>, buckets: set<int>, shortStartAt: int,
                           tracksAccounts: bool, oldestAccountTimestamp: int)

  /** `date` and `bucket` are the local date and the start of the 3-hour bucket of the timestamp. */
  datatype Observation = Observation(usage: Totals, timestamp: int, date: Date, bucket: int, model: string,
                                     account: Option<string>, quotaWindows: seq<Key>)

  type AccountTable = map<string, map<Key, Window>>

  datatype Books = Books(total: Totals, eventCount: nat,
                         byDate: map<Date, Row>, byModel: map<string, Totals>, byDayModel: map<(Date, string), Totals>,
                         by3Hour: map<int, Row>, by3HourModel: map<(int, string), Totals>,
                         attributed: nat, windows: AccountTable, lifetime: AccountTable)

  function Opened(c: Config): Books {
    Books(Zero, 0, map date | date in c.allowedDates :: Row(Zero, 0), map[], map[],
          map bucket | bucket in c.buckets :: Row(Zero, 0), map[], 0, map[], map[])
  }

  // ---- What recording one observation does to the books ----

  function FreshWindow(key: Key, observedAt: int): Window {
    LifetimeWindows.Window(key, Zero, 0, observedAt, map[])
  }

  function CreditWindow(windows: map<Key, Window>, key: Key, model: string, usage: Totals, observedAt: int): map<Key, Window> {
    var w := if key in windows then windows[key] else FreshWindow(key, observedAt);
    windows[key := LifetimeWindows.Window(w.at, Add(w.usage, usage), w.eventCount + 1,
                                          LifetimeWindows.Max(w.lastObservedAt, observedAt), Bump(w.byModel, model, usage))]
  }

  function CreditWindows(windows: map<Key, Window>, keys: seq<Key>, model: string, usage: Totals, observedAt: int): map<Key, Window> {
    if keys == [] then windows
    else CreditWindow(CreditWindows(windows, keys[..|keys| - 1], model, usage, observedAt), keys[|keys| - 1],
                      model, usage, observedAt)
  }

  function WindowsOf(table: AccountTable, account: string): map<Key, Window> {
    if account in table then table[account] else map[]
  }

  function CreditAccount(table: AccountTable, account: string, keys: seq<Key>, o: Observation): AccountTable {
    table[account := CreditWindows(WindowsOf(table, account), keys, o.model, o.usage, o.timestamp)]
  }

  /** The hourly window of a request, or else its first. */
  function SelectPrimary(keys: seq<Key>): Option<Key> {
    if keys == [] then None
    else if exists i :: 0 <= i < |keys| && keys[i].kind == LifetimeWindows.Hourly then Some(FirstHourly(keys))
    else Some(keys[0])
  }

  function FirstHourly(keys: seq<Key>): Key
    requires exists i :: 0 <= i < |keys| && keys[i].kind == LifetimeWindows.Hourly
  {
    if keys[0].kind == LifetimeWindows.Hourly then keys[0] else FirstHourly(keys[1..])
  }

  predicate Credited(c: Config, o: Observation) {
    c.tracksAccounts && o.timestamp >= c.oldestAccountTimestamp && o.account.Some? && o.quotaWindows != []
  }

  predicate Short(c: Config, o: Observation) {
    o.timestamp >= c.shortStartAt
  }

  predicate Local(c: Config, o: Observation) {
    o.date in c.allowedDates
  }

  function RecordAccount(c: Config, b: Books, o: Observation): Books {
    if !Credited(c, o) then b
    else
      var primary := SelectPrimary(o.quotaWindows);
      b.(windows := CreditAccount(b.windows, o.account.value, o.quotaWindows, o),
         lifetime := if primary.Some? then CreditAccount(b.lifetime, o.account.value, [primary.value], o) else b.lifetime,
         attributed := b.attributed + 1)
  }

  function RecordShort(c: Config, b: Books, o: Observation): Books {
    if !Short(c, o) then b
    else
      b.(by3Hour := if o.bucket in b.by3Hour then BumpRow(b.by3Hour, o.bucket, o.usage) else b.by3Hour,
         by3HourModel := Bump(b.by3HourModel, (o.bucket, o.model), o.usage))
  }

  function RecordLocal(c: Config, b: Books, o: Observation): Books {
    if !Local(c, o) || o.date !in b.byDate then b
    else
      b.(total := Add(b.total, o.usage), eventCount := b.eventCount + 1,
         byDate := BumpRow(b.byDate, o.date, o.usage),
         byModel := Bump(b.byModel, o.model, o.usage),
         byDayModel := Bump(b.byDayModel, (o.date, o.model), o.usage))
  }

  function Record(c: Config, b: Books, o: Observation): Books {
    RecordLocal(c, RecordShort(c, RecordAccount(c, b, o), o), o)
  }

  function RecordAll(c: Config, observations: seq<Observation>): Books {
    if observations == [] then Opened(c)
    else Record(c, RecordAll(c, observations[..|observations| - 1]), observations[|observations| - 1])
  }

  // ---- Every row is the sum of its own slice of the observations ----

  datatype Slot =
    | Grand
    | Day(date: Date)
    | Model(model: string)
    | DayModel(date: Date, model: string)
    | Bucket(startAt: int)
    | BucketModel(startAt: int, model: string)
    | AccountWindow(account: string, key: Key)
    | AccountWindowModel(account: string, key: Key, model: string)
    | LifetimeWindow(account: string, key: Key)

  function WindowUsage(windows: map<Key, Window>, key: Key): Totals {
    if key in windows then windows[key].usage else Zero
  }

  function WindowModelUsage(windows: map<Key, Window>, key: Key, model: string): Totals {
    if key in windows then RowOf(windows[key].byModel, model) else Zero
  }

  /** The usage shown in a row; an absent row shows nothing. */
  function Shown(b: Books, slot: Slot): Totals {
    match slot
    case Grand => b.total
    case Day(date) => if date in b.byDate then b.byDate[date].usage else Zero
    case Model(model) => RowOf(b.byModel, model)
    case DayModel(date, model) => RowOf(b.byDayModel, (date, model))
    case Bucket(startAt) => if startAt in b.by3Hour then b.by3Hour[startAt].usage else Zero
    case BucketModel(startAt, model) => RowOf(b.by3HourModel, (startAt, model))
    case AccountWindow(account, key) => WindowUsage(WindowsOf(b.windows, account), key)
    case AccountWindowModel(account, key, model) => WindowModelUsage(WindowsOf(b.windows, account), key, model)
    case LifetimeWindow(account, key) => WindowUsage(WindowsOf(b.lifetime, account), key)
  }

  /** The first hourly window of a request, or else its first window. */
  predicate IsPrimary(keys: seq<Key>, key: Key) {
    exists i :: 0 <= i < |keys| && keys[i] == key
                && if key.kind == LifetimeWindows.Hourly then forall j :: 0 <= j < i ==> keys[j].kind != LifetimeWindows.Hourly
                   else i == 0 && forall j :: 0 <= j < |keys| ==> keys[j].kind != LifetimeWindows.Hourly
  }

  /** Attributed to this account recently enough, in a scan that looks at accounts. */
  predicate CountsFor(c: Config, o: Observation, account: string) {
    c.tracksAccounts && o.account == Some(account) && o.timestamp >= c.oldestAccountTimestamp
  }

  /** How many times an observation counts towards a row. */
  function Weight(c: Config, o: Observation, slot: Slot): nat {
    match slot
    case Grand => if o.date in c.allowedDates then 1 else 0
    case Day(date) => if date in c.allowedDates && o.date == date then 1 else 0
    case Model(model) => if o.date in c.allowedDates && o.model == model then 1 else 0
    case DayModel(date, model) => if date in c.allowedDates && o.date == date && o.model == model then 1 else 0
    case Bucket(startAt) => if startAt in c.buckets && o.timestamp >= c.shortStartAt && o.bucket == startAt then 1 else 0
    case BucketModel(startAt, model) => if o.timestamp >= c.shortStartAt && o.bucket == startAt && o.model == model then 1 else 0
    case AccountWindow(account, key) => if CountsFor(c, o, account) then multiset(o.quotaWindows)[key] else 0
    case AccountWindowModel(account, key, model) =>
      if CountsFor(c, o, account) && o.model == model then multiset(o.quotaWindows)[key] else 0
    case LifetimeWindow(account, key) => if CountsFor(c, o, account) && IsPrimary(o.quotaWindows, key) then 1 else 0
  }

  /** A row after counting usage towards it `n` times. */
  function Counted(shown: Totals, n: nat, usage: Totals): Totals {
    if n == 0 then shown else Add(Counted(shown, n - 1, usage), usage)
  }

  function Slice(c: Config, observations: seq<Observation>, slot: Slot): Totals {
    if observations == [] then Zero
    else
      var last := observations[|observations| - 1];
      Counted(Slice(c, observations[..|observations| - 1], slot), Weight(c, last, slot), last.usage)
  }

  function EventCount(c: Config, observations: seq<Observation>, slot: Slot): nat {
    if observations == [] then 0
    else EventCount(c, observations[..|observations| - 1], slot) + Weight(c, observations[|observations| - 1], slot)
  }

  ghost predicate Shaped(c: Config, b: Books) {
    b.byDate.Keys == c.allowedDates && b.by3Hour.Keys == c.buckets
  }

  lemma CreditWindowAdds(windows: map<Key, Window>, key: Key, model: string, usage: Totals, observedAt: int, k: Key, m: string)
    ensures var credited := CreditWindow(windows, key, model, usage, observedAt);
            && WindowUsage(credited, k)
               == (if key == k then Add(WindowUsage(windows, k), usage) else WindowUsage(windows, k))
            && WindowModelUsage(credited, k, m)
               == (if key == k && model == m then Add(WindowModelUsage(windows, k, m), usage) else WindowModelUsage(windows, k, m))
  {
  }

  lemma CountSnoc(keys: seq<Key>, last: Key, k: Key)
    ensures multiset(keys + [last])[k] == multiset(keys)[k] + if last == k then 1 else 0
  {
  }

  lemma {:induction false} CreditWindowsAdds(windows: map<Key, Window>, keys: seq<Key>, model: string, usage: Totals,
                                             observedAt: int, k: Key)
    ensures WindowUsage(CreditWindows(windows, keys, model, usage, observedAt), k)
         == Counted(WindowUsage(windows, k), multiset(keys)[k], usage)
  {
    if keys == [] {
    } else {
      var init, last := keys[..|keys| - 1], keys[|keys| - 1];
      CreditWindowsAdds(windows, init, model, usage, observedAt, k);
      CreditWindowAdds(CreditWindows(windows, init, model, usage, observedAt), last, model, usage, observedAt, k, model);
      CountSnoc(init, last, k);
      assert keys == init + [last];
    }
  }

  lemma {:induction false} CreditWindowModelsAdds(windows: map<Key, Window>, keys: seq<Key>, model: string, usage: Totals,
                                                  observedAt: int, k: Key, m: string)
    ensures WindowModelUsage(CreditWindows(windows, keys, model, usage, observedAt), k, m)
         == Counted(WindowModelUsage(windows, k, m), if m == model then multiset(keys)[k] else 0, usage)
  {
    if keys == [] {
    } else {
      var init, last := keys[..|keys| - 1], keys[|keys| - 1];
      CreditWindowModelsAdds(windows, init, model, usage, observedAt, k, m);
      CreditWindowAdds(CreditWindows(windows, init, model, usage, observedAt), last, model, usage, observedAt, k, m);
      CountSnoc(init, last, k);
      assert keys == init + [last];
    }
  }

  lemma CreditAccountAdds(table: AccountTable, keys: seq<Key>, o: Observation, to: string, account: string, key: Key, model: string)
    ensures var credited := CreditAccount(table, to, keys, o);
            var n := if to == account then multiset(keys)[key] else 0;
            && WindowUsage(WindowsOf(credited, account), key) == Counted(WindowUsage(WindowsOf(table, account), key), n, o.usage)
            && WindowModelUsage(WindowsOf(credited, account), key, model)
               == Counted(WindowModelUsage(WindowsOf(table, account), key, model), if o.model == model then n else 0, o.usage)
  {
    if to == account {
      CreditWindowsAdds(WindowsOf(table, account), keys, o.model, o.usage, o.timestamp, key);
      CreditWindowModelsAdds(WindowsOf(table, account), keys, o.model, o.usage, o.timestamp, key, model);
    }
  }

  lemma {:induction false} FirstHourlyIs(keys: seq<Key>) returns (i: nat)
    requires exists i :: 0 <= i < |keys| && keys[i].kind == LifetimeWindows.Hourly
    ensures i < |keys| && FirstHourly(keys) == keys[i] && keys[i].kind == LifetimeWindows.Hourly
    ensures forall j :: 0 <= j < i ==> keys[j].kind != LifetimeWindows.Hourly
    decreases |keys|
  {
    if keys[0].kind == LifetimeWindows.Hourly {
      i := 0;
    } else {
      var k :| 0 <= k < |keys| && keys[k].kind == LifetimeWindows.Hourly;
      assert keys[1..][k - 1] == keys[k];
      i := FirstHourlyIs(keys[1..]);
      i := i + 1;
    }
  }

  /** The window selected for the lifetime table is the primary one, and there is exactly one unless there is none at all. */
  lemma SelectedIsPrimary(keys: seq<Key>, key: Key)
    ensures SelectPrimary(keys) == Some(key) <==> IsPrimary(keys, key)
    ensures SelectPrimary(keys) == None <==> keys == []
  {
    if exists i :: 0 <= i < |keys| && keys[i].kind == LifetimeWindows.Hourly {
      var first := FirstHourlyIs(keys);
      assert IsPrimary(keys, keys[first]);
    } else if keys != [] {
      assert IsPrimary(keys, keys[0]);
    }
  }

  lemma AccountAdds(c: Config, b: Books, o: Observation, slot: Slot)
    requires slot.AccountWindow? || slot.AccountWindowModel? || slot.LifetimeWindow?
    ensures Shown(RecordAccount(c, b, o), slot) == Counted(Shown(b, slot), Weight(c, o, slot), o.usage)
  {
    if Credited(c, o) {
      SelectedIsPrimary(o.quotaWindows, slot.key);
      var to, primary := o.account.value, SelectPrimary(o.quotaWindows).value;
      var model := if slot.AccountWindowModel? then slot.model else "";
      CreditAccountAdds(b.windows, o.quotaWindows, o, to, slot.account, slot.key, model);
      CreditAccountAdds(b.lifetime, [primary], o, to, slot.account, slot.key, model);
    }
  }

  lemma CountedOnce(shown: Totals, usage: Totals)
    ensures Counted(shown, 1, usage) == Add(shown, usage)
  {
  }

  lemma ShortAdds(c: Config, b: Books, o: Observation, slot: Slot)
    requires Shaped(c, b)
    requires slot.Bucket? || slot.BucketModel?
    ensures Shown(RecordShort(c, b, o), slot) == Counted(Shown(b, slot), Weight(c, o, slot), o.usage)
  {
    CountedOnce(Shown(b, slot), o.usage);
  }

  lemma LocalAdds(c: Config, b: Books, o: Observation, slot: Slot)
    requires Shaped(c, b)
    requires slot.Grand? || slot.Day? || slot.Model? || slot.DayModel?
    ensures Shown(RecordLocal(c, b, o), slot) == Counted(Shown(b, slot), Weight(c, o, slot), o.usage)
  {
    CountedOnce(Shown(b, slot), o.usage);
  }

  lemma AccountOnly(c: Config, b: Books, o: Observation)
    ensures var r := RecordAccount(c, b, o); r == b.(windows := r.windows, lifetime := r.lifetime, attributed := r.attributed)
  {
  }

  lemma ShortOnly(c: Config, b: Books, o: Observation)
    ensures var r := RecordShort(c, b, o); r == b.(by3Hour := r.by3Hour, by3HourModel := r.by3HourModel)
  {
  }

  lemma LocalOnly(c: Config, b: Books, o: Observation)
    ensures var r := RecordLocal(c, b, o);
            r == b.(total := r.total, eventCount := r.eventCount, byDate := r.byDate, byModel := r.byModel, byDayModel := r.byDayModel)
  {
  }

  /** The three kinds of tables are recorded independently. */
  lemma RecordsSeparately(c: Config, b: Books, o: Observation)
    ensures var b1, b3 := RecordAccount(c, b, o), Record(c, b, o);
            var b2 := RecordShort(c, b1, o);
            && b1 == b.(windows := b3.windows, lifetime := b3.lifetime, attributed := b3.attributed)
            && b2 == b1.(by3Hour := b3.by3Hour, by3HourModel := b3.by3HourModel)
            && b3 == b2.(total := b3.total, eventCount := b3.eventCount, byDate := b3.byDate,
                         byModel := b3.byModel, byDayModel := b3.byDayModel)
  {
    AccountOnly(c, b, o);
    ShortOnly(c, RecordAccount(c, b, o), o);
    LocalOnly(c, RecordShort(c, RecordAccount(c, b, o), o), o);
  }

  lemma RecordKeepsShape(c: Config, b: Books, o: Observation)
    requires Shaped(c, b)
    ensures Shaped(c, RecordAccount(c, b, o)) && Shaped(c, RecordShort(c, RecordAccount(c, b, o), o)) && Shaped(c, Record(c, b, o))
  {
    AccountOnly(c, b, o);
    ShortKeepsShape(c, RecordAccount(c, b, o), o);
    LocalKeepsShape(c, RecordShort(c, RecordAccount(c, b, o), o), o);
  }

  lemma ShortKeepsShape(c: Config, b: Books, o: Observation)
    requires Shaped(c, b)
    ensures Shaped(c, RecordShort(c, b, o))
  {
  }

  lemma LocalKeepsShape(c: Config, b: Books, o: Observation)
    requires Shaped(c, b)
    ensures Shaped(c, RecordLocal(c, b, o))
  {
  }

  /** Recording an observation adds it to each row it belongs to, as often as it belongs there, and to no other. */
  lemma RecordAdds(c: Config, b: Books, o: Observation, slot: Slot)
    requires Shaped(c, b)
    ensures Shown(Record(c, b, o), slot) == Counted(Shown(b, slot), Weight(c, o, slot), o.usage)
  {
    RecordsSeparately(c, b, o);
    RecordKeepsShape(c, b, o);
    var b1 := RecordAccount(c, b, o);
    var b2 := RecordShort(c, b1, o);
    var b3 := Record(c, b, o);
    if slot.AccountWindow? || slot.AccountWindowModel? || slot.LifetimeWindow? {
      AccountAdds(c, b, o, slot);
      assert Shown(b3, slot) == Shown(b1, slot);
    } else if slot.Bucket? || slot.BucketModel? {
      ShortAdds(c, b1, o, slot);
      assert Shown(b1, slot) == Shown(b, slot) && Shown(b3, slot) == Shown(b2, slot);
    } else {
      LocalAdds(c, b2, o, slot);
      assert Shown(b2, slot) == Shown(b, slot);
    }
  }

  /** After any observations, every row of every table shows exactly the sum of its slice of them. */
  lemma {:induction false} RowsAreSlices(c: Config, observations: seq<Observation>, slot: Slot)
    ensures Shaped(c, RecordAll(c, observations))
    ensures Shown(RecordAll(c, observations), slot) == Slice(c, observations, slot)
  {
    if observations == [] {
    } else {
      var before := observations[..|observations| - 1];
      RowsAreSlices(c, before, slot);
      RecordKeepsShape(c, RecordAll(c, before), observations[|observations| - 1]);
      RecordAdds(c, RecordAll(c, before), observations[|observations| - 1], slot);
    }
  }

  lemma {:induction false} CountsAreSlices(c: Config, observations: seq<Observation>, date: Date)
    ensures Shaped(c, RecordAll(c, observations))
    ensures RecordAll(c, observations).eventCount == EventCount(c, observations, Grand)
    ensures date in c.allowedDates ==>
              RecordAll(c, observations).byDate[date].eventCount == EventCount(c, observations, Day(date))
  {
    if observations == [] {
    } else {
      var before := observations[..|observations| - 1];
      CountsAreSlices(c, before, date);
      RecordKeepsShape(c, RecordAll(c, before), observations[|observations| - 1]);
      RecordsSeparately(c, RecordAll(c, before), observations[|observations| - 1]);
    }
  }

  function WindowCount(windows: map<Key, Window>, key: Key): nat {
    if key in windows then windows[key].eventCount else 0
  }

  lemma {:induction false} CreditWindowsCounts(windows: map<Key, Window>, keys: seq<Key>, model: string, usage: Totals,
                                               observedAt: int, k: Key)
    ensures WindowCount(CreditWindows(windows, keys, model, usage, observedAt), k)
         == WindowCount(windows, k) + multiset(keys)[k]
  {
    if keys == [] {
    } else {
      var init, last := keys[..|keys| - 1], keys[|keys| - 1];
      CreditWindowsCounts(windows, init, model, usage, observedAt, k);
      CountSnoc(init, last, k);
      assert keys == init + [last];
    }
  }

  /** Each account window counts exactly the observations credited to it. */
  lemma {:induction false} WindowCountsAreSlices(c: Config, observations: seq<Observation>, account: string, key: Key)
    ensures WindowCount(WindowsOf(RecordAll(c, observations).windows, account), key)
         == EventCount(c, observations, AccountWindow(account, key))
  {
    if observations == [] {
    } else {
      var before, o := observations[..|observations| - 1], observations[|observations| - 1];
      var b := RecordAll(c, before);
      WindowCountsAreSlices(c, before, account, key);
      RecordsSeparately(c, b, o);
      CreditWindowsCounts(WindowsOf(b.windows, account), o.quotaWindows, o.model, o.usage, o.timestamp, key);
    }
  }

  // ---- The tables always agree with each other ----

  ghost predicate LocalBalance(total: Totals, byDate: map<Date, Row>, byModel: map<string, Totals>,
                               byDayModel: map<Cell, Totals>, p: Part) {
    && PartOf(total, p) == Sum(Column(byDayModel, p))
    && RowsMatchCells(RowColumn(byDate, p), Column(byDayModel, p))
    && ModelsMatchCells(Column(byModel, p), Column(byDayModel, p))
  }

  /** Bucket rows exist only for the configured buckets; bucket-by-model rows are made for any bucket. */
  ghost predicate BucketBalance(by3Hour: map<int, Row>, by3HourModel: map<Cell, Totals>, p: Part) {
    forall startAt | startAt in by3Hour ::
      PartOf(by3Hour[startAt].usage, p) == Sum(RowsAt(Column(by3HourModel, p), startAt))
  }

  ghost predicate AccountBalance(table: AccountTable, p: Part) {
    forall account, key | account in table && key in table[account] ::
      PartOf(table[account][key].usage, p) == Sum(Column(table[account][key].byModel, p))
  }

  ghost predicate Balanced(b: Books, p: Part) {
    && LocalBalance(b.total, b.byDate, b.byModel, b.byDayModel, p)
    && BucketBalance(b.by3Hour, b.by3HourModel, p)
    && AccountBalance(b.windows, p) && AccountBalance(b.lifetime, p)
    && b.eventCount == Sum(Counts(b.byDate))
  }

  lemma LocalCountRises(byDate: map<Date, Row>, o: Observation)
    requires o.date in byDate
    ensures Sum(Counts(BumpRow(byDate, o.date, o.usage))) == Sum(Counts(byDate)) + 1
  {
    BumpRowColumn(byDate, o.date, o.usage, Total);
    SumRaise(Counts(byDate), o.date, 1);
  }

  lemma RecordLocalBalances(c: Config, b: Books, o: Observation, p: Part)
    requires LocalBalance(b.total, b.byDate, b.byModel, b.byDayModel, p) && b.eventCount == Sum(Counts(b.byDate))
    ensures var r := RecordLocal(c, b, o);
            LocalBalance(r.total, r.byDate, r.byModel, r.byDayModel, p) && r.eventCount == Sum(Counts(r.byDate))
  {
    if Local(c, o) && o.date in b.byDate {
      var n, cell := PartOf(o.usage, p), (o.date, o.model);
      PartOfAdd(b.total, o.usage, p);
      BumpRowColumn(b.byDate, o.date, o.usage, p);
      BumpColumn(b.byModel, o.model, o.usage, p);
      BumpColumn(b.byDayModel, cell, o.usage, p);
      SumRaise(Column(b.byDayModel, p), cell, n);
      LocalCountRises(b.byDate, o);
      RaiseKeepsRows(RowColumn(b.byDate, p), Column(b.byDayModel, p), cell, n);
      RaiseKeepsModels(Column(b.byModel, p), Column(b.byDayModel, p), cell, n);
    }
  }

  lemma RecordShortBalances(c: Config, b: Books, o: Observation, p: Part)
    requires BucketBalance(b.by3Hour, b.by3HourModel, p)
    ensures BucketBalance(RecordShort(c, b, o).by3Hour, RecordShort(c, b, o).by3HourModel, p)
  {
    if Short(c, o) {
      var r, cell := RecordShort(c, b, o), (o.bucket, o.model);
      BumpColumn(b.by3HourModel, cell, o.usage, p);
      forall startAt | startAt in r.by3Hour
        ensures PartOf(r.by3Hour[startAt].usage, p) == Sum(RowsAt(Column(r.by3HourModel, p), startAt))
      {
        RaiseAt(Column(b.by3HourModel, p), cell, PartOf(o.usage, p), startAt);
        PartOfAdd(b.by3Hour[startAt].usage, o.usage, p);
      }
    }
  }

  ghost predicate WindowsBalance(windows: map<Key, Window>, p: Part) {
    forall key | key in windows :: PartOf(windows[key].usage, p) == Sum(Column(windows[key].byModel, p))
  }

  lemma CreditWindowBalances(windows: map<Key, Window>, key: Key, model: string, usage: Totals, observedAt: int, p: Part)
    requires WindowsBalance(windows, p)
    ensures WindowsBalance(CreditWindow(windows, key, model, usage, observedAt), p)
  {
    var w := if key in windows then windows[key] else FreshWindow(key, observedAt);
    if key !in windows {
      EmptyColumn(Column(w.byModel, p));
    }
    PartOfAdd(w.usage, usage, p);
    BumpColumn(w.byModel, model, usage, p);
    SumRaise(Column(w.byModel, p), model, PartOf(usage, p));
  }

  lemma {:induction false} CreditWindowsBalances(windows: map<Key, Window>, keys: seq<Key>, model: string, usage: Totals,
                                                 observedAt: int, p: Part)
    requires WindowsBalance(windows, p)
    ensures WindowsBalance(CreditWindows(windows, keys, model, usage, observedAt), p)
  {
    if keys == [] {
    } else {
      var init := keys[..|keys| - 1];
      CreditWindowsBalances(windows, init, model, usage, observedAt, p);
      CreditWindowBalances(CreditWindows(windows, init, model, usage, observedAt), keys[|keys| - 1], model, usage, observedAt, p);
    }
  }

  lemma CreditAccountBalances(table: AccountTable, account: string, keys: seq<Key>, o: Observation, p: Part)
    requires AccountBalance(table, p)
    ensures AccountBalance(CreditAccount(table, account, keys, o), p)
  {
    CreditWindowsBalances(WindowsOf(table, account), keys, o.model, o.usage, o.timestamp, p);
  }

  /** Recording any observation keeps every table in agreement with the others, in every component. */
  lemma RecordKeepsBalance(c: Config, b: Books, o: Observation, p: Part)
    requires Balanced(b, p)
    ensures Balanced(Record(c, b, o), p)
  {
    var b1 := RecordAccount(c, b, o);
    var b2 := RecordShort(c, b1, o);
    RecordsSeparately(c, b, o);
    if Credited(c, o) {
      CreditAccountBalances(b.windows, o.account.value, o.quotaWindows, o, p);
      CreditAccountBalances(b.lifetime, o.account.value, [SelectPrimary(o.quotaWindows).value], o, p);
    }
    RecordShortBalances(c, b1, o, p);
    RecordLocalBalances(c, b2, o, p);
  }

  lemma OpenedIsBalanced(c: Config, p: Part)
    ensures Balanced(Opened(c), p)
  {
    EmptyColumn(Column<Cell>(map[], p));
    forall at: int
      ensures Sum(RowsAt(Column<Cell>(map[], p), at)) == 0
    {
      EmptyColumn(RowsAt(Column<Cell>(map[], p), at));
    }
    ZeroCounts(Counts(Opened(c).byDate));
  }

  lemma {:induction false} ZeroCounts(counts: map<Date, nat>)
    requires forall date | date in counts :: counts[date] == 0
    ensures Sum(counts) == 0
    decreases counts.Keys
  {
    if counts.Keys == {} {
      EmptyColumn(counts);
    } else {
      var date := SomeKey(counts);
      ZeroCounts(counts - {date});
      SumTakeOut(counts, date);
    }
  }

  /** After any observations the grand total is the sum of the day rows, of the model rows and of the day-by-model
      rows; each day and model row is the sum of its own cells; event counts agree; and each account window is the sum
      of its model rows. */
  lemma {:induction false} BooksBalance(c: Config, observations: seq<Observation>, p: Part)
    ensures Balanced(RecordAll(c, observations), p)
    ensures var b := RecordAll(c, observations);
            PartOf(b.total, p) == Sum(RowColumn(b.byDate, p)) == Sum(Column(b.byModel, p)) == Sum(Column(b.byDayModel, p))
  {
    if observations == [] {
      OpenedIsBalanced(c, p);
    } else {
      var before := observations[..|observations| - 1];
      BooksBalance(c, before, p);
      RecordKeepsBalance(c, RecordAll(c, before), observations[|observations| - 1], p);
    }
    var b := RecordAll(c, observations);
    RowsAndCellsHaveOneSum(RowColumn(b.byDate, p), Column(b.byDayModel, p));
    ModelsAndCellsHaveOneSum(Column(b.byModel, p), Column(b.byDayModel, p));
  }

  // ---- The tables as the scan updates them ----

  lemma CreditWindowsSnoc(windows: map<Key, Window>, keys: seq<Key>, n: nat, o: Observation)
    requires n < |keys|
    ensures CreditWindows(windows, keys[..n + 1], o.model, o.usage, o.timestamp)
         == CreditWindow(CreditWindows(windows, keys[..n], o.model, o.usage, o.timestamp), keys[n], o.model, o.usage, o.timestamp)
  {
    assert keys[..n + 1][..n] == keys[..n];
  }

  method AddAccountTokenUsage(table: AccountTable, account: string, keys: seq<Key>, o: Observation) returns (credited: AccountTable)
    ensures credited == CreditAccount(table, account, keys, o)
  {
    var windows := if account in table then table[account] else map[];
    for i := 0 to |keys|
      invariant windows == CreditWindows(WindowsOf(table, account), keys[..i], o.model, o.usage, o.timestamp)
    {
      CreditWindowsSnoc(WindowsOf(table, account), keys, i, o);
      var key := keys[i];
      if key !in windows {
        windows := windows[key := FreshWindow(key, o.timestamp)];
      }
      var target := windows[key];
      target := target.(usage := Add(target.usage, o.usage), byModel := Bump(target.byModel, o.model, o.usage));
      target := target.(eventCount := target.eventCount + 1,
                        lastObservedAt := LifetimeWindows.Max(target.lastObservedAt, o.timestamp));
      windows := windows[key := target];
    }
    assert keys[..|keys|] == keys;
    credited := table[account := windows];
  }

  class Ledger {
    const c: Config
    var total: Totals
    var eventCount: nat
    var byDate: map<Date, Row>
    var byModel: map<string, Totals>
    var byDayModel: map<Cell, Totals>
    var by3Hour: map<int, Row>
    var by3HourModel: map<Cell, Totals>
    var attributed: nat
    var windows: AccountTable
    var lifetime: AccountTable

    constructor (c: Config)
      ensures this.c == c && Contents() == Opened(c)
    {
      this.c := c;
      total, eventCount, attributed := Zero, 0, 0;
      byDate := map date | date in c.allowedDates :: Row(Zero, 0);
      by3Hour := map bucket | bucket in c.buckets :: Row(Zero, 0);
      byModel, byDayModel, by3HourModel, windows, lifetime := map[], map[], map[], map[], map[];
    }

    function Contents(): Books
      reads this
    {
      Books(total, eventCount, byDate, byModel, byDayModel, by3Hour, by3HourModel, attributed, windows, lifetime)
    }

    method RecordAccountUsage(o: Observation)
      modifies this
      ensures Contents() == RecordAccount(c, old(Contents()), o)
    {
      if c.tracksAccounts && o.timestamp >= c.oldestAccountTimestamp && o.account.Some? && |o.quotaWindows| > 0 {
        windows := AddAccountTokenUsage(windows, o.account.value, o.quotaWindows, o);
        var primary := SelectPrimary(o.quotaWindows);
        if primary.Some? {
          lifetime := AddAccountTokenUsage(lifetime, o.account.value, [primary.value], o);
        }
        attributed := attributed + 1;
      }
    }

    method RecordShortUsage(o: Observation)
      modifies this
      ensures Contents() == RecordShort(c, old(Contents()), o)
    {
      if o.timestamp >= c.shortStartAt {
        if o.bucket in by3Hour {
          by3Hour := BumpRow(by3Hour, o.bucket, o.usage);
        }
        by3HourModel := Bump(by3HourModel, (o.bucket, o.model), o.usage);
      }
    }

    method RecordLocalUsage(o: Observation)
      modifies this
      ensures Contents() == RecordLocal(c, old(Contents()), o)
    {
      if o.date !in c.allowedDates || o.date !in byDate {
        return;
      }
      total := Add(total, o.usage);
      byDate := BumpRow(byDate, o.date, o.usage);
      byModel := Bump(byModel, o.model, o.usage);
      byDayModel := Bump(byDayModel, (o.date, o.model), o.usage);
      eventCount := eventCount + 1;
    }

    method RecordUsage(o: Observation)
      modifies this
      ensures Contents() == Record(c, old(Contents()), o)
    {
      RecordAccountUsage(o);
      RecordShortUsage(o);
      RecordLocalUsage(o);
    }
  }

  /** The books of a whole scan balance, and each of their rows is its slice of what was recorded. */
  method Scan(c: Config, observations: seq<Observation>) returns (b: Books)
    ensures b == RecordAll(c, observations)
    ensures forall p: Part :: Balanced(b, p)
    ensures forall slot: Slot :: Shown(b, slot) == Slice(c, observations, slot)
  {
    var ledger := new Ledger(c);
    for i := 0 to |observations|
      invariant fresh(ledger) && ledger.c == c && ledger.Contents() == RecordAll(c, observations[..i])
    {
      assert observations[..i + 1][..i] == observations[..i];
      ledger.RecordUsage(observations[i]);
    }
    assert observations[..|observations|] == observations;
    b := ledger.Contents();
    forall p: Part
      ensures Balanced(b, p)
    {
      BooksBalance(c, observations, p);
    }
    forall slot: Slot
      ensures Shown(b, slot) == Slice(c, observations, slot)
    {
      RowsAreSlices(c, observations, slot);
    }
  }
}
