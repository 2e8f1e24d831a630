/** Which rows a scan's tables have, how many observations each counts and when it was last observed
    (src/services/localUsageAnalytics.ts, recordUsage and addAccountTokenUsage). */
module UsageLedgerRows {
  import opened UsageLedger
  import opened UsageTables
  import opened UsageTotals
  import opened Wrappers

  /** The credited observations of a scan. */
  function Attributed(c: Config, observations: seq<Observation>): nat {
    if observations == [] then 0
    else
      var last := observations[|observations| - 1];
      Attributed(c, observations[..|observations| - 1])
      + if c.tracksAccounts && last.account.Some? && last.timestamp >= c.oldestAccountTimestamp && last.quotaWindows != [] then 1 else 0
  }

  /** The scan counts as attributed exactly the observations of some account, recent enough and with a quota window. */
  lemma {:induction false} AttributedIsCounted(c: Config, observations: seq<Observation>)
    ensures RecordAll(c, observations).attributed == Attributed(c, observations)
  {
    if observations == [] {
    } else {
      var n := |observations| - 1;
      AttributedIsCounted(c, observations[..n]);
      RecordsSeparately(c, RecordAll(c, observations[..n]), observations[n]);
    }
  }

  /** Each 3-hour bucket counts exactly its observations. */
  lemma {:induction false} BucketCountsAreSlices(c: Config, observations: seq<Observation>, startAt: int)
    requires startAt in c.buckets
    ensures startAt in RecordAll(c, observations).by3Hour
    ensures RecordAll(c, observations).by3Hour[startAt].eventCount == EventCount(c, observations, Bucket(startAt))
  {
    if observations == [] {
    } else {
      var n := |observations| - 1;
      BucketCountsAreSlices(c, observations[..n], startAt);
      RecordsSeparately(c, RecordAll(c, observations[..n]), observations[n]);
    }
  }

  // ---- The windows of the two account tables ----

  /** How often an observation counts towards a window of the account table, or of the lifetime table. */
  function WindowWeight(c: Config, o: Observation, lifetime: bool, account: string, key: Key): nat {
    Weight(c, o, if lifetime then LifetimeWindow(account, key) else AccountWindow(account, key))
  }

  function TableOf(b: Books, lifetime: bool): AccountTable {
    if lifetime then b.lifetime else b.windows
  }

  /** How many observations count towards a window, and the latest of them. */
  datatype Sighting = Sighting(count: nat, latest: int)

  function SeenAgain(seen: Sighting, n: nat, observedAt: int): Sighting {
    if n == 0 then seen
    else Sighting(seen.count + n, if seen.count > 0 && seen.latest > observedAt then seen.latest else observedAt)
  }

  function Seen(c: Config, observations: seq<Observation>, lifetime: bool, account: string, key: Key): Sighting {
    if observations == [] then Sighting(0, 0)
    else
      var o := observations[|observations| - 1];
      SeenAgain(Seen(c, observations[..|observations| - 1], lifetime, account, key), WindowWeight(c, o, lifetime, account, key), o.timestamp)
  }

  /** A window is listed exactly when something counts towards it; then it is filed under its own key, counts as many and
      shows the latest of them. */
  predicate Files(windows: map<Key, Window>, key: Key, seen: Sighting) {
    if seen.count == 0 then key !in windows
    else
      && key in windows && windows[key].at == key && windows[key].eventCount == seen.count
      && windows[key].lastObservedAt == seen.latest
  }

  lemma CreditWindowFiles(windows: map<Key, Window>, key: Key, o: Observation, k: Key, seen: Sighting)
    requires Files(windows, k, seen)
    ensures Files(CreditWindow(windows, key, o.model, o.usage, o.timestamp), k, SeenAgain(seen, if key == k then 1 else 0, o.timestamp))
  {
  }

  lemma {:induction false} CreditWindowsFiles(windows: map<Key, Window>, keys: seq<Key>, o: Observation, k: Key, seen: Sighting)
    requires Files(windows, k, seen)
    ensures Files(CreditWindows(windows, keys, o.model, o.usage, o.timestamp), k, SeenAgain(seen, multiset(keys)[k], o.timestamp))
  {
    if keys == [] {
    } else {
      var init, last := keys[..|keys| - 1], keys[|keys| - 1];
      CreditWindowsFiles(windows, init, o, k, seen);
      CreditWindowFiles(CreditWindows(windows, init, o.model, o.usage, o.timestamp), last, o, k,
                        SeenAgain(seen, multiset(init)[k], o.timestamp));
      CountSnoc(init, last, k);
      assert keys == init + [last];
    }
  }

  lemma AccountFiles(c: Config, b: Books, o: Observation, lifetime: bool, account: string, key: Key, seen: Sighting)
    requires Files(WindowsOf(TableOf(b, lifetime), account), key, seen)
    ensures Files(WindowsOf(TableOf(RecordAccount(c, b, o), lifetime), account), key,
                  SeenAgain(seen, WindowWeight(c, o, lifetime, account, key), o.timestamp))
  {
    if Credited(c, o) {
      SelectedIsPrimary(o.quotaWindows, key);
      if o.account == Some(account) {
        var keys := if lifetime then [SelectPrimary(o.quotaWindows).value] else o.quotaWindows;
        CreditWindowsFiles(WindowsOf(TableOf(b, lifetime), account), keys, o, key, seen);
      }
    }
  }

  /** In both account tables every window is listed exactly when an observation counts towards it, under its own key, with
      as many events as count and the time of the latest. */
  lemma {:induction false} WindowsAreFiled(c: Config, observations: seq<Observation>, lifetime: bool, account: string, key: Key)
    ensures Files(WindowsOf(TableOf(RecordAll(c, observations), lifetime), account), key, Seen(c, observations, lifetime, account, key))
  {
    if observations == [] {
    } else {
      var n := |observations| - 1;
      WindowsAreFiled(c, observations[..n], lifetime, account, key);
      AccountFiles(c, RecordAll(c, observations[..n]), observations[n], lifetime, account, key,
                   Seen(c, observations[..n], lifetime, account, key));
      RecordsSeparately(c, RecordAll(c, observations[..n]), observations[n]);
    }
  }

  // ---- Model rows ----

  /** A model, day-by-model or bucket-by-model row is listed. */
  predicate Listed(b: Books, slot: Slot)
    requires slot.Model? || slot.DayModel? || slot.BucketModel?
  {
    match slot
    case Model(model) => model in b.byModel
    case DayModel(date, model) => (date, model) in b.byDayModel
    case BucketModel(startAt, model) => (startAt, model) in b.by3HourModel
    case _ => false
  }

  /** Such a row is listed exactly when an observation counts towards it. */
  lemma {:induction false} ListedExactlyWhen(c: Config, observations: seq<Observation>, slot: Slot)
    requires slot.Model? || slot.DayModel? || slot.BucketModel?
    ensures Shaped(c, RecordAll(c, observations))
    ensures Listed(RecordAll(c, observations), slot) <==> EventCount(c, observations, slot) > 0
  {
    if observations == [] {
    } else {
      var n := |observations| - 1;
      ListedExactlyWhen(c, observations[..n], slot);
      RecordKeepsShape(c, RecordAll(c, observations[..n]), observations[n]);
      RecordsSeparately(c, RecordAll(c, observations[..n]), observations[n]);
    }
  }
}
