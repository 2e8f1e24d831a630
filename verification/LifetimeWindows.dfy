/** Lifetime usage windows of one account (src/services/localUsageAnalytics.ts, mergeAccountUsageWindow,
    mergeAccountTokenUsageSnapshots and aggregateAccountLifetimeUsage). */
module LifetimeWindows {
  import opened UsageTables
  import opened UsageTotals
  import opened Wrappers

  const DRIFT_SECONDS := 60

  datatype Kind = Hourly | Weekly

  /** A window kind and its reset time; also the text `kind:resetAt` that keys the map of windows. */
  datatype Key = Key(kind: Kind, resetAt: int)

  datatype Window = Window(at: Key, usage: Totals, eventCount: nat, lastObservedAt: int, byModel: map<string, Totals>)

  /** An entry of an insertion-ordered map. */
  datatype Entry = Entry(key: Key, window: Window)

  predicate Near(a: Key, b: Key) {
    a.kind == b.kind && -DRIFT_SECONDS <= a.resetAt - b.resetAt <= DRIFT_SECONDS
  }

  function Max(a: int, b: int): int {
    if a >= b then a else b
  }

  function FindNear(entries: seq<Entry>, at: Key): (i: nat)
    ensures i <= |entries|
    ensures i < |entries| ==> Near(entries[i].window.at, at)
    ensures forall j | 0 <= j < i :: !Near(entries[j].window.at, at)
  {
    if entries == [] || Near(entries[0].window.at, at) then 0 else FindNear(entries[1..], at) + 1
  }

  function FindKey(entries: seq<Entry>, key: Key): (i: nat)
    ensures i <= |entries|
    ensures i < |entries| ==> entries[i].key == key
    ensures forall j | 0 <= j < i :: entries[j].key != key
  {
    if entries == [] || entries[0].key == key then 0 else FindKey(entries[1..], key) + 1
  }

  /** Map.set: an existing key keeps its place. */
  function Put(entries: seq<Entry>, key: Key, window: Window): seq<Entry> {
    var i := FindKey(entries, key);
    if i < |entries| then entries[i := Entry(key, window)] else entries + [Entry(key, window)]
  }

  function Select(existing: Window, candidate: Window): Window {
    (if candidate.usage.total >= existing.usage.total then candidate else existing)
    .(lastObservedAt := Max(existing.lastObservedAt, candidate.lastObservedAt))
  }

  function MergeOne(entries: seq<Entry>, candidate: Window): seq<Entry> {
    var i := FindNear(entries, candidate.at);
    if i == |entries| then Put(entries, candidate.at, candidate)
    else Put(entries, entries[i].key, Select(entries[i].window, candidate))
  }

  function MergeAll(windows: seq<Window>): seq<Entry> {
    if windows == [] then [] else MergeOne(MergeAll(windows[..|windows| - 1]), windows[|windows| - 1])
  }

  function Total(entries: seq<Entry>): nat {
    if entries == [] then 0 else Total(entries[..|entries| - 1]) + entries[|entries| - 1].window.usage.total
  }

  lemma MergeSnoc(windows: seq<Window>, n: nat)
    requires n < |windows|
    ensures MergeAll(windows[..n + 1]) == MergeOne(MergeAll(windows[..n]), windows[n])
  {
    assert windows[..n + 1][..n] == windows[..n];
  }

  lemma MergeAllSnoc(before: seq<Window>, last: Window, all: seq<Window>)
    requires all == before + [last]
    ensures MergeAll(all) == MergeOne(MergeAll(before), last)
  {
    assert all[..|all| - 1] == before;
  }

  // ---- What one merge does to the account total, clusters or not ----

  predicate DistinctKeys(entries: seq<Entry>) {
    forall i, j :: 0 <= i < j < |entries| ==> entries[i].key != entries[j].key
  }

  lemma {:induction false} TotalUpdate(entries: seq<Entry>, i: nat, entry: Entry)
    requires i < |entries|
    ensures Total(entries[i := entry]) == Total(entries) - entries[i].window.usage.total + entry.window.usage.total
  {
    var n := |entries| - 1;
    if i == n {
      assert entries[i := entry][..n] == entries[..n];
    } else {
      TotalUpdate(entries[..n], i, entry);
      assert entries[i := entry][..n] == entries[..n][i := entry];
    }
  }

  lemma TotalAppend(entries: seq<Entry>, entry: Entry)
    ensures Total(entries + [entry]) == Total(entries) + entry.window.usage.total
  {
    assert (entries + [entry])[..|entries|] == entries;
  }

  /** A candidate overwrites a larger entry exactly when no entry lies near it and its own key is taken by one. */
  predicate Overwrites(entries: seq<Entry>, candidate: Window) {
    FindNear(entries, candidate.at) == |entries|
    && exists i :: 0 <= i < |entries| && entries[i].key == candidate.at
                   && entries[i].window.usage.total > candidate.usage.total
  }

  lemma LowersExactlyWhen(entries: seq<Entry>, candidate: Window)
    requires DistinctKeys(entries)
    ensures DistinctKeys(MergeOne(entries, candidate))
    ensures Total(MergeOne(entries, candidate)) < Total(entries) <==> Overwrites(entries, candidate)
  {
    var near, key := FindNear(entries, candidate.at), FindKey(entries, candidate.at);
    if near < |entries| {
      assert FindKey(entries, entries[near].key) == near;
      TotalUpdate(entries, near, Entry(entries[near].key, Select(entries[near].window, candidate)));
    } else if key < |entries| {
      TotalUpdate(entries, key, Entry(candidate.at, candidate));
    } else {
      TotalAppend(entries, Entry(candidate.at, candidate));
    }
  }

  // ---- Clusters ----

  /** Nearness is transitive: reset times of one kind form clusters no wider than the tolerance and further apart. */
  ghost predicate Clustered(keys: set<Key>) {
    forall a, b, c :: a in keys && b in keys && c in keys && Near(a, b) && Near(b, c) ==> Near(a, c)
  }

  ghost predicate AllIn(windows: seq<Window>, keys: set<Key>) {
    forall i | 0 <= i < |windows| :: windows[i].at in keys
  }

  /** Entries belong to the cluster they are keyed by, and no two share a cluster. */
  ghost predicate OnePerCluster(entries: seq<Entry>, keys: set<Key>) {
    && (forall i | 0 <= i < |entries| ::
          entries[i].key in keys && entries[i].window.at in keys && Near(entries[i].key, entries[i].window.at))
    && forall i, j :: 0 <= i < j < |entries| ==> !Near(entries[i].window.at, entries[j].window.at)
  }

  /** The total held for the cluster of a reset time, or -1. */
  function Held(entries: seq<Entry>, at: Key): int {
    var i := FindNear(entries, at);
    if i < |entries| then entries[i].window.usage.total else -1
  }

  /** The largest total among the windows near a reset time, or -1. */
  function Largest(windows: seq<Window>, at: Key): int {
    if windows == [] then -1
    else
      var rest, last := Largest(windows[..|windows| - 1], at), windows[|windows| - 1];
      if Near(last.at, at) then Max(rest, last.usage.total) else rest
  }

  lemma HeldByNear(entries: seq<Entry>, keys: set<Key>, i: nat, at: Key)
    requires Clustered(keys) && OnePerCluster(entries, keys) && at in keys
    requires i < |entries| && Near(entries[i].window.at, at)
    ensures FindNear(entries, at) == i && Held(entries, at) == entries[i].window.usage.total
  {
    var j := FindNear(entries, at);
    assert j <= i;
    if j < i {
      assert Near(entries[j].window.at, at) && Near(at, entries[i].window.at);
    }
  }

  lemma ClustersHaveDistinctKeys(entries: seq<Entry>, keys: set<Key>)
    requires Clustered(keys) && OnePerCluster(entries, keys)
    ensures DistinctKeys(entries)
  {
    forall i, j | 0 <= i < j < |entries|
      ensures entries[i].key != entries[j].key
    {
      assert Near(entries[i].window.at, entries[i].key) && Near(entries[j].key, entries[j].window.at);
    }
  }

  lemma PutNear(entries: seq<Entry>, keys: set<Key>, i: nat, window: Window)
    requires Clustered(keys) && OnePerCluster(entries, keys) && window.at in keys
    requires i < |entries| && Near(entries[i].window.at, window.at)
    ensures Put(entries, entries[i].key, window) == entries[i := Entry(entries[i].key, window)]
    ensures OnePerCluster(Put(entries, entries[i].key, window), keys)
  {
    ClustersHaveDistinctKeys(entries, keys);
    assert FindKey(entries, entries[i].key) == i;
    forall j | 0 <= j < |entries| && j != i
      ensures !Near(entries[j].window.at, window.at) && !Near(window.at, entries[j].window.at)
    {
      if Near(entries[j].window.at, window.at) {
        HeldByNear(entries, keys, i, window.at);
        HeldByNear(entries, keys, j, window.at);
      }
    }
  }

  lemma PutNew(entries: seq<Entry>, keys: set<Key>, window: Window)
    requires Clustered(keys) && OnePerCluster(entries, keys) && window.at in keys
    requires FindNear(entries, window.at) == |entries|
    ensures Put(entries, window.at, window) == entries + [Entry(window.at, window)]
    ensures OnePerCluster(Put(entries, window.at, window), keys)
  {
    forall j | 0 <= j < |entries|
      ensures entries[j].key != window.at
    {
      assert Near(entries[j].key, entries[j].window.at);
    }
  }

  lemma MergeKeepsClusters(entries: seq<Entry>, keys: set<Key>, candidate: Window)
    requires Clustered(keys) && OnePerCluster(entries, keys) && candidate.at in keys
    ensures OnePerCluster(MergeOne(entries, candidate), keys)
    ensures !Overwrites(entries, candidate)
  {
    var i := FindNear(entries, candidate.at);
    if i == |entries| {
      PutNew(entries, keys, candidate);
      forall j | 0 <= j < |entries|
        ensures entries[j].key != candidate.at
      {
        assert Near(entries[j].key, entries[j].window.at);
      }
    } else {
      PutNear(entries, keys, i, Select(entries[i].window, candidate));
    }
  }

  lemma NoneNearCluster(entries: seq<Entry>, keys: set<Key>, far: Key, at: Key)
    requires Clustered(keys) && OnePerCluster(entries, keys) && far in keys && at in keys && Near(far, at)
    requires FindNear(entries, far) == |entries|
    ensures Held(entries, at) == -1 && FindNear(entries, at) == |entries|
  {
    assert Near(at, far);
    forall j | 0 <= j < |entries|
      ensures !Near(entries[j].window.at, at)
    {
    }
    NotHeld(entries, at);
  }

  /** One merge raises what is held for the candidate's cluster, and only that. */
  lemma MergeHolds(entries: seq<Entry>, keys: set<Key>, candidate: Window, at: Key)
    requires Clustered(keys) && OnePerCluster(entries, keys) && candidate.at in keys && at in keys
    ensures Held(MergeOne(entries, candidate), at)
         == if Near(candidate.at, at) then Max(Held(entries, at), candidate.usage.total) else Held(entries, at)
  {
    var i, merged := FindNear(entries, candidate.at), MergeOne(entries, candidate);
    MergeKeepsClusters(entries, keys, candidate);
    if i == |entries| {
      PutNew(entries, keys, candidate);
    } else {
      PutNear(entries, keys, i, Select(entries[i].window, candidate));
    }
    var j := FindNear(entries, at);
    if Near(candidate.at, at) {
      assert Near(merged[i].window.at, candidate.at);
      HeldByNear(merged, keys, i, at);
      if i < |entries| {
        assert Near(entries[i].window.at, candidate.at);
        HeldByNear(entries, keys, i, at);
      } else {
        NoneNearCluster(entries, keys, candidate.at, at);
      }
    } else if j < |entries| {
      assert i == j ==> Near(candidate.at, entries[i].window.at);
      HeldByNear(merged, keys, j, at);
    } else {
      assert i < |entries| ==> Near(merged[i].window.at, candidate.at) && Near(candidate.at, merged[i].window.at);
      NotHeld(merged, at);
    }
  }

  lemma NotHeld(entries: seq<Entry>, at: Key)
    requires forall j | 0 <= j < |entries| :: !Near(entries[j].window.at, at)
    ensures Held(entries, at) == -1
  {
  }

  /** With clusters, merging keeps one entry per cluster, holding the largest total seen there. */
  lemma {:induction false} MergedHoldsLargest(windows: seq<Window>, keys: set<Key>)
    requires Clustered(keys) && AllIn(windows, keys)
    ensures OnePerCluster(MergeAll(windows), keys)
    ensures forall at <- keys :: Held(MergeAll(windows), at) == Largest(windows, at)
  {
    if windows == [] {
    } else {
      var before, last := windows[..|windows| - 1], windows[|windows| - 1];
      MergedHoldsLargest(before, keys);
      MergeKeepsClusters(MergeAll(before), keys, last);
      forall at <- keys
        ensures Held(MergeAll(windows), at) == Largest(windows, at)
      {
        MergeHolds(MergeAll(before), keys, last, at);
      }
    }
  }

  /** When the held window of a cluster was last observed. */
  function LastSeen(entries: seq<Entry>, at: Key): Option<int> {
    var i := FindNear(entries, at);
    if i < |entries| then Some(entries[i].window.lastObservedAt) else None
  }

  function Later(seen: Option<int>, observedAt: int): Option<int> {
    Some(if seen.Some? then Max(seen.value, observedAt) else observedAt)
  }

  /** The latest observation among the windows near a reset time. */
  function Latest(windows: seq<Window>, at: Key): Option<int> {
    if windows == [] then None
    else
      var rest, last := Latest(windows[..|windows| - 1], at), windows[|windows| - 1];
      if Near(last.at, at) then Later(rest, last.lastObservedAt) else rest
  }

  lemma MergeSees(entries: seq<Entry>, keys: set<Key>, candidate: Window, at: Key)
    requires Clustered(keys) && OnePerCluster(entries, keys) && candidate.at in keys && at in keys
    ensures LastSeen(MergeOne(entries, candidate), at)
         == if Near(candidate.at, at) then Later(LastSeen(entries, at), candidate.lastObservedAt) else LastSeen(entries, at)
  {
    var i, merged := FindNear(entries, candidate.at), MergeOne(entries, candidate);
    MergeKeepsClusters(entries, keys, candidate);
    if i == |entries| {
      PutNew(entries, keys, candidate);
    } else {
      PutNear(entries, keys, i, Select(entries[i].window, candidate));
    }
    var j := FindNear(entries, at);
    if Near(candidate.at, at) {
      assert Near(merged[i].window.at, candidate.at);
      HeldByNear(merged, keys, i, at);
      if i < |entries| {
        assert Near(entries[i].window.at, candidate.at);
        HeldByNear(entries, keys, i, at);
      } else {
        NoneNearCluster(entries, keys, candidate.at, at);
      }
    } else if j < |entries| {
      assert i == j ==> Near(candidate.at, entries[i].window.at);
      HeldByNear(merged, keys, j, at);
    } else {
      assert i < |entries| ==> Near(merged[i].window.at, candidate.at) && Near(candidate.at, merged[i].window.at);
      NotHeld(merged, at);
    }
  }

  /** With clusters, the held window says when its cluster was last observed at all, whichever window was selected. */
  lemma {:induction false} MergedSeesLatest(windows: seq<Window>, keys: set<Key>, at: Key)
    requires Clustered(keys) && AllIn(windows, keys) && at in keys
    ensures LastSeen(MergeAll(windows), at) == Latest(windows, at)
  {
    if windows == [] {
    } else {
      var before, last := windows[..|windows| - 1], windows[|windows| - 1];
      MergedSeesLatest(before, keys, at);
      MergedHoldsLargest(before, keys);
      MergeSees(MergeAll(before), keys, last, at);
    }
  }

  function Without(entries: seq<Entry>, i: nat): seq<Entry>
    requires i < |entries|
  {
    entries[..i] + entries[i + 1..]
  }

  lemma {:induction false} TotalWithout(entries: seq<Entry>, i: nat)
    requires i < |entries|
    ensures Total(entries) == Total(Without(entries, i)) + entries[i].window.usage.total
  {
    var n := |entries| - 1;
    if i == n {
      assert Without(entries, i) == entries[..n];
    } else {
      TotalWithout(entries[..n], i);
      assert Without(entries, i)[..n - 1] == Without(entries[..n], i);
    }
  }

  lemma WithoutAt(entries: seq<Entry>, i: nat)
    requires i < |entries|
    ensures forall k | 0 <= k < |entries| - 1 :: Without(entries, i)[k] == entries[if k < i then k else k + 1]
  {
  }

  lemma HeldWithout(entries: seq<Entry>, keys: set<Key>, i: nat, at: Key)
    requires Clustered(keys) && OnePerCluster(entries, keys) && i < |entries| && at in keys
    ensures OnePerCluster(Without(entries, i), keys)
    ensures Held(Without(entries, i), at) == if Near(entries[i].window.at, at) then -1 else Held(entries, at)
  {
    var rest, j := Without(entries, i), FindNear(entries, at);
    WithoutAt(entries, i);
    if Near(entries[i].window.at, at) {
      forall k | 0 <= k < |rest|
        ensures !Near(rest[k].window.at, at)
      {
        if Near(rest[k].window.at, at) {
          HeldByNear(entries, keys, i, at);
          HeldByNear(entries, keys, if k < i then k else k + 1, at);
        }
      }
    } else if j < |entries| {
      var k := if j < i then j else j - 1;
      assert rest[k] == entries[j];
      HeldByNear(rest, keys, k, at);
    }
  }

  lemma NonEmptyHolds(entries: seq<Entry>, keys: set<Key>)
    requires Clustered(keys) && OnePerCluster(entries, keys)
    ensures entries != [] ==> exists at <- keys :: Held(entries, at) != -1
  {
    if entries != [] {
      HeldByNear(entries, keys, 0, entries[0].window.at);
    }
  }

  /** What is held per cluster decides the account total and the number of windows. */
  lemma {:induction false} HeldDecidesTotal(a: seq<Entry>, b: seq<Entry>, keys: set<Key>)
    requires Clustered(keys) && OnePerCluster(a, keys) && OnePerCluster(b, keys)
    requires forall at <- keys :: Held(a, at) == Held(b, at)
    ensures Total(a) == Total(b) && |a| == |b|
    decreases |a|
  {
    if a == [] {
      NonEmptyHolds(b, keys);
    } else {
      var at := a[0].window.at;
      HeldByNear(a, keys, 0, at);
      var j := FindNear(b, at);
      TotalWithout(a, 0);
      TotalWithout(b, j);
      forall other <- keys
        ensures OnePerCluster(Without(a, 0), keys) && OnePerCluster(Without(b, j), keys)
        ensures Held(Without(a, 0), other) == Held(Without(b, j), other)
      {
        HeldWithout(a, keys, 0, other);
        HeldWithout(b, keys, j, other);
        assert Near(b[j].window.at, other) <==> Near(at, other);
      }
      HeldDecidesTotal(Without(a, 0), Without(b, j), keys);
    }
  }

  lemma {:induction false} LargestIsLargest(windows: seq<Window>, at: Key)
    ensures forall i | 0 <= i < |windows| && Near(windows[i].at, at) :: windows[i].usage.total <= Largest(windows, at)
    ensures Largest(windows, at) == -1
         || exists i | 0 <= i < |windows| :: Near(windows[i].at, at) && windows[i].usage.total == Largest(windows, at)
    ensures Largest(windows, at) >= -1
  {
    if windows == [] {
    } else {
      LargestIsLargest(windows[..|windows| - 1], at);
    }
  }

  lemma LargestOfMore(a: seq<Window>, b: seq<Window>, at: Key)
    requires forall w <- a :: w in b
    ensures Largest(a, at) <= Largest(b, at)
  {
    LargestIsLargest(a, at);
    LargestIsLargest(b, at);
    forall i | 0 <= i < |a| && Near(a[i].at, at)
      ensures a[i].usage.total <= Largest(b, at)
    {
      assert a[i] in b;
    }
  }

  /** The account total depends on which windows were merged, not on their order or repetition. */
  lemma OrderDoesNotMatter(a: seq<Window>, b: seq<Window>, keys: set<Key>)
    requires Clustered(keys) && AllIn(a, keys) && AllIn(b, keys)
    requires forall w :: w in a <==> w in b
    ensures Total(MergeAll(a)) == Total(MergeAll(b)) && |MergeAll(a)| == |MergeAll(b)|
  {
    MergedHoldsLargest(a, keys);
    MergedHoldsLargest(b, keys);
    forall at <- keys
      ensures Held(MergeAll(a), at) == Held(MergeAll(b), at)
    {
      LargestOfMore(a, b, at);
      LargestOfMore(b, a, at);
    }
    HeldDecidesTotal(MergeAll(a), MergeAll(b), keys);
  }

  function Windows(entries: seq<Entry>): seq<Window> {
    seq(|entries|, i requires 0 <= i < |entries| => entries[i].window)
  }

  lemma {:induction false} LargestConcat(a: seq<Window>, b: seq<Window>, at: Key)
    ensures Largest(a + b, at) == Max(Largest(a, at), Largest(b, at))
  {
    LargestIsLargest(a, at);
    if b == [] {
      assert a + b == a;
    } else {
      LargestConcat(a, b[..|b| - 1], at);
      assert (a + b)[..|a + b| - 1] == a + b[..|b| - 1];
    }
  }

  lemma LargestOfHeld(entries: seq<Entry>, stored: seq<Window>, keys: set<Key>, at: Key)
    requires Clustered(keys) && OnePerCluster(entries, keys) && at in keys
    requires forall w :: w in stored <==> w in Windows(entries)
    ensures Largest(stored, at) == Held(entries, at)
  {
    var windows, j := Windows(entries), FindNear(entries, at);
    LargestIsLargest(stored, at);
    forall i | 0 <= i < |stored| && Near(stored[i].at, at)
      ensures stored[i].usage.total == Held(entries, at)
    {
      assert stored[i] in windows;
      var k :| 0 <= k < |entries| && entries[k].window == stored[i];
      HeldByNear(entries, keys, k, at);
    }
    if j < |entries| {
      assert windows[j] in stored;
    }
  }

  /** Merging windows that were already merged changes neither the account total nor the number of windows.
      `stored` is what was saved of the earlier merge, in any order. */
  lemma MergingAgainChangesNothing(windows: seq<Window>, stored: seq<Window>, again: seq<Window>, keys: set<Key>)
    requires Clustered(keys) && AllIn(windows, keys)
    requires forall w :: w in stored <==> w in Windows(MergeAll(windows))
    requires forall w <- again :: w in windows
    ensures Total(MergeAll(stored + again)) == Total(MergeAll(windows))
    ensures |MergeAll(stored + again)| == |MergeAll(windows)|
  {
    var entries := MergeAll(windows);
    MergedHoldsLargest(windows, keys);
    forall i | 0 <= i < |stored + again|
      ensures (stored + again)[i].at in keys
    {
      if i < |stored| {
        assert stored[i] in Windows(entries);
      } else {
        assert again[i - |stored|] in windows;
      }
    }
    MergedHoldsLargest(stored + again, keys);
    forall at <- keys
      ensures Held(MergeAll(stored + again), at) == Held(entries, at)
    {
      LargestConcat(stored, again, at);
      LargestOfHeld(entries, stored, keys, at);
      LargestOfMore(again, windows, at);
    }
    HeldDecidesTotal(MergeAll(stored + again), entries, keys);
  }

  lemma StepNeverLowers(windows: seq<Window>, n: nat, keys: set<Key>)
    requires Clustered(keys) && AllIn(windows, keys) && n < |windows|
    ensures Total(MergeAll(windows[..n + 1])) >= Total(MergeAll(windows[..n]))
  {
    var entries := MergeAll(windows[..n]);
    MergedHoldsLargest(windows[..n], keys);
    ClustersHaveDistinctKeys(entries, keys);
    MergeKeepsClusters(entries, keys, windows[n]);
    LowersExactlyWhen(entries, windows[n]);
    MergeSnoc(windows, n);
  }

  lemma {:induction false} LongerIsNoLower(windows: seq<Window>, m: nat, n: nat, keys: set<Key>)
    requires Clustered(keys) && AllIn(windows, keys) && m <= n <= |windows|
    ensures Total(MergeAll(windows[..n])) >= Total(MergeAll(windows[..m]))
  {
    if m < n {
      LongerIsNoLower(windows, m, n - 1, keys);
      StepNeverLowers(windows, n - 1, keys);
    }
  }

  /** With clusters, merging more windows never lowers the account total. */
  lemma NeverLowers(stored: seq<Window>, scanned: seq<Window>, keys: set<Key>)
    requires Clustered(keys) && AllIn(stored, keys) && AllIn(scanned, keys)
    ensures Total(MergeAll(stored + scanned)) >= Total(MergeAll(stored))
  {
    var all := stored + scanned;
    LongerIsNoLower(all, |stored|, |all|, keys);
    assert all[..|stored|] == stored && all[..|all|] == all;
  }

  /** Without clusters the hypothesis is needed: after drifting by one minute twice, an entry is overwritten
      by a smaller window that reuses its key. */
  lemma DriftOverwrites() returns (windows: seq<Window>, last: Window)
    ensures Total(MergeAll(windows + [last])) < Total(MergeAll(windows))
  {
    var ten := Zero.(total := 10);
    var first := Window(Key(Hourly, 0), ten, 1, 0, map[]);
    var second := first.(at := Key(Hourly, 60));
    var third := first.(at := Key(Hourly, 120));
    last := first.(usage := Zero.(total := 1));
    windows := [first, second, third];
    var key := Key(Hourly, 0);
    MergeAllSnoc([], first, [first]);
    assert MergeAll([first]) == [Entry(key, first)];
    MergeAllSnoc([first], second, [first, second]);
    assert MergeAll([first, second]) == [Entry(key, second)];
    MergeAllSnoc([first, second], third, windows);
    var entries := MergeAll(windows);
    assert entries == [Entry(key, third)];
    assert entries[0].key == last.at && entries[0].window.usage.total > last.usage.total;
    LowersExactlyWhen(entries, last);
    MergeAllSnoc(windows, last, windows + [last]);
  }

  // ---- The account's aggregate over its windows ----

  datatype Aggregate = Aggregate(usage: Totals, byModel: map<string, Totals>, windowCount: nat, lastObservedAt: int)

  function AggregateOf(windows: seq<Window>): Aggregate {
    if windows == [] then Aggregate(Zero, map[], 0, 0)
    else
      var rest, last := AggregateOf(windows[..|windows| - 1]), windows[|windows| - 1];
      Aggregate(Add(rest.usage, last.usage), AddTables(rest.byModel, last.byModel), rest.windowCount + 1,
                Max(rest.lastObservedAt, last.lastObservedAt))
  }

  /** A window's usage is the sum of its model rows. */
  ghost predicate Consistent(window: Window) {
    forall p: Part :: PartOf(window.usage, p) == Sum(Column(window.byModel, p))
  }

  ghost predicate AllConsistent(entries: seq<Entry>) {
    forall i | 0 <= i < |entries| :: Consistent(entries[i].window)
  }

  /** Merging keeps every window equal to the sum of its model rows, clusters or not. */
  lemma {:induction false} MergedWindowsAreConsistent(windows: seq<Window>)
    requires forall i | 0 <= i < |windows| :: Consistent(windows[i])
    ensures AllConsistent(MergeAll(windows))
  {
    if windows == [] {
    } else {
      MergedWindowsAreConsistent(windows[..|windows| - 1]);
    }
  }

  /** The aggregate of consistent windows equals the sum of its own model rows. */
  lemma {:induction false} AggregateIsConsistent(windows: seq<Window>)
    requires forall i | 0 <= i < |windows| :: Consistent(windows[i])
    ensures forall p: Part :: PartOf(AggregateOf(windows).usage, p) == Sum(Column(AggregateOf(windows).byModel, p))
    ensures AggregateOf(windows).windowCount == |windows|
  {
    forall p: Part
      ensures PartOf(AggregateOf(windows).usage, p) == Sum(Column(AggregateOf(windows).byModel, p))
    {
      if windows == [] {
        EmptyColumn(Column<string>(map[], p));
      } else {
        var before, last := windows[..|windows| - 1], windows[|windows| - 1];
        AggregateIsConsistent(before);
        SumOfAddedTables(AggregateOf(before).byModel, last.byModel, p);
        PartOfAdd(AggregateOf(before).usage, last.usage, p);
      }
    }
    if windows != [] {
      AggregateIsConsistent(windows[..|windows| - 1]);
    }
  }

  lemma {:induction false} AggregateHasTotal(entries: seq<Entry>)
    ensures AggregateOf(Windows(entries)).usage.total == Total(entries)
  {
    if entries == [] {
    } else {
      var before := entries[..|entries| - 1];
      AggregateHasTotal(before);
      assert Windows(entries)[..|entries| - 1] == Windows(before);
    }
  }

  function Restrict(rows: map<string, Totals>, models: set<string>): map<string, Totals> {
    map model | model in rows.Keys * models :: rows[model]
  }

  lemma AddModelRow(buckets: map<string, Totals>, rows: map<string, Totals>, done: set<string>, model: string)
    requires model in rows && model !in done
    ensures var added := AddTables(buckets, Restrict(rows, done));
            added[model := Add(RowOf(added, model), rows[model])] == AddTables(buckets, Restrict(rows, done + {model}))
  {
  }

  method AddModelRows(buckets: map<string, Totals>, rows: map<string, Totals>) returns (added: map<string, Totals>)
    ensures added == AddTables(buckets, rows)
  {
    added := buckets;
    var pending := rows.Keys;
    assert AddTables(buckets, map[]) == buckets && Restrict(rows, {}) == map[];
    while pending != {}
      invariant pending <= rows.Keys
      invariant added == AddTables(buckets, Restrict(rows, rows.Keys - pending))
      decreases pending
    {
      var model :| model in pending;
      AddModelRow(buckets, rows, rows.Keys - pending, model);
      assert rows.Keys - (pending - {model}) == rows.Keys - pending + {model};
      added := added[model := Add(RowOf(added, model), rows[model])];
      pending := pending - {model};
    }
    assert Restrict(rows, rows.Keys) == rows;
  }

  method AggregateLifetime(windows: seq<Window>) returns (aggregate: Aggregate)
    ensures aggregate == AggregateOf(windows)
  {
    var usage, byModel, lastObservedAt := Zero, map[], 0;
    for i := 0 to |windows|
      invariant Aggregate(usage, byModel, i, lastObservedAt) == AggregateOf(windows[..i])
    {
      assert windows[..i + 1][..i] == windows[..i];
      usage := Add(usage, windows[i].usage);
      lastObservedAt := Max(lastObservedAt, windows[i].lastObservedAt);
      byModel := AddModelRows(byModel, windows[i].byModel);
    }
    assert windows[..|windows|] == windows;
    aggregate := Aggregate(usage, byModel, |windows|, lastObservedAt);
  }

  // ---- The account's map of windows ----

  class AccountWindows {
    var entries: seq<Entry>

    constructor ()
      ensures entries == []
    {
      entries := [];
    }

    /** Map.set on an insertion-ordered map. */
    method Set(key: Key, window: Window)
      modifies this
      ensures entries == Put(old(entries), key, window)
    {
      var i := 0;
      while i < |entries| && entries[i].key != key
        invariant i <= FindKey(entries, key)
      {
        i := i + 1;
      }
      if i < |entries| {
        entries := entries[i := Entry(key, window)];
      } else {
        entries := entries + [Entry(key, window)];
      }
    }

    method Merge(candidate: Window)
      modifies this
      ensures entries == MergeOne(old(entries), candidate)
    {
      var i := 0;
      while i < |entries| && !Near(entries[i].window.at, candidate.at)
        invariant i <= FindNear(entries, candidate.at)
      {
        i := i + 1;
      }
      if i == |entries| {
        Set(candidate.at, candidate);
        return;
      }
      var existing := entries[i].window;
      var selected := if candidate.usage.total >= existing.usage.total then candidate else existing;
      Set(entries[i].key, selected.(lastObservedAt := Max(existing.lastObservedAt, candidate.lastObservedAt)));
    }
  }

  function MergeOnto(entries: seq<Entry>, windows: seq<Window>): seq<Entry>
    decreases |windows|
  {
    if windows == [] then entries else MergeOnto(MergeOne(entries, windows[0]), windows[1..])
  }

  lemma {:induction false} MergeOntoAll(before: seq<Window>, windows: seq<Window>, all: seq<Window>)
    requires all == before + windows
    ensures MergeOnto(MergeAll(before), windows) == MergeAll(all)
    decreases |windows|
  {
    if windows == [] {
      assert all == before;
    } else {
      var more := before + [windows[0]];
      MergeAllSnoc(before, windows[0], more);
      assert all == more + windows[1..];
      MergeOntoAll(more, windows[1..], all);
    }
  }

  method MergeEach(account: AccountWindows, windows: seq<Window>)
    modifies account
    ensures account.entries == MergeOnto(old(account.entries), windows)
  {
    for i := 0 to |windows|
      invariant MergeOnto(account.entries, windows[i..]) == MergeOnto(old(account.entries), windows)
    {
      assert windows[i..][1..] == windows[i + 1..];
      account.Merge(windows[i]);
    }
  }

  /** Merging a scan into the saved windows starts from an empty map each time. */
  method MergeSnapshots(previous: seq<Window>, scanned: seq<Window>) returns (entries: seq<Entry>)
    ensures entries == MergeAll(previous + scanned)
  {
    var account := new AccountWindows();
    MergeEach(account, previous);
    MergeOntoAll([], previous, previous);
    MergeEach(account, scanned);
    MergeOntoAll(previous, scanned, previous + scanned);
    entries := account.entries;
  }
}
