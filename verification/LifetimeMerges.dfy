/** What one merge of a lifetime window keeps and what the account's aggregate adds up
    (src/services/localUsageAnalytics.ts, mergeAccountUsageWindow and aggregateAccountLifetimeUsage). */
module LifetimeMerges {
  import opened LifetimeWindows
  import opened UsageTables
  import opened UsageTotals
  import opened Wrappers

  /** Reset times of one kind at most a minute apart are the same window. */
  lemma NearExactlyWhen(a: Key, b: Key)
    ensures Near(a, b) <==> a.kind == b.kind && a.resetAt <= b.resetAt + 60 && b.resetAt <= a.resetAt + 60
  {
  }

  /** The same window, except for when it was last observed. */
  predicate SameCounts(a: Window, b: Window) {
    a.at == b.at && a.usage == b.usage && a.eventCount == b.eventCount && a.byModel == b.byModel
  }

  predicate LaterOf(at: int, a: int, b: int) {
    at >= a && at >= b && (at == a || at == b)
  }

  /** A candidate near an entry keeps the entry's key and place. The larger of the two windows stays, the candidate when
      they are equal, and it is marked as observed when the later of them was. Nothing else changes. */
  lemma NearMergeOutcome(entries: seq<Entry>, candidate: Window, i: nat)
    requires DistinctKeys(entries) && i < |entries| && Near(entries[i].window.at, candidate.at)
    requires forall j :: 0 <= j < i ==> !Near(entries[j].window.at, candidate.at)
    ensures var (after, existing) := (MergeOne(entries, candidate), entries[i].window);
            && |after| == |entries| && after[i].key == entries[i].key
            && (forall j :: 0 <= j < |entries| && j != i ==> after[j] == entries[j])
            && SameCounts(after[i].window, if candidate.usage.total < existing.usage.total then existing else candidate)
            && LaterOf(after[i].window.lastObservedAt, existing.lastObservedAt, candidate.lastObservedAt)
  {
    assert FindNear(entries, candidate.at) == i;
    assert FindKey(entries, entries[i].key) == i;
  }

  /** A candidate that is near no entry is added under its own key, in place of an entry that happens to have it. */
  lemma NewMergeOutcome(entries: seq<Entry>, candidate: Window)
    requires forall j :: 0 <= j < |entries| ==> !Near(entries[j].window.at, candidate.at)
    ensures (forall j :: 0 <= j < |entries| ==> entries[j].key != candidate.at) ==>
              MergeOne(entries, candidate) == entries + [Entry(candidate.at, candidate)]
    ensures forall i :: 0 <= i < |entries| && DistinctKeys(entries) && entries[i].key == candidate.at ==>
              MergeOne(entries, candidate) == entries[i := Entry(candidate.at, candidate)]
  {
    assert FindNear(entries, candidate.at) == |entries|;
    forall i | 0 <= i < |entries| && DistinctKeys(entries) && entries[i].key == candidate.at
      ensures FindKey(entries, candidate.at) == i
    {
      var k := FindKey(entries, candidate.at);
      assert k <= i;
    }
  }

  /** The window is one of these, except for when it was last observed. */
  predicate IsOneOf(window: Window, windows: seq<Window>) {
    exists i :: 0 <= i < |windows| && SameCounts(window, windows[i])
  }

  lemma IsOneOfMore(window: Window, windows: seq<Window>, last: Window)
    ensures IsOneOf(window, windows) || SameCounts(window, last) ==> IsOneOf(window, windows + [last])
  {
    assert (windows + [last])[|windows|] == last;
    if IsOneOf(window, windows) {
      var i :| 0 <= i < |windows| && SameCounts(window, windows[i]);
      assert (windows + [last])[i] == windows[i];
    }
  }

  lemma HeldBefore(entries: seq<Entry>, candidate: Window, i: nat)
    requires i < |MergeOne(entries, candidate)|
    ensures var w := MergeOne(entries, candidate)[i].window;
            SameCounts(w, candidate) || exists j :: 0 <= j < |entries| && SameCounts(w, entries[j].window)
  {
    var near := FindNear(entries, candidate.at);
    if near < |entries| {
      assert SameCounts(Select(entries[near].window, candidate), candidate)
        || SameCounts(Select(entries[near].window, candidate), entries[near].window);
    }
    assert i < |entries| ==> SameCounts(entries[i].window, entries[i].window);
  }

  /** Clusters or not: every window that is held was merged, and only its last observation may come from another one. */
  lemma {:induction false} HeldWasMerged(windows: seq<Window>, i: nat)
    requires i < |MergeAll(windows)|
    ensures IsOneOf(MergeAll(windows)[i].window, windows)
    decreases |windows|
  {
    var n := |windows| - 1;
    var before, held := MergeAll(windows[..n]), MergeAll(windows)[i].window;
    HeldBefore(before, windows[n], i);
    if !SameCounts(held, windows[n]) {
      var j :| 0 <= j < |before| && SameCounts(held, before[j].window);
      HeldWasMerged(windows[..n], j);
    }
    IsOneOfMore(held, windows[..n], windows[n]);
    assert windows == windows[..n] + [windows[n]];
  }

  // ---- The aggregate ----

  function UsagesOf(windows: seq<Window>): seq<Totals> {
    seq(|windows|, i requires 0 <= i < |windows| => windows[i].usage)
  }

  /** The aggregate adds up all windows ... */
  lemma {:induction false} AggregateAddsUsage(windows: seq<Window>)
    ensures AggregateOf(windows).usage == SumSeq(UsagesOf(windows))
  {
    if windows == [] {
    } else {
      var n := |windows| - 1;
      AggregateAddsUsage(windows[..n]);
      assert UsagesOf(windows) == UsagesOf(windows[..n]) + [windows[n].usage];
      SumSeqSnoc(UsagesOf(windows[..n]), windows[n].usage);
    }
  }

  /** One component of a model's row; a model that is not listed has 0. */
  function RowPart(rows: map<string, Totals>, model: string, p: Part): nat {
    if model in rows then PartOf(rows[model], p) else 0
  }

  function SumOfRowParts(windows: seq<Window>, model: string, p: Part): nat {
    if windows == [] then 0
    else SumOfRowParts(windows[..|windows| - 1], model, p) + RowPart(windows[|windows| - 1].byModel, model, p)
  }

  lemma AddedRow(a: map<string, Totals>, b: map<string, Totals>, model: string, p: Part)
    ensures RowPart(AddTables(a, b), model, p) == RowPart(a, model, p) + RowPart(b, model, p)
    ensures model in AddTables(a, b) <==> model in a || model in b
  {
    if model in AddTables(a, b) {
      PartOfAdd(RowOf(a, model), RowOf(b, model), p);
    }
  }

  predicate ListsModel(windows: seq<Window>, model: string) {
    exists i :: 0 <= i < |windows| && model in windows[i].byModel
  }

  lemma ListsMore(windows: seq<Window>, last: Window, model: string)
    ensures ListsModel(windows + [last], model) <==> ListsModel(windows, model) || model in last.byModel
  {
    assert (windows + [last])[|windows|] == last;
    if ListsModel(windows, model) {
      var i :| 0 <= i < |windows| && model in windows[i].byModel;
      assert (windows + [last])[i] == windows[i];
    }
  }

  /** ... model by model as well, and lists exactly the models they list. */
  lemma {:induction false} AggregateAddsModels(windows: seq<Window>, model: string, p: Part)
    ensures RowPart(AggregateOf(windows).byModel, model, p) == SumOfRowParts(windows, model, p)
    ensures model in AggregateOf(windows).byModel <==> ListsModel(windows, model)
  {
    if windows == [] {
    } else {
      var n := |windows| - 1;
      AggregateAddsModels(windows[..n], model, p);
      AddedRow(AggregateOf(windows[..n]).byModel, windows[n].byModel, model, p);
      ListsMore(windows[..n], windows[n], model);
      assert windows == windows[..n] + [windows[n]];
    }
  }

  /** It was last observed when the latest of its windows was, and at time 0 when all of them are older. */
  lemma {:induction false} AggregateSeesLatest(windows: seq<Window>)
    ensures AggregateOf(windows).lastObservedAt >= 0
    ensures forall i :: 0 <= i < |windows| ==> AggregateOf(windows).lastObservedAt >= windows[i].lastObservedAt
    ensures AggregateOf(windows).lastObservedAt == 0
         || exists i :: 0 <= i < |windows| && AggregateOf(windows).lastObservedAt == windows[i].lastObservedAt
  {
    if windows == [] {
    } else {
      AggregateSeesLatest(windows[..|windows| - 1]);
    }
  }
}
