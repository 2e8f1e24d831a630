/** From session files to the books: each file is classified, and what it keeps is recorded
    (src/services/localUsageAnalytics.ts, scanLocalUsageSessionsInternal as a whole). */
module UsageScan {
  import opened TokenHighWater
  import opened UsageTotals
  import opened Wrappers
  import Classifier = SubagentClassifier
  import Ledger = UsageLedger

  /** The time of the scan, the calendar, and the account to which a file's request at some time is attributed. */
  datatype Setting = Setting(config: Ledger.Config, now: int, dateOf: int -> int, bucketOf: int -> int,
                             accountOf: (nat, int) -> Option<string>)

  /** Neither in the future nor outside every scanned period. */
  predicate Relevant(s: Setting, timestamp: int) {
    && timestamp <= s.now
    && (|| s.dateOf(timestamp) in s.config.allowedDates || timestamp >= s.config.shortStartAt
        || (s.config.tracksAccounts && timestamp >= s.config.oldestAccountTimestamp))
  }

  function RelevantTo(s: Setting): int -> bool {
    timestamp => Relevant(s, timestamp)
  }

  function Attributed(s: Setting, file: nat, o: Classifier.Observation): Ledger.Observation {
    Ledger.Observation(o.usage, o.timestamp, s.dateOf(o.timestamp), s.bucketOf(o.timestamp), o.model,
                       s.accountOf(file, o.timestamp), o.quotaWindows)
  }

  function AttributeAll(s: Setting, file: nat, kept: seq<Classifier.Observation>): seq<Ledger.Observation> {
    seq(|kept|, i requires 0 <= i < |kept| => Attributed(s, file, kept[i]))
  }

  function MarksOf(s: Setting, events: seq<Classifier.Event>): seq<Classifier.Mark> {
    Classifier.ReadAll(events, RelevantTo(s)).marks
  }

  /** A session file as far as it could be read. */
  datatype SessionFile = SessionFile(events: seq<Classifier.Event>, complete: bool)

  function KeptOf(s: Setting, file: SessionFile): seq<Classifier.Observation> {
    Classifier.KeptOfFile(MarksOf(s, file.events), file.complete)
  }

  /** What a scan records, file by file. */
  function Recorded(s: Setting, files: seq<SessionFile>): seq<Ledger.Observation> {
    if files == [] then []
    else
      var n := |files| - 1;
      Recorded(s, files[..n]) + AttributeAll(s, n, KeptOf(s, files[n]))
  }

  lemma RecordSnoc(c: Ledger.Config, observations: seq<Ledger.Observation>, o: Ledger.Observation)
    ensures Ledger.RecordAll(c, observations + [o]) == Ledger.Record(c, Ledger.RecordAll(c, observations), o)
  {
    assert (observations + [o])[..|observations|] == observations;
  }

  /** Recording what was kept of one file. */
  method RecordFile(ledger: Ledger.Ledger, s: Setting, file: nat, kept: seq<Classifier.Observation>, ghost before: seq<Ledger.Observation>)
    requires ledger.c == s.config && ledger.Contents() == Ledger.RecordAll(s.config, before)
    modifies ledger
    ensures ledger.Contents() == Ledger.RecordAll(s.config, before + AttributeAll(s, file, kept))
  {
    ghost var all := AttributeAll(s, file, kept);
    assert before + all[..0] == before;
    for i := 0 to |kept|
      invariant ledger.Contents() == Ledger.RecordAll(s.config, before + all[..i])
    {
      RecordSnoc(s.config, before + all[..i], all[i]);
      assert before + all[..i + 1] == before + all[..i] + [all[i]];
      ledger.RecordUsage(Attributed(s, file, kept[i]));
    }
    assert all[..|kept|] == all;
  }

  /** A whole scan: the books balance, and they hold what was recorded of each file in turn. */
  method ScanLocalUsage(s: Setting, files: seq<SessionFile>) returns (b: Ledger.Books)
    ensures b == Ledger.RecordAll(s.config, Recorded(s, files))
    ensures forall p: Part :: Ledger.Balanced(b, p)
  {
    var ledger := new Ledger.Ledger(s.config);
    for f := 0 to |files|
      invariant fresh(ledger) && ledger.c == s.config
      invariant ledger.Contents() == Ledger.RecordAll(s.config, Recorded(s, files[..f]))
    {
      var kept := Classifier.ScanSession(files[f].events, RelevantTo(s), files[f].complete);
      assert files[..f + 1][..f] == files[..f];
      RecordFile(ledger, s, f, kept, Recorded(s, files[..f]));
    }
    assert files[..|files|] == files;
    b := ledger.Contents();
    forall p: Part
      ensures Ledger.Balanced(b, p)
    {
      Ledger.BooksBalance(s.config, Recorded(s, files), p);
    }
  }

  // ---- What is recorded, against the counters in the files ----

  function Payloads(events: seq<Classifier.Event>): seq<Payload> {
    if events == [] then []
    else
      var last := events[|events| - 1];
      Payloads(events[..|events| - 1]) + if last.TokenCount? then [last.payload] else []
  }

  function Used(observations: seq<Classifier.Observation>): seq<Totals> {
    seq(|observations|, i requires 0 <= i < |observations| => observations[i].usage)
  }

  lemma UsedSnoc(observations: seq<Classifier.Observation>, o: Classifier.Observation)
    ensures Used(observations + [o]) == Used(observations) + [o.usage]
  {
  }

  lemma ScanSnoc(payloads: seq<Payload>, p: Payload)
    ensures ScanAll(payloads + [p]) == ScanStep(ScanAll(payloads), p)
  {
    assert (payloads + [p])[..|payloads|] == payloads;
  }

  function TotalUsed(observations: seq<Classifier.Observation>): nat {
    if observations == [] then 0
    else TotalUsed(observations[..|observations| - 1]) + observations[|observations| - 1].usage.total
  }

  lemma {:induction false} TotalUsedConcat(a: seq<Classifier.Observation>, b: seq<Classifier.Observation>)
    ensures TotalUsed(a + b) == TotalUsed(a) + TotalUsed(b)
    decreases |b|
  {
    if b == [] {
      assert a + b == a;
    } else {
      assert (a + b)[..|a| + |b| - 1] == a + b[..|b| - 1];
      TotalUsedConcat(a, b[..|b| - 1]);
    }
  }

  lemma {:induction false} TotalUsedIsSum(observations: seq<Classifier.Observation>)
    ensures SumSeq(Used(observations)).total == TotalUsed(observations)
  {
    if observations == [] {
    } else {
      var n := |observations| - 1;
      TotalUsedIsSum(observations[..n]);
      assert Used(observations) == Used(observations[..n]) + [observations[n].usage];
      SumSeqSnoc(Used(observations[..n]), observations[n].usage);
    }
  }

  /** A file read so far: its mark is that of its counters, and it holds no more usage than they emitted. */
  predicate Follows(r: Classifier.Reading, counters: Scan) {
    r.highWater == counters.highWater && TotalUsed(Classifier.Usages(r.marks)) <= SumSeq(counters.deltas).total
  }

  lemma MarkAddsUsage(marks: seq<Classifier.Mark>, o: Classifier.Observation)
    ensures Classifier.Usages(marks + [Classifier.Usage(o)]) == Classifier.Usages(marks) + [o]
    ensures TotalUsed(Classifier.Usages(marks) + [o]) == TotalUsed(Classifier.Usages(marks)) + o.usage.total
  {
    Classifier.UsagesSnoc(marks, Classifier.Usage(o));
    TotalUsedConcat(Classifier.Usages(marks), [o]);
    assert [o][..0] == [];
  }

  lemma AdvanceFollows(r: Classifier.Reading, counters: Scan, advance: Option<Advance>, e: Classifier.Event, relevant: int -> bool)
    requires Follows(r, counters) && e.TokenCount?
    ensures Follows(Classifier.ReadAdvance(r, advance, e.timestamp, e.quotaWindows, relevant), Advanced(counters, advance))
  {
    if advance.Some? && advance.value.delta.Some? {
      SumSeqSnoc(counters.deltas, advance.value.delta.value);
      if e.timestamp.Some? && relevant(e.timestamp.value) {
        MarkAddsUsage(r.marks, Classifier.Observation(advance.value.delta.value, e.timestamp.value, r.model, e.quotaWindows));
      }
    }
  }

  lemma OtherStepFollows(r: Classifier.Reading, counters: Scan, e: Classifier.Event, relevant: int -> bool)
    requires Follows(r, counters) && !e.TokenCount?
    ensures Follows(Classifier.ReadStep(r, e, relevant), counters)
    ensures Classifier.Usages(Classifier.ReadStep(r, e, relevant).marks) == Classifier.Usages(r.marks)
  {
    var next := Classifier.ReadStep(r, e, relevant);
    if next.marks != r.marks {
      var m := next.marks[|r.marks|];
      assert next.marks == r.marks + [m] && !m.Usage?;
      Classifier.UsagesSnoc(r.marks, m);
      assert Classifier.Usages(r.marks) + [] == Classifier.Usages(r.marks);
    }
  }

  lemma PayloadsSnoc(events: seq<Classifier.Event>)
    requires events != []
    ensures var n := |events| - 1;
            Payloads(events) == if events[n].TokenCount? then Payloads(events[..n]) + [events[n].payload] else Payloads(events[..n])
  {
    var n := |events| - 1;
    assert Payloads(events[..n]) + [] == Payloads(events[..n]);
  }

  lemma {:induction false} ReadingFollows(events: seq<Classifier.Event>, relevant: int -> bool)
    ensures Follows(Classifier.ReadAll(events, relevant), ScanAll(Payloads(events)))
  {
    if events == [] {
    } else {
      var n := |events| - 1;
      PayloadsSnoc(events);
      ReadingFollows(events[..n], relevant);
      var r, counters := Classifier.ReadAll(events[..n], relevant), ScanAll(Payloads(events[..n]));
      if events[n].TokenCount? {
        AdvanceFollows(r, counters, AdvanceHighWater(events[n].payload, r.highWater), events[n], relevant);
        ScanSnoc(Payloads(events[..n]), events[n].payload);
      } else {
        OtherStepFollows(r, counters, events[n], relevant);
      }
    }
  }

  /** Whatever the classifier drops, a file contributes no more than its counters emitted. */
  lemma KeptIsEmitted(s: Setting, file: SessionFile)
    ensures TotalUsed(KeptOf(s, file)) <= SumSeq(ScanAll(Payloads(file.events)).deltas).total
  {
    ReadingFollows(file.events, RelevantTo(s));
    KeptIsUsed(MarksOf(s, file.events));
    CutIsUsed(MarksOf(s, file.events));
  }

  lemma CutIsUsed(marks: seq<Classifier.Mark>)
    ensures TotalUsed(Classifier.KeptWhenCut(marks)) <= TotalUsed(Classifier.Kept(marks))
  {
    Classifier.CutKeepsPrefix(marks);
    var n := |Classifier.KeptWhenCut(marks)|;
    assert Classifier.Kept(marks) == Classifier.KeptWhenCut(marks) + Classifier.Kept(marks)[n..];
    TotalUsedConcat(Classifier.KeptWhenCut(marks), Classifier.Kept(marks)[n..]);
  }

  lemma KeptIsUsed(marks: seq<Classifier.Mark>)
    ensures TotalUsed(Classifier.Kept(marks)) <= TotalUsed(Classifier.Usages(marks))
  {
    var i, j := Classifier.KeptDropsOneBlock(marks);
    DroppingBlockLowers(Classifier.Usages(marks), i, j);
  }

  lemma SplitTwice<T>(s: seq<T>, i: nat, j: nat)
    requires i <= j <= |s|
    ensures s == s[..i] + s[i..j] + s[j..]
  {
  }

  lemma DroppingBlockLowers(observations: seq<Classifier.Observation>, i: nat, j: nat)
    requires i <= j <= |observations|
    ensures TotalUsed(observations[..i] + observations[j..]) <= TotalUsed(observations)
  {
    SplitTwice(observations, i, j);
    DroppingLowers(observations[..i], observations[i..j], observations[j..]);
  }

  lemma DroppingLowers(first: seq<Classifier.Observation>, dropped: seq<Classifier.Observation>, last: seq<Classifier.Observation>)
    ensures TotalUsed(first + last) <= TotalUsed(first + dropped + last)
  {
    TotalUsedConcat(first, last);
    TotalUsedConcat(first, dropped);
    TotalUsedConcat(first + dropped, last);
  }

  function UsageOf(observations: seq<Ledger.Observation>): seq<Totals> {
    seq(|observations|, i requires 0 <= i < |observations| => observations[i].usage)
  }

  lemma AttributionKeepsUsage(s: Setting, file: nat, kept: seq<Classifier.Observation>)
    ensures UsageOf(AttributeAll(s, file, kept)) == Used(kept)
  {
  }

  lemma {:induction false} BooksHoldAtMost(c: Ledger.Config, observations: seq<Ledger.Observation>)
    ensures Ledger.RecordAll(c, observations).total.total <= SumSeq(UsageOf(observations)).total
  {
    Ledger.RowsAreSlices(c, observations, Ledger.Grand);
    SliceHoldsAtMost(c, observations);
  }

  lemma {:induction false} SliceHoldsAtMost(c: Ledger.Config, observations: seq<Ledger.Observation>)
    ensures Ledger.Slice(c, observations, Ledger.Grand).total <= SumSeq(UsageOf(observations)).total
  {
    if observations == [] {
    } else {
      var n := |observations| - 1;
      SliceHoldsAtMost(c, observations[..n]);
      assert UsageOf(observations) == UsageOf(observations[..n]) + [observations[n].usage];
      SumSeqSnoc(UsageOf(observations[..n]), observations[n].usage);
      Ledger.CountedOnce(Ledger.Slice(c, observations[..n], Ledger.Grand), observations[n].usage);
    }
  }

  /** The last file adds the usage that was kept of it. */
  lemma RecordedSums(s: Setting, files: seq<SessionFile>)
    requires files != []
    ensures var n := |files| - 1;
            SumSeq(UsageOf(Recorded(s, files))) == Add(SumSeq(UsageOf(Recorded(s, files[..n]))), SumSeq(Used(KeptOf(s, files[n]))))
  {
    var n := |files| - 1;
    AddedSums(Recorded(s, files[..n]), s, n, KeptOf(s, files[n]));
  }

  lemma AddedSums(before: seq<Ledger.Observation>, s: Setting, file: nat, kept: seq<Classifier.Observation>)
    ensures SumSeq(UsageOf(before + AttributeAll(s, file, kept))) == Add(SumSeq(UsageOf(before)), SumSeq(Used(kept)))
  {
    UsageOfConcat(before, AttributeAll(s, file, kept));
    AttributionKeepsUsage(s, file, kept);
    SumSeqConcat(UsageOf(before), Used(kept));
  }

  lemma UsageOfConcat(a: seq<Ledger.Observation>, b: seq<Ledger.Observation>)
    ensures UsageOf(a + b) == UsageOf(a) + UsageOf(b)
  {
  }

  function FinalMarks(files: seq<SessionFile>): nat {
    if files == [] then 0
    else FinalMarks(files[..|files| - 1]) + TotalOf(ScanAll(Payloads(files[|files| - 1].events)))
  }

  lemma {:induction false} RecordedIsAtMostTheMarks(s: Setting, files: seq<SessionFile>)
    requires forall i :: 0 <= i < |files| ==> NoResets(Payloads(files[i].events))
    ensures SumSeq(UsageOf(Recorded(s, files))).total <= FinalMarks(files)
  {
    if files == [] {
    } else {
      var n := |files| - 1;
      RecordedIsAtMostTheMarks(s, files[..n]);
      RecordedSums(s, files);
      KeptIsEmitted(s, files[n]);
      TotalUsedIsSum(KeptOf(s, files[n]));
      DeltasNeverExceedTheMark(Payloads(files[n].events));
    }
  }

  /** A scan never counts more than the final marks of its files, whatever their sessions inherited, how often they
      repeat a snapshot, where reading them fails, and whichever periods are scanned, as long as no counter goes
      backwards. */
  lemma NeverCountsMoreThanTheMarks(s: Setting, files: seq<SessionFile>)
    requires forall i :: 0 <= i < |files| ==> NoResets(Payloads(files[i].events))
    ensures Ledger.RecordAll(s.config, Recorded(s, files)).total.total <= FinalMarks(files)
  {
    BooksHoldAtMost(s.config, Recorded(s, files));
    RecordedIsAtMostTheMarks(s, files);
  }

  // ---- Files that are counted completely ----

  /** The first session record of a file, if it has one, says whether it is a spawned subagent's. */
  function FirstRecord(events: seq<Classifier.Event>): Option<bool> {
    if events == [] then None
    else
      var before, last := FirstRecord(events[..|events| - 1]), events[|events| - 1];
      if before.Some? then before else if last.SessionMeta? then Some(last.subagent) else None
  }

  predicate Reads(marks: seq<Classifier.Mark>, record: Option<bool>) {
    var meta := Classifier.FirstMeta(marks, 0);
    if meta == |marks| then record == None else record == Some(marks[meta].subagent)
  }

  lemma {:induction false} FirstRecordIsRead(events: seq<Classifier.Event>, relevant: int -> bool)
    ensures Reads(Classifier.ReadAll(events, relevant).marks, FirstRecord(events))
  {
    if events == [] {
    } else {
      var n := |events| - 1;
      var r := Classifier.ReadAll(events[..n], relevant);
      var next := Classifier.ReadStep(r, events[n], relevant);
      FirstRecordIsRead(events[..n], relevant);
      if next.marks != r.marks {
        var m := next.marks[|r.marks|];
        assert next.marks == r.marks + [m];
        Classifier.MetaSnoc(r.marks, m);
      }
    }
  }

  /** A session of its own, with coherent counters, all of it inside the scanned dates. It need not be complete. */
  ghost predicate CountedCompletely(s: Setting, events: seq<Classifier.Event>) {
    && FirstRecord(events) != Some(true) && CoherentStream(Payloads(events))
    && forall i :: 0 <= i < |events| && events[i].TokenCount? ==> InPeriod(s, events[i].timestamp)
  }

  predicate InPeriod(s: Setting, timestamp: Option<int>) {
    timestamp.Some? && timestamp.value <= s.now && s.dateOf(timestamp.value) in s.config.allowedDates
  }

  /** Everything emitted is a usage mark inside the scanned dates. */
  predicate HoldsAll(s: Setting, r: Classifier.Reading, counters: Scan) {
    && r.highWater == counters.highWater && Used(Classifier.Usages(r.marks)) == counters.deltas
    && forall o :: o in Classifier.Usages(r.marks) ==> s.dateOf(o.timestamp) in s.config.allowedDates
  }

  lemma AdvanceHoldsAll(s: Setting, r: Classifier.Reading, counters: Scan, advance: Option<Advance>, e: Classifier.Event)
    requires HoldsAll(s, r, counters) && e.TokenCount? && InPeriod(s, e.timestamp)
    ensures HoldsAll(s, Classifier.ReadAdvance(r, advance, e.timestamp, e.quotaWindows, RelevantTo(s)), Advanced(counters, advance))
  {
    if advance.Some? && advance.value.delta.Some? {
      var o := Classifier.Observation(advance.value.delta.value, e.timestamp.value, r.model, e.quotaWindows);
      MarkAddsUsage(r.marks, o);
      UsedSnoc(Classifier.Usages(r.marks), o);
    }
  }

  lemma {:induction false} ReadingHoldsAll(s: Setting, events: seq<Classifier.Event>)
    requires forall i :: 0 <= i < |events| && events[i].TokenCount? ==> InPeriod(s, events[i].timestamp)
    ensures HoldsAll(s, Classifier.ReadAll(events, RelevantTo(s)), ScanAll(Payloads(events)))
  {
    if events == [] {
    } else {
      var n := |events| - 1;
      PayloadsSnoc(events);
      ReadingHoldsAll(s, events[..n]);
      var r, counters := Classifier.ReadAll(events[..n], RelevantTo(s)), ScanAll(Payloads(events[..n]));
      if events[n].TokenCount? {
        AdvanceHoldsAll(s, r, counters, AdvanceHighWater(events[n].payload, r.highWater), events[n]);
        ScanSnoc(Payloads(events[..n]), events[n].payload);
      } else {
        ReadingFollows(events[..n], RelevantTo(s));
        OtherStepFollows(r, counters, events[n], RelevantTo(s));
      }
    }
  }

  /** The counters of the last record in a file, one by one, if that record has them all. */
  function FinalCounters(events: seq<Classifier.Event>): Totals {
    var payloads := Payloads(events);
    if payloads == [] || payloads[|payloads| - 1].totalUsage == None || !Complete(payloads[|payloads| - 1].totalUsage.value) then Zero
    else
      var raw := payloads[|payloads| - 1].totalUsage.value;
      Totals(input := raw.input.value, cached := raw.cached.value, output := raw.output.value,
             reasoning := raw.reasoning.value, total := raw.total.value)
  }

  lemma FileIsCountedCompletely(s: Setting, file: SessionFile)
    requires CountedCompletely(s, file.events)
    ensures SumSeq(Used(KeptOf(s, file))) == FinalCounters(file.events)
    ensures forall o :: o in KeptOf(s, file) ==> s.dateOf(o.timestamp) in s.config.allowedDates
  {
    FirstRecordIsRead(file.events, RelevantTo(s));
    ReadingHoldsAll(s, file.events);
    if Payloads(file.events) != [] {
      CoherentStreamIsExact(Payloads(file.events));
    }
  }

  predicate AllLocal(c: Ledger.Config, observations: seq<Ledger.Observation>) {
    forall i :: 0 <= i < |observations| ==> Ledger.Local(c, observations[i])
  }

  lemma {:induction false} SliceHoldsAll(c: Ledger.Config, observations: seq<Ledger.Observation>)
    requires AllLocal(c, observations)
    ensures Ledger.Slice(c, observations, Ledger.Grand) == SumSeq(UsageOf(observations))
  {
    if observations == [] {
    } else {
      var n := |observations| - 1;
      SliceHoldsAll(c, observations[..n]);
      assert UsageOf(observations) == UsageOf(observations[..n]) + [observations[n].usage];
      SumSeqSnoc(UsageOf(observations[..n]), observations[n].usage);
      Ledger.CountedOnce(Ledger.Slice(c, observations[..n], Ledger.Grand), observations[n].usage);
    }
  }

  function SumOfCounters(files: seq<SessionFile>): Totals {
    if files == [] then Zero
    else Add(SumOfCounters(files[..|files| - 1]), FinalCounters(files[|files| - 1].events))
  }

  lemma {:induction false} RecordedIsLocal(s: Setting, files: seq<SessionFile>)
    requires forall i :: 0 <= i < |files| ==> CountedCompletely(s, files[i].events)
    ensures AllLocal(s.config, Recorded(s, files))
  {
    if files == [] {
    } else {
      var n := |files| - 1;
      RecordedIsLocal(s, files[..n]);
      FileIsCountedCompletely(s, files[n]);
      AttributedIsLocal(s, n, KeptOf(s, files[n]));
    }
  }

  lemma AttributedIsLocal(s: Setting, file: nat, kept: seq<Classifier.Observation>)
    requires forall o :: o in kept ==> s.dateOf(o.timestamp) in s.config.allowedDates
    ensures AllLocal(s.config, AttributeAll(s, file, kept))
  {
  }

  lemma {:induction false} RecordedIsTheCounters(s: Setting, files: seq<SessionFile>)
    requires forall i :: 0 <= i < |files| ==> CountedCompletely(s, files[i].events)
    ensures SumSeq(UsageOf(Recorded(s, files))) == SumOfCounters(files)
  {
    if files == [] {
    } else {
      var n := |files| - 1;
      RecordedIsTheCounters(s, files[..n]);
      FileIsCountedCompletely(s, files[n]);
      RecordedSums(s, files);
    }
  }

  /** From the files to the dashboard: for sessions of their own with coherent counters inside the scanned dates, the
      grand total is exactly the sum of the final counters, in all five components. */
  lemma CountsExactlyTheCounters(s: Setting, files: seq<SessionFile>)
    requires forall i :: 0 <= i < |files| ==> CountedCompletely(s, files[i].events)
    ensures Ledger.RecordAll(s.config, Recorded(s, files)).total == SumOfCounters(files)
  {
    Ledger.RowsAreSlices(s.config, Recorded(s, files), Ledger.Grand);
    RecordedIsTheCounters(s, files);
    RecordedIsLocal(s, files);
    SliceHoldsAll(s.config, Recorded(s, files));
  }
}
