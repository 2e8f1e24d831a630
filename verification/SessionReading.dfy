/** What the marks of a session file, and in the end the recorded observations, say about its lines
    (src/services/localUsageAnalytics.ts, the event loop of scanLocalUsageSessionsInternal). */
module SessionReading {
  import opened Wrappers
  import opened UsageTotals
  import opened TokenHighWater
  import opened SubagentClassifier
  import opened UsageScan
  import Ledger = UsageLedger

  predicate NamesModel(e: Event) {
    e.TurnContext? && e.model.Some?
  }

  /** The model of the last turn context before line `n` that names one, or "unknown" when none does. */
  predicate IsModelAt(events: seq<Event>, n: nat, model: string)
    requires n <= |events|
  {
    if forall k :: 0 <= k < n ==> !NamesModel(events[k]) then model == "unknown"
    else exists k :: 0 <= k < n && events[k] == TurnContext(Some(model)) && forall j :: k < j < n ==> !NamesModel(events[j])
  }

  /** What the counters of the lines up to `n` emitted. */
  function EmittedUpTo(events: seq<Event>, n: nat): seq<Totals>
    requires n <= |events|
  {
    ScanAll(Payloads(events[..n])).deltas
  }

  /** Line `k` is a token count whose usage, time and windows these are, under the model named last before it. */
  predicate IsUsageOf(events: seq<Event>, k: nat, o: Observation)
    requires k < |events|
  {
    && events[k].TokenCount? && events[k].timestamp == Some(o.timestamp) && events[k].quotaWindows == o.quotaWindows
    && IsModelAt(events, k, o.model) && EmittedUpTo(events, k + 1) == EmittedUpTo(events, k) + [o.usage]
  }

  predicate IsMarkOf(events: seq<Event>, k: nat, m: Mark)
    requires k < |events|
  {
    match m
    case Meta(subagent, startupAt) => events[k] == SessionMeta(subagent, startupAt)
    case Trigger => events[k] == Communication(true)
    case Started => events[k] == TaskStarted
    case Context => events[k].TurnContext?
    case Usage(o) => IsUsageOf(events, k, o)
  }

  /** A line that does not show in the marks: it cannot affect usage, or it is a token count that emits nothing or whose
      time is unknown or outside everything scanned. */
  predicate Unmarked(events: seq<Event>, k: nat, relevant: int -> bool)
    requires k < |events|
  {
    || events[k].Other? || events[k] == Communication(false)
    || (events[k].TokenCount? && (EmittedUpTo(events, k + 1) == EmittedUpTo(events, k)
                                  || events[k].timestamp == None || !relevant(events[k].timestamp.value)))
  }

  predicate Increasing(at: seq<nat>, n: nat) {
    (forall i :: 0 <= i < |at| ==> at[i] < n) && forall i, j :: 0 <= i < j < |at| ==> at[i] < at[j]
  }

  /** The mark is that of line `k`, and a usage is recorded only for a time that is scanned. */
  predicate Marked(events: seq<Event>, relevant: int -> bool, k: nat, m: Mark)
    requires k < |events|
  {
    IsMarkOf(events, k, m) && (m.Usage? ==> relevant(m.observation.timestamp))
  }

  predicate AllMarked(events: seq<Event>, relevant: int -> bool, marks: seq<Mark>, at: seq<nat>) {
    |at| == |marks| && forall i :: 0 <= i < |at| ==> at[i] < |events| && Marked(events, relevant, at[i], marks[i])
  }

  predicate OthersUnmarked(events: seq<Event>, relevant: int -> bool, n: nat, at: seq<nat>)
    requires n <= |events|
  {
    forall k :: 0 <= k < n ==> k in at || Unmarked(events, k, relevant)
  }

  /** The marks of the first `n` lines, and the line each of them comes from. */
  predicate MarksUpTo(events: seq<Event>, relevant: int -> bool, n: nat, marks: seq<Mark>, at: seq<nat>)
    requires n <= |events|
  {
    Increasing(at, n) && AllMarked(events, relevant, marks, at) && OthersUnmarked(events, relevant, n, at)
  }

  lemma CountersStep(events: seq<Event>, n: nat)
    requires n < |events|
    ensures ScanAll(Payloads(events[..n + 1])) ==
              if events[n].TokenCount? then ScanStep(ScanAll(Payloads(events[..n])), events[n].payload)
              else ScanAll(Payloads(events[..n]))
  {
    assert events[..n + 1][..n] == events[..n];
    PayloadsSnoc(events[..n + 1]);
    if events[n].TokenCount? {
      ScanSnoc(Payloads(events[..n]), events[n].payload);
    }
  }

  lemma ModelStep(events: seq<Event>, n: nat, model: string)
    requires n < |events| && IsModelAt(events, n, model)
    ensures IsModelAt(events, n + 1, if NamesModel(events[n]) then events[n].model.value else model)
  {
    if !NamesModel(events[n]) && !(forall k :: 0 <= k < n ==> !NamesModel(events[k])) {
      var k :| 0 <= k < n && events[k] == TurnContext(Some(model)) && forall j :: k < j < n ==> !NamesModel(events[j]);
      assert NamesModel(events[k]);
      assert forall j :: k < j < n + 1 ==> !NamesModel(events[j]);
    } else if NamesModel(events[n]) {
      assert events[n] == TurnContext(Some(events[n].model.value));
    }
  }

  /** Line `n` shows in no mark, or adds one, which is its own. */
  predicate AddsItsMark(events: seq<Event>, relevant: int -> bool, n: nat, marks: seq<Mark>, next: seq<Mark>)
    requires n < |events|
  {
    if |next| == |marks| then next == marks && Unmarked(events, n, relevant)
    else
      && |next| == |marks| + 1 && next[..|marks|] == marks && Marked(events, relevant, n, next[|marks|])
  }

  lemma AddsMark(events: seq<Event>, relevant: int -> bool, n: nat, marks: seq<Mark>, m: Mark)
    requires n < |events| && Marked(events, relevant, n, m)
    ensures AddsItsMark(events, relevant, n, marks, marks + [m])
  {
    assert (marks + [m])[..|marks|] == marks;
  }

  /** Whatever the counters advance by, the token count adds its usage mark or none. */
  lemma AdvanceAdds(events: seq<Event>, relevant: int -> bool, n: nat, r: Reading, counters: Scan, advance: Option<Advance>)
    requires n < |events| && events[n].TokenCount? && IsModelAt(events, n, r.model)
    requires EmittedUpTo(events, n) == counters.deltas && EmittedUpTo(events, n + 1) == Advanced(counters, advance).deltas
    ensures var next := ReadAdvance(r, advance, events[n].timestamp, events[n].quotaWindows, relevant);
            AddsItsMark(events, relevant, n, r.marks, next.marks) && next.model == r.model
  {
    var e := events[n];
    if advance.Some? && advance.value.delta.Some? && e.timestamp.Some? && relevant(e.timestamp.value) {
      var o := Observation(advance.value.delta.value, e.timestamp.value, r.model, e.quotaWindows);
      assert IsUsageOf(events, n, o);
      AddsMark(events, relevant, n, r.marks, Usage(o));
    }
  }

  lemma TokenLineAdds(events: seq<Event>, relevant: int -> bool, n: nat, r: Reading)
    requires n < |events| && events[n].TokenCount?
    requires r.highWater == ScanAll(Payloads(events[..n])).highWater && IsModelAt(events, n, r.model)
    ensures var next := ReadStep(r, events[n], relevant);
            AddsItsMark(events, relevant, n, r.marks, next.marks) && next.model == r.model
  {
    CountersStep(events, n);
    AdvanceAdds(events, relevant, n, r, ScanAll(Payloads(events[..n])), AdvanceHighWater(events[n].payload, r.highWater));
  }

  lemma OtherLineAdds(events: seq<Event>, relevant: int -> bool, n: nat, r: Reading)
    requires n < |events| && !events[n].TokenCount?
    ensures AddsItsMark(events, relevant, n, r.marks, ReadStep(r, events[n], relevant).marks)
    ensures ReadStep(r, events[n], relevant).highWater == r.highWater
    ensures ReadStep(r, events[n], relevant).model == if NamesModel(events[n]) then events[n].model.value else r.model
  {
    var next := ReadStep(r, events[n], relevant).marks;
    if next != r.marks {
      AddsMark(events, relevant, n, r.marks, next[|r.marks|]);
    }
  }

  /** What the reading of the first `n` lines carries on. */
  predicate CarriesOn(events: seq<Event>, n: nat, r: Reading)
    requires n <= |events|
  {
    r.highWater == ScanAll(Payloads(events[..n])).highWater && IsModelAt(events, n, r.model)
  }

  lemma LineReads(events: seq<Event>, relevant: int -> bool, n: nat, r: Reading)
    requires n < |events| && CarriesOn(events, n, r)
    ensures CarriesOn(events, n + 1, ReadStep(r, events[n], relevant))
    ensures AddsItsMark(events, relevant, n, r.marks, ReadStep(r, events[n], relevant).marks)
  {
    CountersStep(events, n);
    ModelStep(events, n, r.model);
    if events[n].TokenCount? {
      TokenLineAdds(events, relevant, n, r);
    } else {
      OtherLineAdds(events, relevant, n, r);
    }
  }

  lemma AlsoMarked(events: seq<Event>, relevant: int -> bool, n: nat, marks: seq<Mark>, m: Mark, at: seq<nat>)
    requires n < |events| && AllMarked(events, relevant, marks, at) && Marked(events, relevant, n, m)
    ensures AllMarked(events, relevant, marks + [m], at + [n])
  {
  }

  lemma OneOtherLess(events: seq<Event>, relevant: int -> bool, n: nat, at: seq<nat>)
    requires n < |events| && OthersUnmarked(events, relevant, n, at)
    ensures OthersUnmarked(events, relevant, n + 1, at + [n])
    ensures Unmarked(events, n, relevant) ==> OthersUnmarked(events, relevant, n + 1, at)
  {
    assert (at + [n])[|at|] == n;
    forall k | 0 <= k < n && k in at
      ensures k in at + [n]
    {
      var i :| 0 <= i < |at| && at[i] == k;
      assert (at + [n])[i] == k;
    }
  }

  lemma Extends(events: seq<Event>, relevant: int -> bool, n: nat, marks: seq<Mark>, next: seq<Mark>, at: seq<nat>)
    returns (longer: seq<nat>)
    requires n < |events| && MarksUpTo(events, relevant, n, marks, at) && AddsItsMark(events, relevant, n, marks, next)
    ensures MarksUpTo(events, relevant, n + 1, next, longer)
  {
    OneOtherLess(events, relevant, n, at);
    if |next| == |marks| {
      longer := at;
    } else {
      longer := at + [n];
      assert next == marks + [next[|marks|]];
      AlsoMarked(events, relevant, n, marks, next[|marks|], at);
    }
  }

  /** The marks are read off the lines in order: each comes from a line of its own and says what that line says, and
      the lines that show in no mark cannot affect usage. */
  lemma MarksAreLines(events: seq<Event>, relevant: int -> bool) returns (at: seq<nat>)
    ensures MarksUpTo(events, relevant, |events|, ReadAll(events, relevant).marks, at)
  {
    at := [];
    for n := 0 to |events|
      invariant CarriesOn(events, n, ReadAll(events[..n], relevant))
      invariant MarksUpTo(events, relevant, n, ReadAll(events[..n], relevant).marks, at)
    {
      var r := ReadAll(events[..n], relevant);
      ReadSnoc(events, relevant, n);
      LineReads(events, relevant, n, r);
      at := Extends(events, relevant, n, r.marks, ReadStep(r, events[n], relevant).marks, at);
    }
    assert events[..|events|] == events;
  }

  // ---- Where a recorded observation comes from ----

  predicate AreUsages(marks: seq<Mark>, usages: seq<Observation>, at: seq<nat>) {
    && |at| == |usages| && Increasing(at, |marks|)
    && forall i :: 0 <= i < |at| ==> marks[at[i]] == Usage(usages[i])
  }

  lemma OneMoreMark(marks: seq<Mark>, m: Mark, usages: seq<Observation>, at: seq<nat>)
    requires AreUsages(marks, usages, at)
    ensures AreUsages(marks + [m], usages, at)
    ensures m.Usage? ==> AreUsages(marks + [m], usages + [m.observation], at + [|marks|])
  {
    assert forall i :: 0 <= i < |at| ==> (marks + [m])[at[i]] == marks[at[i]];
  }

  lemma {:induction false} UsagesAreMarks(marks: seq<Mark>) returns (at: seq<nat>)
    ensures AreUsages(marks, Usages(marks), at)
  {
    if marks == [] {
      at := [];
    } else {
      var n := |marks| - 1;
      at := UsagesAreMarks(marks[..n]);
      OneMoreMark(marks[..n], marks[n], Usages(marks[..n]), at);
      assert marks == marks[..n] + [marks[n]] && Usages(marks[..n]) + [] == Usages(marks[..n]);
      at := if marks[n].Usage? then at + [n] else at;
    }
  }

  /** These observations are usages of lines of the file, in the order of the lines and no line twice. */
  predicate AreLines(events: seq<Event>, relevant: int -> bool, observations: seq<Observation>, at: seq<nat>) {
    && |at| == |observations| && Increasing(at, |events|)
    && forall i :: 0 <= i < |at| ==> IsUsageOf(events, at[i], observations[i]) && relevant(observations[i].timestamp)
  }

  lemma UsagesAreLines(events: seq<Event>, relevant: int -> bool) returns (at: seq<nat>)
    ensures AreLines(events, relevant, Usages(ReadAll(events, relevant).marks), at)
  {
    var marks := ReadAll(events, relevant).marks;
    var lines := MarksAreLines(events, relevant);
    var indices := UsagesAreMarks(marks);
    at := seq(|indices|, i requires 0 <= i < |indices| => lines[indices[i]]);
    forall i | 0 <= i < |at|
      ensures IsUsageOf(events, at[i], Usages(marks)[i]) && relevant(Usages(marks)[i].timestamp)
    {
      assert Marked(events, relevant, lines[indices[i]], marks[indices[i]]);
    }
  }

  lemma PartAreLines(events: seq<Event>, relevant: int -> bool, observations: seq<Observation>, at: seq<nat>, i: nat, j: nat)
    returns (part: seq<nat>)
    requires AreLines(events, relevant, observations, at) && i <= j <= |observations|
    ensures AreLines(events, relevant, observations[..i] + observations[j..], part)
  {
    part := at[..i] + at[j..];
  }

  lemma PrefixAreLines(events: seq<Event>, relevant: int -> bool, observations: seq<Observation>, at: seq<nat>, n: nat)
    requires AreLines(events, relevant, observations, at) && n <= |observations|
    ensures AreLines(events, relevant, observations[..n], at[..n])
  {
  }

  /** What is kept of a file, however the classifier cuts it and wherever reading fails. */
  lemma KeptAreLines(s: Setting, file: SessionFile) returns (at: seq<nat>)
    ensures AreLines(file.events, RelevantTo(s), KeptOf(s, file), at)
  {
    var marks := MarksOf(s, file.events);
    at := UsagesAreLines(file.events, RelevantTo(s));
    var i, j := KeptDropsOneBlock(marks);
    at := PartAreLines(file.events, RelevantTo(s), Usages(marks), at, i, j);
    if !file.complete {
      CutKeepsPrefix(marks);
      PrefixAreLines(file.events, RelevantTo(s), Kept(marks), at, |KeptWhenCut(marks)|);
      at := at[..|KeptWhenCut(marks)|];
    }
  }

  datatype Line = Line(file: nat, number: nat)

  predicate Precedes(a: Line, b: Line) {
    a.file < b.file || (a.file == b.file && a.number < b.number)
  }

  /** The observation is the usage of this line, at the line's time and under the model named last before it, attributed
      to that time's date and 3-hour bucket and to the account the file had then. */
  predicate RecordedFrom(s: Setting, files: seq<SessionFile>, o: Ledger.Observation, line: Line) {
    && line.file < |files| && line.number < |files[line.file].events|
    && IsUsageOf(files[line.file].events, line.number, Observation(o.usage, o.timestamp, o.model, o.quotaWindows))
    && o.timestamp <= s.now && o.date == s.dateOf(o.timestamp) && o.bucket == s.bucketOf(o.timestamp)
    && o.account == s.accountOf(line.file, o.timestamp)
  }

  predicate AllRecordedFrom(s: Setting, files: seq<SessionFile>, observations: seq<Ledger.Observation>, lines: seq<Line>) {
    && |lines| == |observations|
    && (forall i :: 0 <= i < |lines| ==> RecordedFrom(s, files, observations[i], lines[i]))
    && (forall i, j :: 0 <= i < j < |lines| ==> Precedes(lines[i], lines[j]))
  }

  lemma FileIsRecordedFrom(s: Setting, files: seq<SessionFile>, f: nat) returns (lines: seq<Line>)
    requires f < |files|
    ensures AllRecordedFrom(s, files, AttributeAll(s, f, KeptOf(s, files[f])), lines)
    ensures forall i :: 0 <= i < |lines| ==> lines[i].file == f
  {
    var at := KeptAreLines(s, files[f]);
    var kept := KeptOf(s, files[f]);
    lines := seq(|at|, i requires 0 <= i < |at| => Line(f, at[i]));
    forall i | 0 <= i < |lines|
      ensures RecordedFrom(s, files, AttributeAll(s, f, kept)[i], lines[i])
    {
      assert AttributeAll(s, f, kept)[i] == Attributed(s, f, kept[i]);
      assert RelevantTo(s)(kept[i].timestamp);
      assert kept[i] == Observation(kept[i].usage, kept[i].timestamp, kept[i].model, kept[i].quotaWindows);
    }
  }

  lemma MoreFiles(s: Setting, files: seq<SessionFile>, n: nat, observations: seq<Ledger.Observation>, lines: seq<Line>)
    requires n <= |files| && AllRecordedFrom(s, files[..n], observations, lines)
    ensures AllRecordedFrom(s, files, observations, lines)
    ensures forall i :: 0 <= i < |lines| ==> lines[i].file < n
  {
    forall i | 0 <= i < |lines|
      ensures RecordedFrom(s, files, observations[i], lines[i]) && lines[i].file < n
    {
      assert RecordedFrom(s, files[..n], observations[i], lines[i]);
    }
  }

  /** Everything a scan records is the usage of a line of a file, with that line's time and windows, the model named last
      before it and what its counters emitted there, in the order of the files and their lines, and no line is recorded
      twice. */
  lemma {:induction false} RecordedComesFromLines(s: Setting, files: seq<SessionFile>) returns (lines: seq<Line>)
    ensures AllRecordedFrom(s, files, Recorded(s, files), lines)
    decreases |files|
  {
    if files == [] {
      lines := [];
    } else {
      var n := |files| - 1;
      var before := RecordedComesFromLines(s, files[..n]);
      MoreFiles(s, files, n, Recorded(s, files[..n]), before);
      var last := FileIsRecordedFrom(s, files, n);
      lines := before + last;
    }
  }

  /** A time that is not scanned is in the future, or nothing at that time would count towards any row. */
  lemma UnscannedCountsNowhere(s: Setting, file: nat, o: Observation, slot: Ledger.Slot)
    requires !RelevantTo(s)(o.timestamp)
    ensures o.timestamp > s.now || Ledger.Weight(s.config, Attributed(s, file, o), slot) == 0
  {
  }

  /** A time that is scanned lies in an allowed date, in the recent period, or in the period whose requests are attributed
      to accounts. */
  lemma ScannedLiesIn(s: Setting, timestamp: int)
    requires RelevantTo(s)(timestamp)
    ensures timestamp <= s.now
    ensures s.dateOf(timestamp) in s.config.allowedDates || timestamp >= s.config.shortStartAt
            || (s.config.tracksAccounts && timestamp >= s.config.oldestAccountTimestamp)
  {
  }
}
