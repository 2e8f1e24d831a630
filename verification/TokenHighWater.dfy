/** Turning cumulative token counters into deltas
    (src/services/localUsageAnalytics.ts, advanceTokenUsageHighWater and its helpers). */
module TokenHighWater {
  import opened Wrappers
  import opened UsageTotals

  /** A usage record with the counters that could be read from it as non-negative integers. */
  datatype RawUsage = RawUsage(input: Option<nat>, cached: Option<nat>, output: Option<nat>, reasoning: Option<nat>, total: Option<nat>)

  /** A token_count payload: its cumulative and its per-turn usage record, when present. */
  datatype Payload = Payload(totalUsage: Option<RawUsage>, lastUsage: Option<RawUsage>)

  datatype HighWater = HighWater(totals: Totals, complete: bool)
  datatype Advance = Advance(highWater: HighWater, delta: Option<Totals>)

  function OrZero(n: Option<nat>): nat {
    if n.Some? then n.value else 0
  }

  function TotalsOf(raw: RawUsage): Totals {
    Totals(OrZero(raw.input), OrZero(raw.cached), OrZero(raw.output), OrZero(raw.reasoning), OrZero(raw.total))
  }

  /** A cumulative record counts only when it has a total. */
  function ReadCumulative(p: Payload): Option<HighWater> {
    if p.totalUsage == None || p.totalUsage.value.total == None then None
    else
      var raw := p.totalUsage.value;
      Some(HighWater(TotalsOf(raw), raw.input.Some? && raw.cached.Some? && raw.output.Some? && raw.reasoning.Some?))
  }

  function ReadLast(p: Payload): Option<Totals> {
    if p.lastUsage == None then None else Some(TotalsOf(p.lastUsage.value))
  }

  function OnlyTotal(total: nat): Totals {
    Zero.(total := total)
  }

  function TotalsBefore(previous: Option<HighWater>): Totals {
    if previous.Some? then previous.value.totals else Zero
  }

  predicate CompleteBefore(previous: Option<HighWater>) {
    previous == None || previous.value.complete
  }

  /** The difference is usable when no component shrank and the components are coherent. */
  predicate Coherent(current: Totals, previous: Totals) {
    && current.input >= previous.input && current.cached >= previous.cached
    && current.output >= previous.output && current.reasoning >= previous.reasoning
    && current.total > previous.total
    && current.cached - previous.cached <= current.input - previous.input
    && current.reasoning - previous.reasoning <= current.output - previous.output
    && (current.input - previous.input) + (current.output - previous.output) == current.total - previous.total
  }

  function Subtract(current: Totals, previous: Totals): Option<Totals> {
    if Coherent(current, previous) then
      Some(Totals(current.input - previous.input, current.cached - previous.cached, current.output - previous.output,
                  current.reasoning - previous.reasoning, current.total - previous.total))
    else None
  }

  function AdvanceHighWater(p: Payload, previous: Option<HighWater>): Option<Advance> {
    var cumulative, last := ReadCumulative(p), ReadLast(p);
    if cumulative == None then
      if last == None then None
      else Some(Advance(HighWater(Add(TotalsBefore(previous), last.value), previous == None || previous.value.complete), last))
    else if cumulative.value.totals.total < TotalsBefore(previous).total then
      Some(Advance(if cumulative.value.complete then cumulative.value
                   else HighWater(OnlyTotal(cumulative.value.totals.total), false), last))
    else if cumulative.value.totals.total == TotalsBefore(previous).total then
      if previous.Some? then Some(Advance(previous.value, None)) else None
    else
      var growth := cumulative.value.totals.total - TotalsBefore(previous).total;
      var lastMatches := last.Some? && last.value.total == growth;
      var difference := if cumulative.value.complete && CompleteBefore(previous)
                        then Subtract(cumulative.value.totals, TotalsBefore(previous)) else None;
      var delta := if difference == None && lastMatches then last else difference;
      var highWater :=
        if cumulative.value.complete then cumulative.value
        else if lastMatches && CompleteBefore(previous) then HighWater(Add(TotalsBefore(previous), last.value), true)
        else HighWater(OnlyTotal(cumulative.value.totals.total), false);
      Some(Advance(highWater, delta))
  }

  /** The high-water mark and the deltas emitted so far, oldest first. */
  datatype Scan = Scan(highWater: Option<HighWater>, deltas: seq<Totals>)

  function Advanced(s: Scan, advance: Option<Advance>): Scan {
    if advance == None then s
    else Scan(Some(advance.value.highWater),
              if advance.value.delta.Some? then s.deltas + [advance.value.delta.value] else s.deltas)
  }

  function ScanStep(s: Scan, p: Payload): Scan {
    Advanced(s, AdvanceHighWater(p, s.highWater))
  }

  function ScanAll(payloads: seq<Payload>): Scan {
    if payloads == [] then Scan(None, [])
    else ScanStep(ScanAll(payloads[..|payloads| - 1]), payloads[|payloads| - 1])
  }

  // ---- The counters of a record ----

  /** All five counters could be read. */
  predicate Complete(raw: RawUsage) {
    raw.input.Some? && raw.cached.Some? && raw.output.Some? && raw.reasoning.Some? && raw.total.Some?
  }

  /** These are the record's own counters, one by one; a counter that could not be read shows as 0. */
  predicate Shows(t: Totals, raw: RawUsage) {
    && t.input == (if raw.input.Some? then raw.input.value else 0)
    && t.cached == (if raw.cached.Some? then raw.cached.value else 0)
    && t.output == (if raw.output.Some? then raw.output.value else 0)
    && t.reasoning == (if raw.reasoning.Some? then raw.reasoning.value else 0)
    && t.total == (if raw.total.Some? then raw.total.value else 0)
  }

  /** `next` is `before` with `turn` added, counter by counter. */
  predicate Accumulates(next: Totals, before: Totals, turn: Totals) {
    && next.input == before.input + turn.input && next.cached == before.cached + turn.cached
    && next.output == before.output + turn.output && next.reasoning == before.reasoning + turn.reasoning
    && next.total == before.total + turn.total
  }

  predicate ShowsOnlyTotal(t: Totals, total: nat) {
    t.total == total && t.input == 0 && t.cached == 0 && t.output == 0 && t.reasoning == 0
  }

  /** The record is complete and grew from these counters: none shrank, input and output account for the whole growth,
      and cached and reasoning tokens for no more than their part of it. */
  predicate GrowsFrom(raw: RawUsage, before: Totals) {
    && Complete(raw)
    && raw.input.value >= before.input && raw.cached.value >= before.cached
    && raw.output.value >= before.output && raw.reasoning.value >= before.reasoning && raw.total.value > before.total
    && raw.cached.value - before.cached <= raw.input.value - before.input
    && raw.reasoning.value - before.reasoning <= raw.output.value - before.output
    && raw.total.value - before.total == (raw.input.value - before.input) + (raw.output.value - before.output)
  }

  /** The cumulative counter of a payload, if it has one. */
  predicate Reports(p: Payload, total: nat) {
    p.totalUsage.Some? && p.totalUsage.value.total == Some(total)
  }

  /** The per-turn record accounts for exactly this growth. */
  predicate TurnAccountsFor(p: Payload, growth: nat) {
    p.lastUsage.Some? && growth == if p.lastUsage.value.total.Some? then p.lastUsage.value.total.value else 0
  }

  // ---- What one step does ----

  /** The counter went backwards. */
  predicate IsReset(p: Payload, previous: Option<HighWater>) {
    ReadCumulative(p).Some? && ReadCumulative(p).value.totals.total < TotalsBefore(previous).total
  }

  function TotalOf(s: Scan): nat {
    TotalsBefore(s.highWater).total
  }

  predicate Emits(s: Scan, p: Payload) {
    AdvanceHighWater(p, s.highWater).Some? && AdvanceHighWater(p, s.highWater).value.delta.Some?
  }

  /** Outside resets the mark never falls, and an emitted delta is exactly its rise. */
  lemma StepAccounts(s: Scan, p: Payload)
    requires !IsReset(p, s.highWater)
    ensures TotalOf(s) <= TotalOf(ScanStep(s, p))
    ensures Emits(s, p) ==> ScanStep(s, p).deltas == s.deltas + [AdvanceHighWater(p, s.highWater).value.delta.value]
                            && AdvanceHighWater(p, s.highWater).value.delta.value.total == TotalOf(ScanStep(s, p)) - TotalOf(s)
    ensures !Emits(s, p) ==> ScanStep(s, p).deltas == s.deltas
  {
  }

  /** A growing cumulative counter emits exactly when its record grows coherently from a complete mark, or the per-turn
      record accounts for the whole growth. */
  lemma GrowthEmitsExactlyWhen(s: Scan, p: Payload, total: nat)
    requires Reports(p, total) && total > TotalOf(s)
    ensures Emits(s, p) <==>
            || (CompleteBefore(s.highWater) && GrowsFrom(p.totalUsage.value, TotalsBefore(s.highWater)))
            || TurnAccountsFor(p, total - TotalOf(s))
  {
  }

  /** What growth emits, counter by counter: the differences when the record grows coherently from a complete mark, and
      otherwise exactly the per-turn record. */
  lemma GrowthEmits(s: Scan, p: Payload, total: nat, delta: Totals)
    requires Reports(p, total) && total > TotalOf(s) && ScanStep(s, p).deltas == s.deltas + [delta]
    ensures if CompleteBefore(s.highWater) && GrowsFrom(p.totalUsage.value, TotalsBefore(s.highWater))
            then var (raw, before) := (p.totalUsage.value, TotalsBefore(s.highWater));
                 && delta.input == raw.input.value - before.input && delta.cached == raw.cached.value - before.cached
                 && delta.output == raw.output.value - before.output && delta.reasoning == raw.reasoning.value - before.reasoning
                 && delta.total == raw.total.value - before.total
            else p.lastUsage.Some? && Shows(delta, p.lastUsage.value)
  {
    assert (s.deltas + [delta])[|s.deltas|] == delta;
    assert Emits(s, p) ==> ScanStep(s, p).deltas[|s.deltas|] == AdvanceHighWater(p, s.highWater).value.delta.value;
  }

  /** The mark after growth: the record itself when it is complete; otherwise the per-turn record added to a complete
      mark when it accounts for the growth; otherwise the total alone, which is never trusted for differences again. */
  lemma GrowthMarks(s: Scan, p: Payload, total: nat)
    requires Reports(p, total) && total > TotalOf(s)
    ensures ScanStep(s, p).highWater.Some?
    ensures var (raw, after) := (p.totalUsage.value, ScanStep(s, p).highWater.value);
            if Complete(raw) then Shows(after.totals, raw) && after.complete
            else if TurnAccountsFor(p, total - TotalOf(s)) && CompleteBefore(s.highWater) then
              after.complete && exists turn :: Shows(turn, p.lastUsage.value) && Accumulates(after.totals, TotalsBefore(s.highWater), turn)
            else ShowsOnlyTotal(after.totals, total) && !after.complete
  {
    if p.lastUsage.Some? {
      assert Shows(ReadLast(p).value, p.lastUsage.value);
    }
  }

  /** A payload that repeats the mark's total changes nothing. */
  lemma RepetitionIsSilent(s: Scan, p: Payload)
    requires Reports(p, TotalOf(s))
    ensures ScanStep(s, p) == s
  {
  }

  /** A payload without a cumulative counter emits its per-turn record and raises the mark by it. */
  lemma PerTurnRecordIsAdded(s: Scan, p: Payload, turn: Totals)
    requires p.totalUsage == None || p.totalUsage.value.total == None
    requires p.lastUsage.Some? && Shows(turn, p.lastUsage.value)
    ensures ScanStep(s, p).deltas == s.deltas + [turn] && ScanStep(s, p).highWater.Some?
    ensures Accumulates(TotalsBefore(ScanStep(s, p).highWater), TotalsBefore(s.highWater), turn)
    ensures CompleteBefore(ScanStep(s, p).highWater) == CompleteBefore(s.highWater)
  {
    assert ReadLast(p) == Some(turn);
  }

  lemma NothingReported(s: Scan, p: Payload)
    requires (p.totalUsage == None || p.totalUsage.value.total == None) && p.lastUsage == None
    ensures ScanStep(s, p) == s
  {
  }

  predicate NoResets(payloads: seq<Payload>) {
    forall i :: 0 <= i < |payloads| ==> !IsReset(payloads[i], ScanAll(payloads[..i]).highWater)
  }

  /** Growth that passed without a delta, summed over the run. */
  function SilentGrowth(payloads: seq<Payload>): int {
    if payloads == [] then 0
    else
      var before, p := ScanAll(payloads[..|payloads| - 1]), payloads[|payloads| - 1];
      SilentGrowth(payloads[..|payloads| - 1])
      + if Emits(before, p) || IsReset(p, before.highWater) then 0 else TotalOf(ScanStep(before, p)) - TotalOf(before)
  }

  /** The rises of the mark, summed over the run; a reset is no rise. */
  function Rises(payloads: seq<Payload>): int {
    if payloads == [] then 0
    else
      var before, p := ScanAll(payloads[..|payloads| - 1]), payloads[|payloads| - 1];
      Rises(payloads[..|payloads| - 1]) + if IsReset(p, before.highWater) then 0 else TotalOf(ScanStep(before, p)) - TotalOf(before)
  }

  /** The per-turn records that came with resets. */
  function ResetRecords(payloads: seq<Payload>): nat {
    if payloads == [] then 0
    else
      var before, p := ScanAll(payloads[..|payloads| - 1]), payloads[|payloads| - 1];
      ResetRecords(payloads[..|payloads| - 1])
      + if IsReset(p, before.highWater) && ReadLast(p).Some? then ReadLast(p).value.total else 0
  }

  lemma ResetEmits(s: Scan, p: Payload)
    requires IsReset(p, s.highWater)
    ensures ScanStep(s, p).deltas == if ReadLast(p).Some? then s.deltas + [ReadLast(p).value] else s.deltas
  {
  }

  /** Over every run, resets included: what was emitted, together with the silent growth, is what the mark rose by
      between resets, together with the per-turn records of the resets. */
  lemma {:induction false} EmittedAccountsForRises(payloads: seq<Payload>)
    ensures SumSeq(ScanAll(payloads).deltas).total + SilentGrowth(payloads) == Rises(payloads) + ResetRecords(payloads)
    ensures SilentGrowth(payloads) >= 0
    decreases |payloads|
  {
    if payloads != [] {
      var most, p := payloads[..|payloads| - 1], payloads[|payloads| - 1];
      var before := ScanAll(most);
      EmittedAccountsForRises(most);
      if IsReset(p, before.highWater) {
        ResetEmits(before, p);
      } else {
        StepAccounts(before, p);
      }
      if Emits(before, p) {
        SumSeqSnoc(before.deltas, AdvanceHighWater(p, before.highWater).value.delta.value);
      }
    }
  }

  predicate NoResetsBetween(payloads: seq<Payload>, start: nat, end: nat)
    requires start <= end <= |payloads|
  {
    forall i :: start <= i < end ==> !IsReset(payloads[i], ScanAll(payloads[..i]).highWater)
  }

  function EmittedBy(payloads: seq<Payload>, n: nat): nat
    requires n <= |payloads|
  {
    SumSeq(ScanAll(payloads[..n]).deltas).total
  }

  /** Between two resets no more is emitted than the mark rises by, wherever the reset before had put it. */
  lemma {:induction false} SegmentNeverExceedsItsRise(payloads: seq<Payload>, start: nat, end: nat)
    requires start <= end <= |payloads| && NoResetsBetween(payloads, start, end)
    ensures 0 <= EmittedBy(payloads, end) - EmittedBy(payloads, start)
              <= TotalOf(ScanAll(payloads[..end])) - TotalOf(ScanAll(payloads[..start]))
    decreases end
  {
    if start < end {
      SegmentNeverExceedsItsRise(payloads, start, end - 1);
      var before, p := ScanAll(payloads[..end - 1]), payloads[end - 1];
      assert payloads[..end][..end - 1] == payloads[..end - 1];
      StepAccounts(before, p);
      if Emits(before, p) {
        SumSeqSnoc(before.deltas, AdvanceHighWater(p, before.highWater).value.delta.value);
      }
    }
  }

  lemma {:induction false} PrefixHasNoResets(payloads: seq<Payload>)
    requires NoResets(payloads) && payloads != []
    ensures NoResets(payloads[..|payloads| - 1])
    ensures !IsReset(payloads[|payloads| - 1], ScanAll(payloads[..|payloads| - 1]).highWater)
  {
    var most := payloads[..|payloads| - 1];
    forall i | 0 <= i < |most|
      ensures !IsReset(most[i], ScanAll(most[..i]).highWater)
    {
      assert most[..i] == payloads[..i] && most[i] == payloads[i];
    }
  }

  lemma {:induction false} RisesReachTheMark(payloads: seq<Payload>)
    requires NoResets(payloads)
    ensures Rises(payloads) == TotalOf(ScanAll(payloads)) && ResetRecords(payloads) == 0
    decreases |payloads|
  {
    if payloads != [] {
      PrefixHasNoResets(payloads);
      RisesReachTheMark(payloads[..|payloads| - 1]);
    }
  }

  /** Without resets, the emitted totals and the silent growth together make up the final mark. */
  lemma DeltasAccountForTheMark(payloads: seq<Payload>)
    requires NoResets(payloads)
    ensures SumSeq(ScanAll(payloads).deltas).total + SilentGrowth(payloads) == TotalOf(ScanAll(payloads))
    ensures SilentGrowth(payloads) >= 0
  {
    EmittedAccountsForRises(payloads);
    RisesReachTheMark(payloads);
  }

  predicate GrowsSilently(payloads: seq<Payload>, i: nat)
    requires i < |payloads|
  {
    !Emits(ScanAll(payloads[..i]), payloads[i]) && TotalOf(ScanAll(payloads[..i + 1])) > TotalOf(ScanAll(payloads[..i]))
  }

  lemma GrowsSilentlyInPrefix(payloads: seq<Payload>, n: nat, i: nat)
    requires i < n <= |payloads|
    ensures GrowsSilently(payloads[..n], i) == GrowsSilently(payloads, i)
  {
    assert payloads[..n][..i] == payloads[..i];
    assert payloads[..n][..i + 1] == payloads[..i + 1];
  }

  lemma LastGrowth(payloads: seq<Payload>)
    requires NoResets(payloads) && payloads != []
    ensures SilentGrowth(payloads) >= SilentGrowth(payloads[..|payloads| - 1])
    ensures SilentGrowth(payloads) == SilentGrowth(payloads[..|payloads| - 1]) <==> !GrowsSilently(payloads, |payloads| - 1)
  {
    PrefixHasNoResets(payloads);
    StepAccounts(ScanAll(payloads[..|payloads| - 1]), payloads[|payloads| - 1]);
    assert payloads[..|payloads|] == payloads;
  }

  predicate QuietUpTo(payloads: seq<Payload>, n: nat)
    requires n <= |payloads|
  {
    forall i :: 0 <= i < n ==> !GrowsSilently(payloads, i)
  }

  lemma QuietPrefix(payloads: seq<Payload>, n: nat)
    requires n <= |payloads|
    ensures QuietUpTo(payloads[..n], n) <==> QuietUpTo(payloads, n)
  {
    forall i | 0 <= i < n
      ensures GrowsSilently(payloads[..n], i) == GrowsSilently(payloads, i)
    {
      GrowsSilentlyInPrefix(payloads, n, i);
    }
  }

  lemma {:induction false} SilenceIsZeroExactlyWhen(payloads: seq<Payload>)
    requires NoResets(payloads)
    ensures SilentGrowth(payloads) >= 0
    ensures SilentGrowth(payloads) == 0 <==> QuietUpTo(payloads, |payloads|)
    decreases |payloads|
  {
    if payloads != [] {
      var n := |payloads| - 1;
      PrefixHasNoResets(payloads);
      SilenceIsZeroExactlyWhen(payloads[..n]);
      LastGrowth(payloads);
      QuietPrefix(payloads, n);
      assert QuietUpTo(payloads, n + 1) <==> QuietUpTo(payloads, n) && !GrowsSilently(payloads, n);
    }
  }

  /** Over a run without counter resets the emitted totals never exceed the final mark, and reach it
      exactly when every growing step emitted a delta. */
  lemma DeltasNeverExceedTheMark(payloads: seq<Payload>)
    requires NoResets(payloads)
    ensures SumSeq(ScanAll(payloads).deltas).total <= TotalOf(ScanAll(payloads))
    ensures SumSeq(ScanAll(payloads).deltas).total == TotalOf(ScanAll(payloads))
            <==> forall i :: 0 <= i < |payloads| ==> !GrowsSilently(payloads, i)
  {
    DeltasAccountForTheMark(payloads);
    SilenceIsZeroExactlyWhen(payloads);
  }

  // ---- Streams of cumulative counters ----

  predicate AllCumulative(payloads: seq<Payload>) {
    forall i :: 0 <= i < |payloads| ==> ReadCumulative(payloads[i]).Some?
  }

  /** The counters reported just before the payload at `i`. */
  function ReportedBefore(payloads: seq<Payload>, i: nat): Totals
    requires AllCumulative(payloads) && i <= |payloads|
  {
    if i == 0 then Zero else ReadCumulative(payloads[i - 1]).value.totals
  }

  /** While every payload reports a cumulative total, the mark's total is the last one reported. */
  lemma MarkIsLastCounter(payloads: seq<Payload>)
    requires AllCumulative(payloads)
    ensures TotalOf(ScanAll(payloads)) == ReportedBefore(payloads, |payloads|).total
  {
  }

  /** ... so such a stream has no resets exactly when the reported total never falls. */
  lemma NoResetsExactlyWhen(payloads: seq<Payload>)
    requires AllCumulative(payloads)
    ensures NoResets(payloads) <==>
            forall i :: 0 <= i < |payloads| ==> ReportedBefore(payloads, i).total <= ReadCumulative(payloads[i]).value.totals.total
  {
    forall i | 0 <= i < |payloads|
      ensures IsReset(payloads[i], ScanAll(payloads[..i]).highWater)
          <==> ReadCumulative(payloads[i]).value.totals.total < ReportedBefore(payloads, i).total
    {
      MarkIsLastCounter(payloads[..i]);
      assert ReportedBefore(payloads[..i], i) == ReportedBefore(payloads, i);
    }
  }

  /** The counters of the record just before the payload at `i`, and zeros before the first one. */
  predicate ShowsBefore(t: Totals, payloads: seq<Payload>, i: nat)
    requires i <= |payloads|
  {
    if i == 0 then Shows(t, RawUsage(Some(0), Some(0), Some(0), Some(0), Some(0)))
    else payloads[i - 1].totalUsage.Some? && Shows(t, payloads[i - 1].totalUsage.value)
  }

  /** These are the counters reported before, and the record at `i` repeats them or grows coherently from them. */
  predicate Continues(payloads: seq<Payload>, i: nat, before: Totals)
    requires i < |payloads| && payloads[i].totalUsage.Some?
  {
    && ShowsBefore(before, payloads, i)
    && (Shows(before, payloads[i].totalUsage.value) || GrowsFrom(payloads[i].totalUsage.value, before))
  }

  /** Every payload carries a complete cumulative record that repeats the one reported before or grows coherently
      from it. */
  ghost predicate CoherentStream(payloads: seq<Payload>) {
    forall i :: 0 <= i < |payloads| ==>
      && payloads[i].totalUsage.Some? && Complete(payloads[i].totalUsage.value)
      && exists before :: Continues(payloads, i, before)
  }

  /** The same, in terms of the counters as they are read. */
  predicate CoherentCounters(payloads: seq<Payload>) {
    && AllCumulative(payloads)
    && forall i :: 0 <= i < |payloads| ==>
         var c := ReadCumulative(payloads[i]).value;
         c.complete && (c.totals == ReportedBefore(payloads, i) || Coherent(c.totals, ReportedBefore(payloads, i)))
  }

  lemma CoherentStreamIsRead(payloads: seq<Payload>)
    requires CoherentStream(payloads)
    ensures CoherentCounters(payloads)
    ensures payloads != [] ==> Shows(ReportedBefore(payloads, |payloads|), payloads[|payloads| - 1].totalUsage.value)
  {
    forall i | 0 <= i < |payloads|
      ensures ReadCumulative(payloads[i]).Some? && ReadCumulative(payloads[i]).value.complete
      ensures Shows(ReadCumulative(payloads[i]).value.totals, payloads[i].totalUsage.value)
    {
    }
    forall i | 0 <= i < |payloads|
      ensures var c := ReadCumulative(payloads[i]).value.totals;
              c == ReportedBefore(payloads, i) || Coherent(c, ReportedBefore(payloads, i))
    {
      var before :| Continues(payloads, i, before);
      assert before == ReportedBefore(payloads, i);
    }
  }

  /** One coherent step keeps the exact balance in all five components. */
  lemma CoherentStepIsExact(s: Scan, p: Payload)
    requires ReadCumulative(p).Some? && ReadCumulative(p).value.complete && CompleteBefore(s.highWater)
    requires || ReadCumulative(p).value.totals == TotalsBefore(s.highWater)
             || Coherent(ReadCumulative(p).value.totals, TotalsBefore(s.highWater))
    requires SumSeq(s.deltas) == TotalsBefore(s.highWater)
    ensures SumSeq(ScanStep(s, p).deltas) == TotalsBefore(ScanStep(s, p).highWater) == ReadCumulative(p).value.totals
    ensures CompleteBefore(ScanStep(s, p).highWater)
  {
    var c := ReadCumulative(p).value.totals;
    if c != TotalsBefore(s.highWater) {
      SumSeqSnoc(s.deltas, Subtract(c, TotalsBefore(s.highWater)).value);
    }
  }

  lemma CoherentPrefix(payloads: seq<Payload>)
    requires CoherentCounters(payloads) && payloads != []
    ensures var n := |payloads| - 1;
            CoherentCounters(payloads[..n]) && ReportedBefore(payloads[..n], n) == ReportedBefore(payloads, n)
    ensures var c := ReadCumulative(payloads[|payloads| - 1]);
            && c.Some? && c.value.complete && c.value.totals == ReportedBefore(payloads, |payloads|)
            && (c.value.totals == ReportedBefore(payloads, |payloads| - 1)
                || Coherent(c.value.totals, ReportedBefore(payloads, |payloads| - 1)))
  {
    var most := payloads[..|payloads| - 1];
    forall i | 0 <= i < |most|
      ensures most[i] == payloads[i] && ReadCumulative(most[i]).Some?
    {
    }
    forall i | 0 <= i <= |most|
      ensures ReportedBefore(most, i) == ReportedBefore(payloads, i)
    {
    }
  }

  /** The deltas so far sum to these counters, and so does a complete mark. */
  predicate Exact(s: Scan, counters: Totals) {
    SumSeq(s.deltas) == counters && TotalsBefore(s.highWater) == counters && CompleteBefore(s.highWater)
  }

  lemma ExactStep(s: Scan, p: Payload, before: Totals)
    requires Exact(s, before) && ReadCumulative(p).Some? && ReadCumulative(p).value.complete
    requires ReadCumulative(p).value.totals == before || Coherent(ReadCumulative(p).value.totals, before)
    ensures Exact(ScanStep(s, p), ReadCumulative(p).value.totals)
  {
    CoherentStepIsExact(s, p);
  }

  lemma {:induction false} StaysExact(payloads: seq<Payload>)
    requires CoherentCounters(payloads)
    ensures Exact(ScanAll(payloads), ReportedBefore(payloads, |payloads|))
    decreases |payloads|
  {
    if payloads != [] {
      var n := |payloads| - 1;
      CoherentPrefix(payloads);
      StaysExact(payloads[..n]);
      ExactStep(ScanAll(payloads[..n]), payloads[n], ReportedBefore(payloads, n));
    }
  }

  /** For coherent complete streams the deltas sum to the counters of the last record, one by one. */
  lemma CoherentStreamIsExact(payloads: seq<Payload>)
    requires CoherentStream(payloads) && payloads != []
    ensures Shows(SumSeq(ScanAll(payloads).deltas), payloads[|payloads| - 1].totalUsage.value)
    ensures Shows(TotalsBefore(ScanAll(payloads).highWater), payloads[|payloads| - 1].totalUsage.value)
    ensures CompleteBefore(ScanAll(payloads).highWater)
  {
    CoherentStreamIsRead(payloads);
    StaysExact(payloads);
  }

  /** An adjacent duplicate of any cumulative snapshot emits nothing and leaves the state unchanged,
      whatever came before it: resets and incomplete records included. */
  lemma DuplicateIsSilent(s: Scan, p: Payload)
    requires ReadCumulative(p).Some?
    ensures ScanStep(ScanStep(s, p), p) == ScanStep(s, p)
  {
    var once := ScanStep(s, p);
    assert TotalOf(once) == ReadCumulative(p).value.totals.total;
  }

  /** Repeating a payload is silent exactly when it reports a cumulative total, or no usage at all. */
  lemma DuplicateIsSilentExactlyWhen(s: Scan, p: Payload)
    ensures ScanStep(ScanStep(s, p), p) == ScanStep(s, p) <==> ReadCumulative(p).Some? || ReadLast(p) == None
  {
    if ReadCumulative(p).Some? {
      DuplicateIsSilent(s, p);
    } else if ReadLast(p).Some? {
      PerTurnRecordCountsTwice(s, p);
      assert |ScanStep(ScanStep(s, p), p).deltas| == |s.deltas| + 2;
    }
  }

  /** A payload with only a per-turn record is counted again when it is repeated. */
  lemma PerTurnRecordCountsTwice(s: Scan, p: Payload)
    requires ReadCumulative(p) == None && ReadLast(p).Some?
    ensures ScanStep(ScanStep(s, p), p).deltas == s.deltas + [ReadLast(p).value, ReadLast(p).value]
    ensures TotalOf(ScanStep(ScanStep(s, p), p)) == TotalOf(s) + 2 * ReadLast(p).value.total
  {
  }

  /** After a reset the mark restarts at the reported counters, or at the total alone when they are incomplete, and what
      is emitted is the per-turn record alone. */
  lemma ResetRestarts(s: Scan, p: Payload, total: nat)
    requires Reports(p, total) && total < TotalOf(s)
    ensures TotalOf(ScanStep(s, p)) == total
    ensures var after := ScanStep(s, p).highWater;
            && after.Some? && (after.value.complete <==> Complete(p.totalUsage.value))
            && if Complete(p.totalUsage.value) then Shows(after.value.totals, p.totalUsage.value) else ShowsOnlyTotal(after.value.totals, total)
    ensures p.lastUsage == None ==> ScanStep(s, p).deltas == s.deltas
    ensures p.lastUsage.Some? ==>
              var deltas := ScanStep(s, p).deltas;
              |deltas| == |s.deltas| + 1 && deltas[..|s.deltas|] == s.deltas && Shows(deltas[|s.deltas|], p.lastUsage.value)
  {
  }
}
