/** Separating a spawned subagent's own token usage from the history it inherited
    (src/services/localUsageAnalytics.ts, the event loop of scanLocalUsageSessionsInternal). */
module SubagentClassifier {
  import opened Wrappers
  import opened UsageTotals
  import opened TokenHighWater
  import LifetimeWindows

  const DETECTION_WINDOW_MS := 1_000
  const MIN_TOKEN_EVENTS := 16
  const UNKNOWN_MODEL := "unknown"

  /** One parsed line of a session file. Lines that cannot affect usage are Other. */
  datatype Event =
    | SessionMeta(subagent: bool, startupAt: Option<int>)
    | Communication(triggerTurn: bool)
    | TaskStarted
    | TurnContext(model: Option<string>)
    | TokenCount(payload: Payload, timestamp: Option<int>, quotaWindows: seq<LifetimeWindows.Key>)
    | Other

  datatype Observation = Observation(usage: Totals, timestamp: int, model: string, quotaWindows: seq<LifetimeWindows.Key>)

  // ---- First pass: read the file into marks and observations ----

  datatype Mark = Meta(subagent: bool, startupAt: Option<int>) | Trigger | Started | Context | Usage(observation: Observation)

  datatype Reading = Reading(highWater: Option<HighWater>, model: string, marks: seq<Mark>)

  /** `relevant` says whether a timestamp is not in the future and falls into some scanned window. */
  function ReadStep(r: Reading, e: Event, relevant: int -> bool): Reading {
    match e
    case SessionMeta(subagent, startupAt) => r.(marks := r.marks + [Meta(subagent, startupAt)])
    case Communication(triggerTurn) => if triggerTurn then r.(marks := r.marks + [Trigger]) else r
    case TaskStarted => r.(marks := r.marks + [Started])
    case TurnContext(model) => r.(marks := r.marks + [Context], model := if model.Some? then model.value else r.model)
    case TokenCount(payload, timestamp, quotaWindows) =>
      ReadAdvance(r, AdvanceHighWater(payload, r.highWater), timestamp, quotaWindows, relevant)
    case Other => r
  }

  function ReadAdvance(r: Reading, advance: Option<Advance>, timestamp: Option<int>, quotaWindows: seq<LifetimeWindows.Key>,
                       relevant: int -> bool): Reading
  {
    if advance == None then r
    else
      var r := r.(highWater := Some(advance.value.highWater));
      if advance.value.delta == None || timestamp == None || !relevant(timestamp.value) then r
      else r.(marks := r.marks + [Usage(Observation(advance.value.delta.value, timestamp.value, r.model, quotaWindows))])
  }

  function ReadAll(events: seq<Event>, relevant: int -> bool): Reading {
    if events == [] then Reading(None, UNKNOWN_MODEL, [])
    else ReadStep(ReadAll(events[..|events| - 1], relevant), events[|events| - 1], relevant)
  }

  function Usages(marks: seq<Mark>): seq<Observation> {
    if marks == [] then []
    else
      var last := marks[|marks| - 1];
      Usages(marks[..|marks| - 1]) + if last.Usage? then [last.observation] else []
  }

  // ---- Second pass: find where the child's own usage begins, and cut there ----

  predicate StartedBefore(rest: seq<Mark>, already: bool, i: nat)
    requires i <= |rest|
  {
    already || exists j :: 0 <= j < i && rest[j].Started?
  }

  /** Inside the window right after the child was spawned, where copied history shows up. */
  predicate InStartupWindow(o: Observation, startupAt: Option<int>) {
    startupAt.Some? && 0 <= o.timestamp - startupAt.value <= DETECTION_WINDOW_MS
  }

  /** The child's own usage begins: an explicit trigger, or usage outside the startup window before
      any task was started. */
  predicate OpensAt(rest: seq<Mark>, already: bool, startupAt: Option<int>, i: nat)
    requires i < |rest|
  {
    || rest[i].Trigger?
    || (rest[i].Usage? && !InStartupWindow(rest[i].observation, startupAt) && !StartedBefore(rest, already, i))
  }

  predicate BoundaryAt(rest: seq<Mark>, already: bool, i: nat)
    requires i < |rest|
  {
    rest[i].Context? && StartedBefore(rest, already, i)
  }

  /** The first index that opens the session, or the length. */
  function FirstOpening(rest: seq<Mark>, already: bool, startupAt: Option<int>, from: nat): (i: nat)
    requires from <= |rest|
    ensures from <= i <= |rest|
    ensures i < |rest| ==> OpensAt(rest, already, startupAt, i)
    ensures forall j :: from <= j < i ==> !OpensAt(rest, already, startupAt, j)
    decreases |rest| - from
  {
    if from == |rest| || OpensAt(rest, already, startupAt, from) then from
    else FirstOpening(rest, already, startupAt, from + 1)
  }

  /** The first task_started then turn_context boundary, or the length. */
  function FirstBoundary(rest: seq<Mark>, already: bool, from: nat): (i: nat)
    requires from <= |rest|
    ensures from <= i <= |rest|
    ensures i < |rest| ==> BoundaryAt(rest, already, i)
    ensures forall j :: from <= j < i ==> !BoundaryAt(rest, already, j)
    decreases |rest| - from
  {
    if from == |rest| || BoundaryAt(rest, already, from) then from
    else FirstBoundary(rest, already, from + 1)
  }

  /** A startup burst is kept whole below 16 events and dropped whole otherwise. */
  function Burst(observations: seq<Observation>): seq<Observation> {
    if |observations| < MIN_TOKEN_EVENTS then observations else []
  }

  /** What a spawned session keeps of the marks after its first session record. */
  function KeptOfChild(rest: seq<Mark>, already: bool, startupAt: Option<int>): seq<Observation> {
    var opening := FirstOpening(rest, already, startupAt, 0);
    if opening < |rest| then
      (if rest[opening].Trigger? then [] else Burst(Usages(rest[..opening]))) + Usages(rest[opening..])
    else if !StartedBefore(rest, already, |rest|) then Burst(Usages(rest))
    else Usages(rest[FirstBoundary(rest, already, 0)..])
  }

  function FirstMeta(marks: seq<Mark>, from: nat): (i: nat)
    requires from <= |marks|
    ensures from <= i <= |marks|
    ensures i < |marks| ==> marks[i].Meta?
    ensures forall j :: from <= j < i ==> !marks[j].Meta?
    decreases |marks| - from
  {
    if from == |marks| || marks[from].Meta? then from else FirstMeta(marks, from + 1)
  }

  function Kept(marks: seq<Mark>): seq<Observation> {
    var meta := FirstMeta(marks, 0);
    if meta == |marks| || !marks[meta].subagent then Usages(marks)
    else
      Usages(marks[..meta])
      + KeptOfChild(marks[meta + 1..], StartedBefore(marks, false, meta), marks[meta].startupAt)
  }

  /** What is kept of a file that could not be read further: nothing of a spawned session that has not opened. */
  function KeptWhenCut(marks: seq<Mark>): seq<Observation> {
    var meta := FirstMeta(marks, 0);
    if meta == |marks| || !marks[meta].subagent then Usages(marks)
    else
      var rest, already, startupAt := marks[meta + 1..], StartedBefore(marks, false, meta), marks[meta].startupAt;
      Usages(marks[..meta]) + if FirstOpening(rest, already, startupAt, 0) < |rest| then KeptOfChild(rest, already, startupAt) else []
  }

  function KeptOfFile(marks: seq<Mark>, complete: bool): seq<Observation> {
    if complete then Kept(marks) else KeptWhenCut(marks)
  }

  // ---- The one-pass classifier, one mark at a time ----

  datatype Pending = Pending(observation: Observation, afterBoundary: bool)

  datatype State = State(
    metaSeen: bool, shouldCount: bool, subagent: bool, started: bool, boundary: bool,
    startupAt: Option<int>, startupEvents: nat, pending: seq<Pending>, recorded: seq<Observation>)

  const Fresh := State(false, true, false, false, false, None, 0, [], [])

  function Observations(pending: seq<Pending>): seq<Observation> {
    seq(|pending|, i requires 0 <= i < |pending| => pending[i].observation)
  }

  function AfterBoundary(pending: seq<Pending>): seq<Observation> {
    if pending == [] then []
    else
      var last := pending[|pending| - 1];
      AfterBoundary(pending[..|pending| - 1]) + if last.afterBoundary then [last.observation] else []
  }

  function UsageStep(s: State, o: Observation): State {
    var entry := Pending(o, s.boundary);
    if s.subagent && !s.shouldCount && !s.started && !s.boundary then
      if InStartupWindow(o, s.startupAt) then
        s.(startupEvents := s.startupEvents + 1,
           pending := if s.startupEvents + 1 < MIN_TOKEN_EVENTS then s.pending + [entry] else [])
      else
        s.(shouldCount := true, pending := [],
           recorded := s.recorded + (if s.startupEvents < MIN_TOKEN_EVENTS then Observations(s.pending) else []) + [o])
    else if !s.shouldCount then s.(pending := s.pending + [entry])
    else s.(recorded := s.recorded + [o])
  }

  function MarkStep(s: State, m: Mark): State {
    match m
    case Meta(subagent, startupAt) =>
      if s.metaSeen then s
      else s.(metaSeen := true, subagent := subagent, shouldCount := !subagent,
              startupAt := if subagent then startupAt else s.startupAt)
    case Trigger => s.(shouldCount := true, pending := if s.subagent then [] else s.pending)
    case Started => s.(started := true)
    case Context => s.(boundary := s.boundary || (s.subagent && !s.shouldCount && s.started))
    case Usage(o) => UsageStep(s, o)
  }

  function OnePass(marks: seq<Mark>): State {
    if marks == [] then Fresh
    else MarkStep(OnePass(marks[..|marks| - 1]), marks[|marks| - 1])
  }

  function Flush(s: State): seq<Observation> {
    if s.subagent && !s.shouldCount then
      if s.boundary then s.recorded + AfterBoundary(s.pending)
      else if !s.started then s.recorded + Observations(s.pending)
      else s.recorded
    else s.recorded
  }

  // ---- One pass equals two passes ----

  ghost predicate TracksOpen(s: State, startupAt: Option<int>, started: bool, recorded: seq<Observation>) {
    && s.metaSeen && s.subagent && s.startupAt == startupAt && s.started == started
    && s.shouldCount && s.pending == [] && s.recorded == recorded
  }

  ghost predicate TracksClosed(s: State, startupAt: Option<int>, started: bool, kept: seq<Observation>,
                               usages: seq<Observation>, boundary: bool, afterBoundary: seq<Observation>) {
    && s.metaSeen && s.subagent && s.startupAt == startupAt && s.started == started
    && !s.shouldCount && s.recorded == kept
    && s.boundary == boundary && AfterBoundary(s.pending) == afterBoundary
    && (!started ==> s.startupEvents == |usages| && Observations(s.pending) == Burst(usages))
  }

  /** What the loop knows about a spawned session after the marks `rest`. */
  ghost predicate TracksChild(s: State, kept: seq<Observation>, rest: seq<Mark>, already: bool, startupAt: Option<int>) {
    var started := StartedBefore(rest, already, |rest|);
    if FirstOpening(rest, already, startupAt, 0) < |rest| then
      TracksOpen(s, startupAt, started, kept + KeptOfChild(rest, already, startupAt))
    else
      var boundary := FirstBoundary(rest, already, 0);
      TracksClosed(s, startupAt, started, kept, Usages(rest), boundary < |rest|, Usages(rest[boundary..]))
  }

  ghost predicate Tracks(s: State, marks: seq<Mark>) {
    var meta := FirstMeta(marks, 0);
    if meta == |marks| then
      !s.metaSeen && s.shouldCount && !s.subagent && !s.boundary && s.pending == [] && s.startupEvents == 0
      && s.started == StartedBefore(marks, false, |marks|) && s.recorded == Usages(marks)
    else if !marks[meta].subagent then
      s.metaSeen && !s.subagent && s.shouldCount && s.pending == [] && s.recorded == Usages(marks)
    else
      TracksChild(s, Usages(marks[..meta]), marks[meta + 1..], StartedBefore(marks, false, meta), marks[meta].startupAt)
  }

  function Taken(m: Mark): seq<Observation> {
    if m.Usage? then [m.observation] else []
  }

  lemma UsagesSnoc(marks: seq<Mark>, m: Mark)
    ensures Usages(marks + [m]) == Usages(marks) + Taken(m)
  {
    assert (marks + [m])[..|marks|] == marks;
  }

  lemma UsagesFromSnoc(marks: seq<Mark>, m: Mark, from: nat)
    requires from <= |marks|
    ensures Usages((marks + [m])[from..]) == Usages(marks[from..]) + Taken(m)
  {
    assert (marks + [m])[from..] == marks[from..] + [m];
    UsagesSnoc(marks[from..], m);
  }

  lemma StartedSnoc(rest: seq<Mark>, m: Mark, already: bool, i: nat)
    requires i <= |rest|
    ensures StartedBefore(rest + [m], already, i) == StartedBefore(rest, already, i)
    ensures StartedBefore(rest + [m], already, |rest| + 1) == (StartedBefore(rest, already, |rest|) || m.Started?)
  {
    var longer := rest + [m];
    assert forall j :: 0 <= j < |rest| ==> longer[j] == rest[j];
    assert longer[|rest|] == m;
  }

  lemma OpeningSnoc(rest: seq<Mark>, m: Mark, already: bool, startupAt: Option<int>)
    ensures FirstOpening(rest + [m], already, startupAt, 0) ==
            if FirstOpening(rest, already, startupAt, 0) < |rest| then FirstOpening(rest, already, startupAt, 0)
            else if OpensAt(rest + [m], already, startupAt, |rest|) then |rest| else |rest| + 1
  {
    forall i: nat | i < |rest|
      ensures OpensAt(rest + [m], already, startupAt, i) == OpensAt(rest, already, startupAt, i)
    {
      StartedSnoc(rest, m, already, i);
    }
  }

  lemma BoundarySnoc(rest: seq<Mark>, m: Mark, already: bool)
    ensures FirstBoundary(rest + [m], already, 0) ==
            if FirstBoundary(rest, already, 0) < |rest| then FirstBoundary(rest, already, 0)
            else if BoundaryAt(rest + [m], already, |rest|) then |rest| else |rest| + 1
  {
    forall i: nat | i < |rest|
      ensures BoundaryAt(rest + [m], already, i) == BoundaryAt(rest, already, i)
    {
      StartedSnoc(rest, m, already, i);
    }
  }

  lemma PendingSnoc(pending: seq<Pending>, entry: Pending)
    ensures Observations(pending + [entry]) == Observations(pending) + [entry.observation]
    ensures AfterBoundary(pending + [entry]) == AfterBoundary(pending) + if entry.afterBoundary then [entry.observation] else []
  {
    assert (pending + [entry])[..|pending|] == pending;
  }

  lemma OpenMark(s: State, startupAt: Option<int>, started: bool, recorded: seq<Observation>, m: Mark)
    requires TracksOpen(s, startupAt, started, recorded)
    ensures TracksOpen(MarkStep(s, m), startupAt, started || m.Started?, recorded + Taken(m))
  {
  }

  lemma KeptGrows(rest: seq<Mark>, already: bool, startupAt: Option<int>, m: Mark)
    requires FirstOpening(rest, already, startupAt, 0) < |rest|
    ensures KeptOfChild(rest + [m], already, startupAt) == KeptOfChild(rest, already, startupAt) + Taken(m)
  {
    var opening := FirstOpening(rest, already, startupAt, 0);
    OpeningSnoc(rest, m, already, startupAt);
    UsagesFromSnoc(rest, m, opening);
    assert (rest + [m])[..opening] == rest[..opening] && (rest + [m])[opening] == rest[opening];
    var burst := if rest[opening].Trigger? then [] else Burst(Usages(rest[..opening]));
    assert burst + (Usages(rest[opening..]) + Taken(m)) == burst + Usages(rest[opening..]) + Taken(m);
  }

  /** Once open, a spawned session records everything that follows. */
  lemma OpenStep(s: State, kept: seq<Observation>, rest: seq<Mark>, already: bool, startupAt: Option<int>, m: Mark)
    requires TracksChild(s, kept, rest, already, startupAt)
    requires FirstOpening(rest, already, startupAt, 0) < |rest|
    ensures TracksChild(MarkStep(s, m), kept, rest + [m], already, startupAt)
  {
    OpeningSnoc(rest, m, already, startupAt);
    StartedSnoc(rest, m, already, |rest|);
    var before := KeptOfChild(rest, already, startupAt);
    OpenMark(s, startupAt, StartedBefore(rest, already, |rest|), kept + before, m);
    KeptGrows(rest, already, startupAt, m);
    assert kept + before + Taken(m) == kept + (before + Taken(m));
  }

  lemma OpeningMark(s: State, startupAt: Option<int>, started: bool, kept: seq<Observation>, usages: seq<Observation>,
                    boundary: bool, after: seq<Observation>, m: Mark)
    requires TracksClosed(s, startupAt, started, kept, usages, boundary, after)
    requires boundary ==> started
    requires m.Trigger? || (m.Usage? && !started && !InStartupWindow(m.observation, startupAt))
    ensures TracksOpen(MarkStep(s, m), startupAt, started, kept + ((if m.Trigger? then [] else Burst(usages)) + Taken(m)))
  {
    if m.Usage? {
      assert kept + Burst(usages) + [m.observation] == kept + (Burst(usages) + [m.observation]);
    }
  }

  /** What an opening mark leaves of everything before it. */
  lemma KeptAtOpening(rest: seq<Mark>, already: bool, startupAt: Option<int>, m: Mark)
    requires FirstOpening(rest, already, startupAt, 0) == |rest|
    requires OpensAt(rest + [m], already, startupAt, |rest|)
    ensures KeptOfChild(rest + [m], already, startupAt) == (if m.Trigger? then [] else Burst(Usages(rest))) + Taken(m)
  {
    OpeningSnoc(rest, m, already, startupAt);
    assert (rest + [m])[..|rest|] == rest && (rest + [m])[|rest|] == m;
    assert (rest + [m])[|rest|..] == [] + [m];
    UsagesSnoc([], m);
  }

  /** The mark that opens a spawned session. */
  lemma OpeningStep(s: State, kept: seq<Observation>, rest: seq<Mark>, already: bool, startupAt: Option<int>, m: Mark)
    requires TracksChild(s, kept, rest, already, startupAt)
    requires FirstOpening(rest, already, startupAt, 0) == |rest|
    requires OpensAt(rest + [m], already, startupAt, |rest|)
    ensures TracksChild(MarkStep(s, m), kept, rest + [m], already, startupAt)
  {
    OpeningSnoc(rest, m, already, startupAt);
    StartedSnoc(rest, m, already, |rest|);
    BoundaryNeedsStart(rest, already);
    assert (rest + [m])[|rest|] == m;
    var boundary := FirstBoundary(rest, already, 0);
    OpeningMark(s, startupAt, StartedBefore(rest, already, |rest|), kept, Usages(rest), boundary < |rest|,
                Usages(rest[boundary..]), m);
    KeptAtOpening(rest, already, startupAt, m);
  }

  lemma BoundaryNeedsStart(rest: seq<Mark>, already: bool)
    ensures FirstBoundary(rest, already, 0) < |rest| ==> StartedBefore(rest, already, |rest|)
  {
  }

  lemma ClosedMark(s: State, startupAt: Option<int>, started: bool, kept: seq<Observation>, usages: seq<Observation>,
                   boundary: bool, after: seq<Observation>, m: Mark)
    requires TracksClosed(s, startupAt, started, kept, usages, boundary, after)
    requires boundary ==> started
    requires !m.Trigger? && !(m.Usage? && !started && !InStartupWindow(m.observation, startupAt))
    requires !boundary ==> after == []
    ensures TracksClosed(MarkStep(s, m), startupAt, started || m.Started?, kept, usages + Taken(m),
                         boundary || (m.Context? && started), after + if boundary then Taken(m) else [])
  {
    assert usages + [] == usages && after + [] == after;
    match m {
      case Usage(o) =>
        PendingSnoc(s.pending, Pending(o, s.boundary));
        assert Observations([]) == [] && AfterBoundary([]) == [];
      case Meta(_, _) =>
      case Trigger =>
      case Started =>
      case Context =>
    }
  }

  /** A mark that leaves a spawned session unopened. */
  lemma ClosedStep(s: State, kept: seq<Observation>, rest: seq<Mark>, already: bool, startupAt: Option<int>, m: Mark)
    requires TracksChild(s, kept, rest, already, startupAt)
    requires FirstOpening(rest, already, startupAt, 0) == |rest|
    requires !OpensAt(rest + [m], already, startupAt, |rest|)
    ensures TracksChild(MarkStep(s, m), kept, rest + [m], already, startupAt)
  {
    OpeningSnoc(rest, m, already, startupAt);
    StartedSnoc(rest, m, already, |rest|);
    BoundaryNeedsStart(rest, already);
    UsagesSnoc(rest, m);
    assert (rest + [m])[|rest|] == m;
    var boundary := FirstBoundary(rest, already, 0);
    assert rest[|rest|..] == [];
    ClosedMark(s, startupAt, StartedBefore(rest, already, |rest|), kept, Usages(rest), boundary < |rest|,
               Usages(rest[boundary..]), m);
    AfterBoundarySnoc(rest, already, m);
  }

  lemma AfterBoundarySnoc(rest: seq<Mark>, already: bool, m: Mark)
    ensures var boundary, longer := FirstBoundary(rest, already, 0), rest + [m];
            && (FirstBoundary(longer, already, 0) < |longer|
                <==> boundary < |rest| || (m.Context? && StartedBefore(rest, already, |rest|)))
            && Usages(longer[FirstBoundary(longer, already, 0)..])
               == Usages(rest[boundary..]) + if boundary < |rest| then Taken(m) else []
  {
    var boundary, longer := FirstBoundary(rest, already, 0), rest + [m];
    BoundarySnoc(rest, m, already);
    StartedSnoc(rest, m, already, |rest|);
    assert longer[|rest|] == m && rest[|rest|..] == [] && longer[|rest| + 1..] == [];
    UsagesFromSnoc(rest, m, boundary);
  }

  lemma ChildStep(s: State, kept: seq<Observation>, rest: seq<Mark>, already: bool, startupAt: Option<int>, m: Mark)
    requires TracksChild(s, kept, rest, already, startupAt)
    ensures TracksChild(MarkStep(s, m), kept, rest + [m], already, startupAt)
  {
    if FirstOpening(rest, already, startupAt, 0) < |rest| {
      OpenStep(s, kept, rest, already, startupAt, m);
    } else if OpensAt(rest + [m], already, startupAt, |rest|) {
      OpeningStep(s, kept, rest, already, startupAt, m);
    } else {
      ClosedStep(s, kept, rest, already, startupAt, m);
    }
  }

  lemma MetaSnoc(marks: seq<Mark>, m: Mark)
    ensures FirstMeta(marks + [m], 0) ==
            if FirstMeta(marks, 0) < |marks| then FirstMeta(marks, 0) else if m.Meta? then |marks| else |marks| + 1
  {
    assert forall i :: 0 <= i < |marks| ==> (marks + [m])[i] == marks[i];
    assert (marks + [m])[|marks|] == m;
  }

  /** Steps of a session that is not, or not yet, known to be spawned. */
  lemma OrdinaryStep(s: State, marks: seq<Mark>, m: Mark)
    requires Tracks(s, marks)
    requires FirstMeta(marks, 0) < |marks| ==> !marks[FirstMeta(marks, 0)].subagent
    requires FirstMeta(marks, 0) == |marks| ==> !m.Meta?
    ensures Tracks(MarkStep(s, m), marks + [m])
  {
    MetaSnoc(marks, m);
    UsagesSnoc(marks, m);
    StartedSnoc(marks, m, false, |marks|);
    assert FirstMeta(marks, 0) < |marks| ==> (marks + [m])[FirstMeta(marks, 0)] == marks[FirstMeta(marks, 0)];
    assert (marks + [m])[|marks|] == m;
  }

  /** The first session record decides whether the session was spawned. */
  lemma MetaStep(s: State, marks: seq<Mark>, m: Mark)
    requires Tracks(s, marks)
    requires FirstMeta(marks, 0) == |marks| && m.Meta?
    ensures Tracks(MarkStep(s, m), marks + [m])
  {
    MetaSnoc(marks, m);
    UsagesSnoc(marks, m);
    StartedSnoc(marks, m, false, |marks|);
    var longer := marks + [m];
    assert longer[|marks|] == m && longer[..|marks|] == marks && longer[|marks| + 1..] == [];
    assert Observations([]) == [];
  }

  lemma SpawnedTracks(s: State, marks: seq<Mark>, meta: nat, rest: seq<Mark>)
    requires meta == FirstMeta(marks, 0) < |marks| && marks[meta].subagent
    requires rest == marks[meta + 1..]
    ensures Tracks(s, marks)
        <==> TracksChild(s, Usages(marks[..meta]), rest, StartedBefore(marks, false, meta), marks[meta].startupAt)
  {
  }

  lemma AfterMetaSnoc(marks: seq<Mark>, m: Mark, meta: nat)
    requires meta == FirstMeta(marks, 0) < |marks|
    ensures FirstMeta(marks + [m], 0) == meta && (marks + [m])[meta] == marks[meta]
    ensures (marks + [m])[..meta] == marks[..meta] && (marks + [m])[meta + 1..] == marks[meta + 1..] + [m]
    ensures StartedBefore(marks + [m], false, meta) == StartedBefore(marks, false, meta)
  {
    MetaSnoc(marks, m);
    StartedSnoc(marks, m, false, meta);
  }

  lemma SpawnedStep(s: State, next: State, marks: seq<Mark>, m: Mark, meta: nat)
    requires Tracks(s, marks)
    requires meta == FirstMeta(marks, 0) < |marks| && marks[meta].subagent
    requires next == MarkStep(s, m)
    ensures Tracks(next, marks + [m])
  {
    var rest, kept := marks[meta + 1..], Usages(marks[..meta]);
    SpawnedTracks(s, marks, meta, rest);
    ChildStep(s, kept, rest, StartedBefore(marks, false, meta), marks[meta].startupAt, m);
    AfterMetaSnoc(marks, m, meta);
    SpawnedTracks(next, marks + [m], meta, rest + [m]);
  }

  lemma StepTracks(s: State, marks: seq<Mark>, m: Mark)
    requires Tracks(s, marks)
    ensures Tracks(MarkStep(s, m), marks + [m])
  {
    var meta := FirstMeta(marks, 0);
    if meta == |marks| && m.Meta? {
      MetaStep(s, marks, m);
    } else if meta == |marks| || !marks[meta].subagent {
      OrdinaryStep(s, marks, m);
    } else {
      SpawnedStep(s, MarkStep(s, m), marks, m, meta);
    }
  }

  lemma {:induction false} OnePassTracks(marks: seq<Mark>)
    ensures Tracks(OnePass(marks), marks)
  {
    if marks == [] {
    } else {
      var before, m := marks[..|marks| - 1], marks[|marks| - 1];
      assert marks == before + [m];
      OnePassTracks(before);
      StepTracks(OnePass(before), before, m);
    }
  }

  lemma FlushOfChild(s: State, kept: seq<Observation>, rest: seq<Mark>, already: bool, startupAt: Option<int>)
    requires TracksChild(s, kept, rest, already, startupAt)
    ensures Flush(s) == kept + KeptOfChild(rest, already, startupAt)
  {
    BoundaryNeedsStart(rest, already);
    assert rest[|rest|..] == [] && rest[..|rest|] == rest;
  }

  /** The one-pass classifier records exactly what the two-pass specification keeps. */
  lemma OnePassIsTwoPass(marks: seq<Mark>)
    ensures Flush(OnePass(marks)) == Kept(marks)
  {
    OnePassTracks(marks);
    var s, meta := OnePass(marks), FirstMeta(marks, 0);
    if meta < |marks| && marks[meta].subagent {
      var rest, already := marks[meta + 1..], StartedBefore(marks, false, meta);
      SpawnedTracks(s, marks, meta, rest);
      FlushOfChild(s, Usages(marks[..meta]), rest, already, marks[meta].startupAt);
    }
  }

  /** ... also when reading fails: what was recorded until then is what the specification keeps of a cut file. */
  lemma OnePassIsTwoPassWhenCut(marks: seq<Mark>)
    ensures OnePass(marks).recorded == KeptWhenCut(marks)
  {
    OnePassTracks(marks);
    var s, meta := OnePass(marks), FirstMeta(marks, 0);
    if meta < |marks| && marks[meta].subagent {
      SpawnedTracks(s, marks, meta, marks[meta + 1..]);
      assert Usages(marks[..meta]) + [] == Usages(marks[..meta]);
    }
  }

  /** A failure to read on only loses what would have been recorded last. */
  lemma CutKeepsPrefix(marks: seq<Mark>)
    ensures KeptWhenCut(marks) <= Kept(marks)
  {
    OnePassIsTwoPass(marks);
    OnePassIsTwoPassWhenCut(marks);
  }

  // ---- What classification can drop ----

  lemma {:induction false} UsagesConcat(a: seq<Mark>, b: seq<Mark>)
    ensures Usages(a + b) == Usages(a) + Usages(b)
  {
    if b == [] {
      assert a + b == a;
    } else {
      var init, m := b[..|b| - 1], b[|b| - 1];
      UsagesConcat(a, init);
      assert a + b == (a + init) + [m] && b == init + [m];
      UsagesOfThree(a, init, m);
    }
  }

  lemma UsagesOfThree(a: seq<Mark>, init: seq<Mark>, m: Mark)
    requires Usages(a + init) == Usages(a) + Usages(init)
    ensures Usages((a + init) + [m]) == Usages(a) + Usages(init + [m])
  {
    UsagesSnoc(a + init, m);
    UsagesSnoc(init, m);
  }

  lemma ChildDropsPrefix(rest: seq<Mark>, already: bool, startupAt: Option<int>) returns (dropped: nat)
    ensures dropped <= |Usages(rest)| && KeptOfChild(rest, already, startupAt) == Usages(rest)[dropped..]
  {
    var opening := FirstOpening(rest, already, startupAt, 0);
    var cut := if opening < |rest| then opening
               else if !StartedBefore(rest, already, |rest|) then |rest| else FirstBoundary(rest, already, 0);
    UsagesConcat(rest[..cut], rest[cut..]);
    assert rest == rest[..cut] + rest[cut..];
    assert rest[..|rest|] == rest && rest[|rest|..] == [];
    dropped := if KeptOfChild(rest, already, startupAt) == Usages(rest[cut..]) then |Usages(rest[..cut])| else 0;
  }

  lemma UsagesAroundMeta(first: seq<Mark>, m: Mark, rest: seq<Mark>)
    requires m.Meta?
    ensures Usages(first + [m] + rest) == Usages(first) + Usages(rest)
  {
    UsagesConcat(first + [m], rest);
    UsagesSnoc(first, m);
    assert Usages(first) + [] == Usages(first);
  }

  lemma SliceOfConcat<T>(a: seq<T>, b: seq<T>, skip: nat)
    requires skip <= |b|
    ensures (a + b)[..|a|] + (a + b)[|a| + skip..] == a + b[skip..]
  {
  }

  /** Usage before the first session record stays, and of what follows it a prefix is dropped. */
  lemma SpawnedDropsBlock(first: seq<Mark>, m: Mark, rest: seq<Mark>, already: bool) returns (i: nat, j: nat)
    requires m.Meta?
    ensures i <= j <= |Usages(first + [m] + rest)|
    ensures Usages(first) + KeptOfChild(rest, already, m.startupAt)
         == Usages(first + [m] + rest)[..i] + Usages(first + [m] + rest)[j..]
  {
    UsagesAroundMeta(first, m, rest);
    var dropped := ChildDropsPrefix(rest, already, m.startupAt);
    SliceOfConcat(Usages(first), Usages(rest), dropped);
    i, j := |Usages(first)|, |Usages(first)| + dropped;
  }

  /** Classification removes one contiguous block of usage and nothing else: what is recorded keeps its order,
      and no observation is recorded twice. */
  lemma KeptDropsOneBlock(marks: seq<Mark>) returns (i: nat, j: nat)
    ensures i <= j <= |Usages(marks)|
    ensures Kept(marks) == Usages(marks)[..i] + Usages(marks)[j..]
  {
    var meta := FirstMeta(marks, 0);
    if meta == |marks| || !marks[meta].subagent {
      i, j := 0, 0;
    } else {
      assert marks == marks[..meta] + [marks[meta]] + marks[meta + 1..];
      i, j := SpawnedDropsBlock(marks[..meta], marks[meta], marks[meta + 1..], StartedBefore(marks, false, meta));
    }
  }

  // ---- The event loop ----

  method RecordAll(recorded: seq<Observation>, pending: seq<Pending>) returns (all: seq<Observation>)
    ensures all == recorded + Observations(pending)
  {
    all := recorded;
    for i := 0 to |pending|
      invariant all == recorded + Observations(pending)[..i]
    {
      all := all + [pending[i].observation];
    }
  }

  method RecordAfterBoundary(recorded: seq<Observation>, pending: seq<Pending>) returns (all: seq<Observation>)
    ensures all == recorded + AfterBoundary(pending)
  {
    all := recorded;
    for i := 0 to |pending|
      invariant all == recorded + AfterBoundary(pending[..i])
    {
      assert pending[..i + 1] == pending[..i] + [pending[i]];
      PendingSnoc(pending[..i], pending[i]);
      if pending[i].afterBoundary {
        all := all + [pending[i].observation];
      }
    }
    assert pending[..|pending|] == pending;
  }

  lemma ReadSnoc(events: seq<Event>, relevant: int -> bool, n: nat)
    requires n < |events|
    ensures ReadAll(events[..n + 1], relevant) == ReadStep(ReadAll(events[..n], relevant), events[n], relevant)
  {
    assert events[..n + 1][..n] == events[..n];
  }

  lemma PassSnoc(marks: seq<Mark>, m: Mark)
    ensures OnePass(marks + [m]) == MarkStep(OnePass(marks), m)
  {
    assert (marks + [m])[..|marks|] == marks;
  }

  lemma PassUsage(marks: seq<Mark>, o: Observation)
    ensures OnePass(marks + [Usage(o)]) == UsageStep(OnePass(marks), o)
  {
    PassSnoc(marks, Usage(o));
  }

  /** The variables that live across the event loop over one session file. */
  class SessionScan {
    var currentModel: string
    var firstSessionMetaSeen: bool
    var shouldCountUsage: bool
    var isSpawnedSubagent: bool
    var sawTaskStarted: bool
    var boundaryReached: bool
    var startupAt: Option<int>
    var startupTokenEvents: nat
    var usageHighWater: Option<HighWater>
    var pendingUsage: seq<Pending>
    var recorded: seq<Observation>

    constructor ()
      ensures Pass() == Fresh && usageHighWater == None && currentModel == UNKNOWN_MODEL
    {
      currentModel, usageHighWater := UNKNOWN_MODEL, None;
      firstSessionMetaSeen, shouldCountUsage, isSpawnedSubagent := false, true, false;
      sawTaskStarted, boundaryReached := false, false;
      startupAt, startupTokenEvents, pendingUsage, recorded := None, 0, [], [];
    }

    function Pass(): State
      reads this
    {
      State(firstSessionMetaSeen, shouldCountUsage, isSpawnedSubagent, sawTaskStarted, boundaryReached,
            startupAt, startupTokenEvents, pendingUsage, recorded)
    }

    method OnSessionMeta(subagent: bool, at: Option<int>)
      modifies this
      ensures Pass() == MarkStep(old(Pass()), Meta(subagent, at))
      ensures unchanged(`usageHighWater) && unchanged(`currentModel)
    {
      if !firstSessionMetaSeen {
        firstSessionMetaSeen := true;
        isSpawnedSubagent := subagent;
        shouldCountUsage := !isSpawnedSubagent;
        if isSpawnedSubagent {
          startupAt := at;
        }
      }
    }

    method OnTrigger()
      modifies this
      ensures Pass() == MarkStep(old(Pass()), Trigger)
      ensures unchanged(`usageHighWater) && unchanged(`currentModel)
    {
      shouldCountUsage := true;
      if isSpawnedSubagent {
        pendingUsage := [];
      }
    }

    method OnTurnContext(model: Option<string>)
      modifies this
      ensures Pass() == MarkStep(old(Pass()), Context)
      ensures unchanged(`usageHighWater) && currentModel == if model.Some? then model.value else old(currentModel)
    {
      if isSpawnedSubagent && !shouldCountUsage && sawTaskStarted {
        boundaryReached := true;
      }
      if model.Some? {
        currentModel := model.value;
      }
    }

    method OnUsage(o: Observation)
      modifies this
      ensures Pass() == UsageStep(old(Pass()), o)
      ensures unchanged(`usageHighWater) && unchanged(`currentModel)
    {
      if isSpawnedSubagent && !shouldCountUsage && !sawTaskStarted && !boundaryReached {
        if startupAt.Some? && o.timestamp - startupAt.value >= 0 && o.timestamp - startupAt.value <= DETECTION_WINDOW_MS {
          startupTokenEvents := startupTokenEvents + 1;
          if startupTokenEvents < MIN_TOKEN_EVENTS {
            pendingUsage := pendingUsage + [Pending(o, boundaryReached)];
          } else {
            pendingUsage := [];
          }
          return;
        }
        shouldCountUsage := true;
        if startupTokenEvents < MIN_TOKEN_EVENTS {
          recorded := RecordAll(recorded, pendingUsage);
        }
        pendingUsage := [];
      }
      if !shouldCountUsage {
        pendingUsage := pendingUsage + [Pending(o, boundaryReached)];
        return;
      }
      recorded := recorded + [o];
    }

    method OnAdvance(advance: Option<Advance>, timestamp: Option<int>, quotaWindows: seq<LifetimeWindows.Key>,
                     relevant: int -> bool, ghost reading: Reading)
      requires reading.highWater == usageHighWater && reading.model == currentModel
      requires OnePass(reading.marks) == Pass()
      modifies this
      ensures var next := ReadAdvance(reading, advance, timestamp, quotaWindows, relevant);
              next.highWater == usageHighWater && next.model == currentModel && OnePass(next.marks) == Pass()
    {
      if advance == None {
        return;
      }
      usageHighWater := Some(advance.value.highWater);
      if advance.value.delta == None || timestamp == None || !relevant(timestamp.value) {
        return;
      }
      var o := Observation(advance.value.delta.value, timestamp.value, currentModel, quotaWindows);
      PassUsage(reading.marks, o);
      OnUsage(o);
    }

    method OnEvent(e: Event, relevant: int -> bool, ghost reading: Reading)
      requires reading.highWater == usageHighWater && reading.model == currentModel
      requires OnePass(reading.marks) == Pass()
      modifies this
      ensures var next := ReadStep(reading, e, relevant);
              next.highWater == usageHighWater && next.model == currentModel && OnePass(next.marks) == Pass()
    {
      match e {
        case SessionMeta(subagent, at) =>
          PassSnoc(reading.marks, Meta(subagent, at));
          OnSessionMeta(subagent, at);
        case Communication(triggerTurn) =>
          if triggerTurn {
            PassSnoc(reading.marks, Trigger);
            OnTrigger();
          }
        case TaskStarted =>
          PassSnoc(reading.marks, Started);
          sawTaskStarted := true;
        case TurnContext(model) =>
          PassSnoc(reading.marks, Context);
          OnTurnContext(model);
        case TokenCount(payload, timestamp, quotaWindows) =>
          OnAdvance(AdvanceHighWater(payload, usageHighWater), timestamp, quotaWindows, relevant, reading);
        case Other =>
      }
    }

    /** Buffered usage that turned out to be the child's own is recorded at the end of the file. */
    method Finish()
      modifies this
      ensures recorded == Flush(old(Pass()))
    {
      if isSpawnedSubagent && !shouldCountUsage {
        if boundaryReached {
          recorded := RecordAfterBoundary(recorded, pendingUsage);
        } else if !sawTaskStarted {
          recorded := RecordAll(recorded, pendingUsage);
        }
      }
    }
  }

  /** Scanning one session file records exactly what the two-pass specification keeps of it; `complete` says whether
      the file could be read to its end. */
  method ScanSession(events: seq<Event>, relevant: int -> bool, complete: bool) returns (recorded: seq<Observation>)
    ensures recorded == KeptOfFile(ReadAll(events, relevant).marks, complete)
  {
    var scan := new SessionScan();
    for n := 0 to |events|
      invariant fresh(scan)
      invariant var reading := ReadAll(events[..n], relevant);
                reading.highWater == scan.usageHighWater && reading.model == scan.currentModel
                && OnePass(reading.marks) == scan.Pass()
    {
      ReadSnoc(events, relevant, n);
      scan.OnEvent(events[n], relevant, ReadAll(events[..n], relevant));
    }
    assert events[..|events|] == events;
    OnePassIsTwoPass(ReadAll(events, relevant).marks);
    OnePassIsTwoPassWhenCut(ReadAll(events, relevant).marks);
    if complete {
      scan.Finish();
    }
    recorded := scan.recorded;
  }
}
