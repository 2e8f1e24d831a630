/** Results shared while they are being computed, guarded by a generation per key
    (src/services/quota.ts, refreshQuota; src/auth/tokenRefreshCoordinator.ts, the in-flight map).
    The coordinator is the same machine without the cache. */
module GenerationGuard {
  import opened Wrappers

  type Key = string
  type TaskId = nat
  type Summary = nat

  const QUOTA_CACHE_TTL_MS := 30_000

  datatype Phase = Running | Loaded | Settled(stale: bool)

  /** A started computation with the generation it captured. */
  datatype Task = Task(key: Key, generation: nat, phase: Phase)

  datatype Entry = Entry(summary: Summary, timestamp: int, task: TaskId)

  datatype State = State(generations: map<Key, nat>, inFlight: map<Key, TaskId>, cache: map<Key, Entry>, tasks: map<TaskId, Task>)

  datatype Reply = NoQuota | Hit(summary: Summary) | Joined(task: TaskId) | Started(task: TaskId)

  datatype Event =
    | Refresh(key: Key, force: bool, now: int, id: TaskId)
    | FinishBody(id: TaskId, summary: Option<Summary>, now: int)
    | Settle(id: TaskId)
    | Cleanup(id: TaskId)
    | Invalidate(key: Key)

  function Empty(): State {
    State(map[], map[], map[], map[])
  }

  function Generation(generations: map<Key, nat>, key: Key): nat {
    if key in generations then generations[key] else 0
  }

  function Pruned(cache: map<Key, Entry>, now: int): map<Key, Entry> {
    map key | key in cache && now - cache[key].timestamp < QUOTA_CACHE_TTL_MS :: cache[key]
  }

  function StepRefresh(s: State, key: Key, force: bool, now: int, id: TaskId): (State, Reply) {
    var s := s.(cache := Pruned(s.cache, now));
    if !force && key in s.cache then (s, Hit(s.cache[key].summary))
    else if key in s.inFlight then (s, Joined(s.inFlight[key]))
    else (s.(tasks := s.tasks[id := Task(key, Generation(s.generations, key), Running)], inFlight := s.inFlight[key := id]), Started(id))
  }

  function StepFinishBody(s: State, id: TaskId, summary: Option<Summary>, now: int): State
    requires id in s.tasks
  {
    var t := s.tasks[id];
    s.(tasks := s.tasks[id := t.(phase := Loaded)],
       cache := if summary.Some? && t.generation == Generation(s.generations, t.key)
                then s.cache[t.key := Entry(summary.value, now, id)] else s.cache)
  }

  function StepSettle(s: State, id: TaskId): State
    requires id in s.tasks
  {
    var t := s.tasks[id];
    s.(tasks := s.tasks[id := t.(phase := Settled(t.generation != Generation(s.generations, t.key)))])
  }

  function StepCleanup(s: State, id: TaskId): State
    requires id in s.tasks
  {
    var key := s.tasks[id].key;
    if key in s.inFlight && s.inFlight[key] == id then s.(inFlight := s.inFlight - {key}) else s
  }

  function StepInvalidate(s: State, key: Key): State {
    s.(generations := s.generations[key := Generation(s.generations, key) + 1], cache := s.cache - {key}, inFlight := s.inFlight - {key})
  }

  /** Only a new identifier starts, only a running task finishes, and so on. */
  predicate Enabled(s: State, e: Event) {
    match e
    case Refresh(_, _, _, id) => id !in s.tasks
    case FinishBody(id, _, _) => id in s.tasks && s.tasks[id].phase == Running
    case Settle(id) => id in s.tasks && s.tasks[id].phase == Loaded
    case Cleanup(id) => id in s.tasks && s.tasks[id].phase.Settled?
    case Invalidate(_) => true
  }

  function Step(s: State, e: Event): State {
    if !Enabled(s, e) then s
    else
      match e
      case Refresh(key, force, now, id) => StepRefresh(s, key, force, now, id).0
      case FinishBody(id, summary, now) => StepFinishBody(s, id, summary, now)
      case Settle(id) => StepSettle(s, id)
      case Cleanup(id) => StepCleanup(s, id)
      case Invalidate(key) => StepInvalidate(s, key)
  }

  function Run(events: seq<Event>): State {
    if events == [] then Empty()
    else Step(Run(events[..|events| - 1]), events[|events| - 1])
  }

  /** The task was started for this key at the key's current generation. */
  predicate IsCurrent(s: State, key: Key, id: TaskId) {
    id in s.tasks && s.tasks[id].key == key && s.tasks[id].generation == Generation(s.generations, key)
  }

  ghost predicate Inv(s: State) {
    && (forall key :: key in s.inFlight ==> IsCurrent(s, key, s.inFlight[key]))
    && (forall key :: key in s.cache ==> IsCurrent(s, key, s.cache[key].task))
  }

  lemma StepKeepsInv(s: State, e: Event)
    requires Inv(s)
    ensures Inv(Step(s, e))
  {
    if Enabled(s, e) {
      match e
      case Refresh(key, force, now, id) =>
      case FinishBody(id, summary, now) =>
      case Settle(id) =>
      case Cleanup(id) =>
      case Invalidate(key) =>
    }
  }

  /** In every interleaving of start, finish and invalidate, each in-flight entry and each cached
      result was started at its key's current generation. */
  lemma {:induction false} EntriesAreCurrent(events: seq<Event>)
    ensures Inv(Run(events))
    decreases |events|
  {
    if events != [] {
      EntriesAreCurrent(events[..|events| - 1]);
      StepKeepsInv(Run(events[..|events| - 1]), events[|events| - 1]);
    }
  }

  /** A finishing task removes its own entry or none: a newer task's entry survives it. */
  lemma FinishingSparesNewerEntries(events: seq<Event>, id: TaskId, key: Key)
    requires key in Run(events).inFlight && Run(events).inFlight[key] != id
    ensures var after := Step(Run(events), Cleanup(id)).inFlight;
            key in after && after[key] == Run(events).inFlight[key]
  {
  }

  function Invalidations(events: seq<Event>, key: Key): nat {
    if events == [] then 0
    else Invalidations(events[..|events| - 1], key) + if events[|events| - 1] == Invalidate(key) then 1 else 0
  }

  lemma {:induction false} GenerationCountsInvalidations(events: seq<Event>, key: Key)
    ensures Generation(Run(events).generations, key) == Invalidations(events, key)
    decreases |events|
  {
    if events != [] {
      GenerationCountsInvalidations(events[..|events| - 1], key);
    }
  }

  /** Between two moments of a run the count stays the same exactly when the key was not invalidated. */
  lemma {:induction false} SameCountMeansNoInvalidation(events: seq<Event>, later: seq<Event>, key: Key)
    ensures Invalidations(events, key) <= Invalidations(events + later, key)
    ensures Invalidations(events, key) == Invalidations(events + later, key) <==> Invalidate(key) !in later
    decreases |later|
  {
    if later == [] {
      assert events + later == events;
    } else {
      var most := later[..|later| - 1];
      assert (events + later)[..|events + later| - 1] == events + most;
      assert later == most + [later[|later| - 1]];
      SameCountMeansNoInvalidation(events, most, key);
    }
  }

  lemma {:induction false} TaskKeepsGeneration(events: seq<Event>, later: seq<Event>, id: TaskId)
    requires id in Run(events).tasks
    ensures id in Run(events + later).tasks
    ensures Run(events + later).tasks[id].key == Run(events).tasks[id].key
    ensures Run(events + later).tasks[id].generation == Run(events).tasks[id].generation
    decreases |later|
  {
    if later == [] {
      assert events + later == events;
    } else {
      assert (events + later)[..|events + later| - 1] == events + later[..|later| - 1];
      TaskKeepsGeneration(events, later[..|later| - 1], id);
    }
  }

  /** A result is marked stale exactly when its key was invalidated between its start and its
      completion. `events` ends with the start, `later` is everything up to the completion. */
  lemma StaleExactlyWhenSuperseded(events: seq<Event>, start: Event, later: seq<Event>)
    requires start.Refresh? && Enabled(Run(events), start)
    requires StepRefresh(Run(events), start.key, start.force, start.now, start.id).1 == Started(start.id)
    requires Enabled(Run(events + [start] + later), Settle(start.id))
    ensures Step(Run(events + [start] + later), Settle(start.id)).tasks[start.id].phase == Settled(Invalidate(start.key) in later)
  {
    var begun := events + [start];
    assert begun[..|begun| - 1] == events;
    assert Run(begun) == Step(Run(events), start);
    TaskKeepsGeneration(begun, later, start.id);
    GenerationCountsInvalidations(events, start.key);
    GenerationCountsInvalidations(begun, start.key);
    GenerationCountsInvalidations(begun + later, start.key);
    SameCountMeansNoInvalidation(begun, later, start.key);
  }

  /** The module-level maps of the quota service. `tasks` stands for the captured locals of the
      promises that are still alive. */
  class QuotaService {
    var quotaCacheGenerations: map<Key, nat>
    var inflightQuotaRefreshes: map<Key, TaskId>
    var quotaCache: map<Key, Entry>
    var tasks: map<TaskId, Task>

    ghost function Value(): State
      reads this
    {
      State(quotaCacheGenerations, inflightQuotaRefreshes, quotaCache, tasks)
    }

    constructor ()
      ensures Value() == Empty()
    {
      quotaCacheGenerations, inflightQuotaRefreshes, quotaCache, tasks := map[], map[], map[], map[];
    }

    method PruneQuotaCache(now: int)
      modifies this`quotaCache
      ensures quotaCache == Pruned(old(quotaCache), now)
    {
      var remaining := quotaCache.Keys;
      while remaining != {}
        invariant remaining <= old(quotaCache).Keys
        invariant forall key :: key in quotaCache <==>
                    key in old(quotaCache) && (key in remaining || now - old(quotaCache)[key].timestamp < QUOTA_CACHE_TTL_MS)
        invariant forall key :: key in quotaCache ==> quotaCache[key] == old(quotaCache)[key]
        decreases remaining
      {
        var key :| key in remaining;
        remaining := remaining - {key};
        if now - quotaCache[key].timestamp >= QUOTA_CACHE_TTL_MS {
          quotaCache := quotaCache - {key};
        }
      }
    }

    /** Virtual accounts and accounts without a quota are not asked about, and leave the maps as they are. */
    method RefreshQuota(key: Key, hasQuota: bool, force: bool, now: int, id: TaskId) returns (reply: Reply)
      requires id !in tasks
      modifies this
      ensures !hasQuota ==> Value() == old(Value()) && reply == NoQuota
      ensures hasQuota ==> (Value(), reply) == StepRefresh(old(Value()), key, force, now, id)
    {
      if !hasQuota {
        return NoQuota;
      }
      PruneQuotaCache(now);
      var generation := Generation(quotaCacheGenerations, key);
      if !force && key in quotaCache {
        return Hit(quotaCache[key].summary);
      }
      if key in inflightQuotaRefreshes {
        return Joined(inflightQuotaRefreshes[key]);
      }
      tasks := tasks[id := Task(key, generation, Running)];
      inflightQuotaRefreshes := inflightQuotaRefreshes[key := id];
      return Started(id);
    }

    method OnUsage(id: TaskId, summary: Option<Summary>, now: int)
      requires id in tasks
      modifies this
      ensures Value() == StepFinishBody(old(Value()), id, summary, now)
    {
      var task := tasks[id];
      if summary.Some? && task.generation == Generation(quotaCacheGenerations, task.key) {
        quotaCache := quotaCache[task.key := Entry(summary.value, now, id)];
      }
      tasks := tasks[id := task.(phase := Loaded)];
    }

    method Guard(id: TaskId) returns (stale: bool)
      requires id in tasks
      modifies this`tasks
      ensures Value() == StepSettle(old(Value()), id) && tasks[id].phase == Settled(stale)
    {
      var task := tasks[id];
      stale := task.generation != Generation(quotaCacheGenerations, task.key);
      tasks := tasks[id := task.(phase := Settled(stale))];
    }

    method ClearInFlight(id: TaskId)
      requires id in tasks
      modifies this`inflightQuotaRefreshes
      ensures Value() == StepCleanup(old(Value()), id)
    {
      var key := tasks[id].key;
      if key in inflightQuotaRefreshes && inflightQuotaRefreshes[key] == id {
        inflightQuotaRefreshes := inflightQuotaRefreshes - {key};
      }
    }

    method ClearQuotaCacheForAccount(key: Key)
      modifies this
      ensures Value() == StepInvalidate(old(Value()), key)
    {
      quotaCacheGenerations := quotaCacheGenerations[key := Generation(quotaCacheGenerations, key) + 1];
      quotaCache := quotaCache - {key};
      inflightQuotaRefreshes := inflightQuotaRefreshes - {key};
    }
  }

  /** The coordinator's module-level maps: the same machine, without a cache. */
  class RefreshCoordinator {
    var refreshGenerations: map<Key, nat>
    var inFlightRefreshes: map<Key, TaskId>
    var tasks: map<TaskId, Task>

    ghost function Value(): State
      reads this
    {
      State(refreshGenerations, inFlightRefreshes, map[], tasks)
    }

    constructor ()
      ensures Value() == Empty()
    {
      refreshGenerations, inFlightRefreshes, tasks := map[], map[], map[];
    }

    method EnsureFreshTokens(key: Key, id: TaskId) returns (reply: Reply)
      requires id !in tasks
      modifies this
      ensures (Value(), reply) == StepRefresh(old(Value()), key, true, 0, id)
    {
      var generation := Generation(refreshGenerations, key);
      if key in inFlightRefreshes {
        return Joined(inFlightRefreshes[key]);
      }
      tasks := tasks[id := Task(key, generation, Running)];
      inFlightRefreshes := inFlightRefreshes[key := id];
      return Started(id);
    }

    method ClearInFlight(id: TaskId)
      requires id in tasks
      modifies this`inFlightRefreshes
      ensures Value() == StepCleanup(old(Value()), id)
    {
      var key := tasks[id].key;
      if key in inFlightRefreshes && inFlightRefreshes[key] == id {
        inFlightRefreshes := inFlightRefreshes - {key};
      }
    }

    /** `normalized` is the trimmed account id; a blank one is ignored. */
    method InvalidateFreshAccountTokenRefresh(normalized: string)
      modifies this
      ensures Value() == if normalized == "" then old(Value()) else StepInvalidate(old(Value()), "account:" + normalized)
    {
      if normalized == "" {
        return;
      }
      var key := "account:" + normalized;
      refreshGenerations := refreshGenerations[key := Generation(refreshGenerations, key) + 1];
      inFlightRefreshes := inFlightRefreshes - {key};
    }
  }
}
