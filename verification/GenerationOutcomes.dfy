/** What a call gets, where a cached result comes from, and what each step leaves alone
    (src/services/quota.ts, refreshQuota and pruneQuotaCache; src/auth/tokenRefreshCoordinator.ts). */
module GenerationOutcomes {
  import opened GenerationGuard
  import opened Wrappers

  /** The cached result of a key is younger than 30 seconds. */
  predicate Young(s: State, key: Key, now: int) {
    key in s.cache && now - s.cache[key].timestamp < 30_000
  }

  /** A call that is not forced gets a young cached result; otherwise it joins the task in flight for its key; otherwise
      it starts one at the key's current generation. Results that are not young are dropped, and nothing else changes. */
  lemma RefreshOutcome(s: State, key: Key, force: bool, now: int, id: TaskId, other: Key)
    ensures var (after, reply) := StepRefresh(s, key, force, now, id);
            && (other in after.cache <==> Young(s, other, now)) && (Young(s, other, now) ==> after.cache[other] == s.cache[other])
            && after.generations == s.generations
            && (reply.Hit? <==> !force && Young(s, key, now)) && (reply.Hit? ==> reply.summary == s.cache[key].summary)
            && (reply.Joined? <==> (force || !Young(s, key, now)) && key in s.inFlight) && (reply.Joined? ==> reply.task == s.inFlight[key])
            && (!reply.Hit? && !reply.Joined? ==>
                  && reply == Started(id) && id in after.tasks && after.tasks[id] == Task(key, Generation(s.generations, key), Running)
                  && after.inFlight == s.inFlight[key := id] && after.tasks == s.tasks[id := after.tasks[id]])
            && (reply.Hit? || reply.Joined? ==> after.inFlight == s.inFlight && after.tasks == s.tasks)
  {
  }

  /** A body that ends is cached exactly when it has a result and its key was not invalidated since it started; no other
      entry changes. */
  lemma FinishBodyOutcome(s: State, id: TaskId, summary: Option<Summary>, now: int, other: Key)
    requires id in s.tasks
    ensures var (t, after) := (s.tasks[id], StepFinishBody(s, id, summary, now));
            && (summary.Some? && t.generation == Generation(s.generations, t.key) ==>
                  t.key in after.cache && after.cache[t.key] == Entry(summary.value, now, id))
            && (summary == None || t.generation != Generation(s.generations, t.key) || other != t.key ==>
                  (other in after.cache <==> other in s.cache) && (other in s.cache ==> after.cache[other] == s.cache[other]))
            && after.tasks == s.tasks[id := Task(t.key, t.generation, Loaded)]
            && after.inFlight == s.inFlight && after.generations == s.generations
  {
  }

  /** An invalidated key has a new generation, no cached result and nothing in flight; other keys keep theirs. */
  lemma InvalidateOutcome(s: State, key: Key, other: Key)
    ensures var after := StepInvalidate(s, key);
            && Generation(after.generations, key) == Generation(s.generations, key) + 1
            && key !in after.cache && key !in after.inFlight && after.tasks == s.tasks
            && (other != key ==>
                  && Generation(after.generations, other) == Generation(s.generations, other)
                  && (other in after.cache <==> other in s.cache) && (other in s.cache ==> after.cache[other] == s.cache[other])
                  && (other in after.inFlight <==> other in s.inFlight)
                  && (other in s.inFlight ==> after.inFlight[other] == s.inFlight[other]))
  {
  }

  /** A finished task takes exactly its own entry out. */
  lemma CleanupOutcome(s: State, id: TaskId, other: Key)
    requires id in s.tasks
    ensures var (key, after) := (s.tasks[id].key, StepCleanup(s, id));
            && (key in after.inFlight ==> after.inFlight[key] != id)
            && (other != key || (other in s.inFlight && s.inFlight[other] != id) ==>
                  (other in after.inFlight <==> other in s.inFlight) && (other in s.inFlight ==> after.inFlight[other] == s.inFlight[other]))
            && after.cache == s.cache && after.generations == s.generations && after.tasks == s.tasks
  {
  }

  /** A task runs, then its result is loaded, then it settles: stale exactly when its key is at another generation. */
  lemma TaskAdvances(s: State, e: Event, id: TaskId)
    requires id in s.tasks
    ensures id in Step(s, e).tasks
    ensures var (t, after) := (s.tasks[id], Step(s, e).tasks[id]);
            && after.key == t.key && after.generation == t.generation
            && after.phase == if e.FinishBody? && e.id == id && t.phase == Running then Loaded
                              else if e == Settle(id) && t.phase == Loaded then Settled(t.generation != Generation(s.generations, t.key))
                              else t.phase
  {
  }

  /** Some task for this key ended with this result at this time. */
  predicate WasLoaded(events: seq<Event>, entry: Entry) {
    FinishBody(entry.task, Some(entry.summary), entry.timestamp) in events
  }

  lemma StepCaches(s: State, e: Event, key: Key)
    requires key in Step(s, e).cache
    ensures var entry := Step(s, e).cache[key];
            (key in s.cache && s.cache[key] == entry) || e == FinishBody(entry.task, Some(entry.summary), entry.timestamp)
  {
  }

  lemma {:induction false} CachedWasLoaded(events: seq<Event>, key: Key)
    requires key in Run(events).cache
    ensures WasLoaded(events, Run(events).cache[key])
    decreases |events|
  {
    var init, last := events[..|events| - 1], events[|events| - 1];
    assert events == init + [last];
    StepCaches(Run(init), last, key);
    if last != FinishBody(Run(events).cache[key].task, Some(Run(events).cache[key].summary), Run(events).cache[key].timestamp) {
      CachedWasLoaded(init, key);
    }
  }

  /** In every interleaving, a call that gets a cached result gets one that a task for its key loaded less than 30 seconds
      ago, and that key was not invalidated since the task started. */
  lemma HitIsFresh(events: seq<Event>, key: Key, force: bool, now: int, id: TaskId)
    returns (entry: Entry)
    requires StepRefresh(Run(events), key, force, now, id).1.Hit?
    ensures StepRefresh(Run(events), key, force, now, id).1 == Hit(entry.summary)
    ensures WasLoaded(events, entry) && now - entry.timestamp < 30_000 && IsCurrent(Run(events), key, entry.task)
  {
    entry := Run(events).cache[key];
    CachedWasLoaded(events, key);
    EntriesAreCurrent(events);
  }
}
