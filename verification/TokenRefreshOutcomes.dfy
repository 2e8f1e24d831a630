/** What a refresh hands back, why, and what replacements and callers in the same process see of it. */
module TokenRefreshOutcomes {
  import opened Wrappers
  import opened TokenStore
  import opened TokenRefresh

  // ---- Every returned pair is the one read last ----

  /** The steps in which an operation reads the store: its ordinary reads, the one when the lease cannot be had, and the
      one in which it finds that its process replaced the credentials meanwhile. */
  predicate ReadsStore(w: World, a: Action) {
    && Decides(a) && a.op in w.operations
    && var o := w.operations[a.op];
       || (a.Read? && (o.point.Starting? || o.point.HasLease? || o.point.Saved? || o.point.Reconciling?))
       || (a.NoLease? && o.point.WantsLease?)
       || (!Current(w, o) && ((a.ResumeFirst? && o.point.ReadFirst?) || (a.Acquire? && o.point.WantsLease? && w.lease == None)
                              || (a.TakeReply? && o.point.Answered?) || (a.LoseReply? && (o.point.Asking? || o.point.Answered?))))
  }

  /** The pair an operation read last in a run. */
  function LastRead(w: World, actions: seq<Action>, op: OperationId): Option<Tokens> {
    if actions == [] then None
    else
      var init, a := actions[..|actions| - 1], actions[|actions| - 1];
      if ReadsStore(Run(w, init), a) && a.op == op then Some(Run(w, init).store) else LastRead(w, init, op)
  }

  /** What an operation remembers of its last read. */
  predicate Remembers(point: Point, read: Option<Tokens>) {
    match point
    case ReadFirst(initial) => read == Some(initial)
    case WantsLease(initial) => read == Some(initial)
    case ReadAgain(_, current) => read == Some(current)
    case Asking(current) => read == Some(current)
    case Answered(current, _) => read == Some(current)
    case Saving(current, _) => read == Some(current)
    case Reconciling(current) => read == Some(current)
    case Finished(outcome) => outcome.Returned? ==> read == Some(outcome.tokens)
    case _ => true
  }

  lemma DecideRemembers(w: World, o: Operation, a: Action, read: Option<Tokens>)
    requires Decides(a) && a.op in w.operations && w.operations[a.op] == o && Remembers(o.point, read)
    ensures Remembers(Decide(w, o, a), if ReadsStore(w, a) then Some(w.store) else read)
  {
  }

  lemma StepRemembers(w: World, a: Action, op: OperationId, read: Option<Tokens>)
    requires op in w.operations ==> Remembers(w.operations[op].point, read)
    ensures op in Step(w, a).operations ==>
              Remembers(Step(w, a).operations[op].point, if ReadsStore(w, a) && a.op == op then Some(w.store) else read)
  {
    if Decides(a) && a.op == op && op in w.operations {
      DecideRemembers(w, w.operations[op], a, read);
    }
  }

  lemma {:induction false} RunRemembers(w: World, actions: seq<Action>, op: OperationId)
    requires op !in w.operations
    ensures op in Run(w, actions).operations ==> Remembers(Run(w, actions).operations[op].point, LastRead(w, actions, op))
    decreases |actions|
  {
    if actions != [] {
      var init := actions[..|actions| - 1];
      RunRemembers(w, init, op);
      StepRemembers(Run(w, init), actions[|actions| - 1], op, LastRead(w, init, op));
    }
  }

  /** In every run, exclusive leases or not: the pair an operation returns is the one it read last. */
  lemma ReturnsWhatItReadLast(providerId: Option<string>, tokens: Tokens, actions: seq<Action>, op: OperationId)
    requires op in Run(Initial(providerId, tokens), actions).operations
    requires var point := Run(Initial(providerId, tokens), actions).operations[op].point; point.Finished? && point.outcome.Returned?
    ensures LastRead(Initial(providerId, tokens), actions, op)
         == Some(Run(Initial(providerId, tokens), actions).operations[op].point.outcome.tokens)
  {
    RunRemembers(Initial(providerId, tokens), actions, op);
  }

  /** The step in which an operation returns these tokens. */
  predicate Returns(w: World, a: Action, tokens: Tokens) {
    && Decides(a) && a.op in w.operations && !w.operations[a.op].point.Finished?
    && Step(w, a).operations[a.op].point == Finished(Returned(tokens))
  }

  lemma ReturnsUnspent(w: World, a: Action, tokens: Tokens)
    requires Inv(w, true) && Returns(w, a, tokens)
    requires w.operations[a.op].point.ReadFirst? ==> !Current(w, w.operations[a.op])
    ensures Unspent(Step(w, a).spent, tokens)
  {
    assert OperationOk(w.seen, w.spent, true, w.operations[a.op].point);
  }

  /** In every run with exclusive leases in which no replacement brings a spent token back: an operation that goes for
      the lease, or finds its credentials replaced, never returns a pair whose refresh token is spent. */
  lemma ReturnedPairIsUnspent(providerId: Option<string>, tokens: Tokens, actions: seq<Action>, next: Action, returned: Tokens)
    requires LeaseRespected(actions) && NoSpentRestored(Initial(providerId, tokens), actions)
    requires Returns(Run(Initial(providerId, tokens), actions), next, returned)
    requires var w := Run(Initial(providerId, tokens), actions);
             w.operations[next.op].point.ReadFirst? ==> !Current(w, w.operations[next.op])
    ensures Unspent(Step(Run(Initial(providerId, tokens), actions), next).spent, returned)
  {
    InitialInv(providerId, tokens);
    RunKeepsInv(Initial(providerId, tokens), actions, true);
    ReturnsUnspent(Run(Initial(providerId, tokens), actions), next, returned);
  }

  // ---- Why an operation stops or goes on ----

  /** The pair can be used as it is: it needs no refresh and, when a refresh is forced, it is not the one first read. */
  predicate Usable(o: Operation, needsRefresh: bool, changed: bool) {
    !needsRefresh && (o.force ==> changed)
  }

  /** A usable pair is returned; otherwise it is renewed if that is possible; otherwise a valid access token may do. */
  function Rule(o: Operation, pair: Tokens, usable: bool, accessValid: bool, goOn: Option<Point>, failure: Failure): Point {
    if usable then Finished(Returned(pair))
    else if goOn.Some? then goOn.value
    else if o.allowFallback && !o.force && accessValid then Finished(Returned(pair))
    else Finished(Raised(failure))
  }

  function Renewable(pair: Tokens, point: Point): Option<Point> {
    if pair.refreshToken.Some? then Some(point) else None
  }

  /** The first decision, the one without a lease and the one under it all follow the same rule. */
  lemma DecisionsFollowOneRule(w: World, o: Operation, a: Action)
    requires (a.ResumeFirst? && o.point.ReadFirst? && Current(w, o)) || (a.NoLease? && o.point.WantsLease?)
             || (a.ResumeAgain? && o.point.ReadAgain?)
    ensures Decide(w, o, a) == match o.point
              case ReadFirst(initial) =>
                Rule(o, initial, Usable(o, a.needsRefresh, false), a.accessValid,
                     if a.unavailable then None else Renewable(initial, WantsLease(initial)),
                     if a.unavailable then InvalidGrant else NoRefreshToken)
              case WantsLease(initial) =>
                Rule(o, w.store, Usable(o, a.needsRefresh, w.store != initial), a.accessValid, None, Coordination)
              case ReadAgain(initial, current) =>
                Rule(o, current, Usable(o, a.needsRefresh, current != initial), a.accessValid,
                     Renewable(current, Asking(current)), NoRefreshToken)
              case _ => o.point
  {
  }

  /** A refused or lost request: a valid access token may do when renewal is unavailable, a reused token is reconciled
      with the store once, and anything else fails. */
  lemma LostReplyOutcome(w: World, op: OperationId, reused: bool, unavailable: bool, accessValid: bool)
    requires op in w.operations && Current(w, w.operations[op])
    requires w.operations[op].point.Asking? || w.operations[op].point.Answered?
    ensures var (o, after) := (w.operations[op], Step(w, LoseReply(op, reused, unavailable, accessValid)).operations[op].point);
            && (after == Finished(Returned(o.point.current)) <==> unavailable && o.allowFallback && !o.force && accessValid)
            && (after == Reconciling(o.point.current) <==> reused && !(unavailable && o.allowFallback && !o.force && accessValid))
            && (after == Finished(Raised(ProviderFailed)) <==> !reused && !(unavailable && o.allowFallback && !o.force && accessValid))
  {
  }

  /** Reconciling returns what is stored exactly when it is another pair than the one that was refused. */
  lemma ReconcilingOutcome(w: World, op: OperationId)
    requires op in w.operations && w.operations[op].point.Reconciling?
    ensures var after := Step(w, Read(op)).operations[op].point;
            after == if w.store == w.operations[op].point.current then Finished(Raised(ProviderFailed)) else Finished(Returned(w.store))
  {
  }

  /** An operation whose process replaced the credentials stops at its next step and hands back what is stored: it
      neither goes for the lease nor stores anything. */
  lemma SupersededHandsBackStored(w: World, a: Action)
    requires Decides(a) && a.op in w.operations && !Current(w, w.operations[a.op])
    requires var point := w.operations[a.op].point;
             || (a.ResumeFirst? && point.ReadFirst?) || (a.Acquire? && point.WantsLease? && w.lease == None)
             || (a.TakeReply? && point.Answered?) || (a.LoseReply? && (point.Asking? || point.Answered?))
    ensures Step(w, a).operations[a.op].point == Finished(Returned(w.store))
    ensures Step(w, a).store == w.store && Step(w, a).lease != Some(a.op)
  {
  }

  /** A refresh token goes out only from the holder of the lease, for the pair it read under it, and the provider's
      answer keeps that token when it names no new one. */
  lemma RotationOutcome(w: World, op: OperationId, refreshed: Tokens, clean: bool)
    requires Inv(w, clean) && op in w.operations && w.operations[op].point.Asking? && Fresh(w, refreshed)
    ensures w.lease == Some(op)
    ensures var (current, after) := (w.operations[op].point.current, Step(w, Rotate(op, refreshed)));
            && after.operations[op].point.Answered? && after.operations[op].point.current == current
            && var answer := after.operations[op].point.refreshed;
               && answer.idToken == refreshed.idToken && answer.accessToken == refreshed.accessToken
               && answer.accountId == refreshed.accountId && answer.refreshToken.Some?
               && (refreshed.refreshToken.Some? ==> answer.refreshToken == refreshed.refreshToken)
               && (refreshed.refreshToken == None ==> answer.refreshToken == current.refreshToken)
               && after.rotations == w.rotations + {Rotation(current, answer)} && after.store == w.store
  {
    assert OperationOk(w.seen, w.spent, clean, w.operations[op].point);
  }

  /** A reply that is still wanted is saved: the provider's tokens, under the account id of the reply or else of the pair
      that was refreshed. */
  lemma WantedReplyIsSaved(w: World, op: OperationId)
    requires op in w.operations && w.operations[op].point.Answered? && Current(w, w.operations[op])
    ensures var (point, after) := (w.operations[op].point, Step(w, TakeReply(op)).operations[op].point);
            && after.Saving? && after.current == point.current
            && after.effective.idToken == point.refreshed.idToken && after.effective.accessToken == point.refreshed.accessToken
            && after.effective.refreshToken == point.refreshed.refreshToken
            && after.effective.accountId
               == (if point.refreshed.accountId.Some? then point.refreshed.accountId else point.current.accountId)
  {
  }

  // ---- Replacements and joining ----

  /** A replacement supersedes every operation its process has started, offers none of them to later callers, and leaves
      the store and every other process alone until it is written. */
  lemma ReplacementSupersedes(w: World, process: ProcessId, tokens: Tokens)
    requires FlightsOk(w) && w.writer == None
    ensures var after := Step(w, BeginReplace(process, tokens));
            && after.store == w.store && after.operations == w.operations && after.lease == w.lease
            && after.writer == Some(tokens) && process !in after.flights
            && (forall op :: op in w.operations && w.operations[op].process == process ==> !Current(after, w.operations[op]))
            && (forall op :: op in w.operations && w.operations[op].process != process ==>
                  (Current(after, w.operations[op]) <==> Current(w, w.operations[op])))
            && (forall p :: p != process ==> (p in after.flights <==> p in w.flights)
                                             && (p in w.flights ==> after.flights[p] == w.flights[p]))
  {
  }

  /** The replacement ends with exactly its tokens stored. */
  lemma ReplacementIsStored(w: World)
    requires w.writer.Some?
    ensures var after := Step(w, EndReplace);
            && after.store == w.writer.value && after.latest == w.writer.value && after.writer == None
            && after.operations == w.operations && after.flights == w.flights && after.generations == w.generations
  {
  }

  /** A call joins the operation its process has in flight; otherwise it starts one of its own, current and with the
      caller's options, which later calls join. */
  lemma CallsShareOneOperation(w: World, op: OperationId, process: ProcessId, force: bool, allowFallback: bool)
    requires op !in w.operations
    ensures var after := Step(w, Launch(op, process, force, allowFallback));
            if process in w.flights then after == w
            else && op in after.operations && after.operations[op].point == Starting && Current(after, after.operations[op])
                 && after.operations[op].process == process && after.operations[op].force == force
                 && after.operations[op].allowFallback == allowFallback
                 && process in after.flights && after.flights[process] == op
                 && after.operations.Keys == w.operations.Keys + {op} && after.store == w.store
  {
  }

  /** A finished operation is not joined any more, and clearing it leaves a later one alone. */
  lemma FinishedIsNotJoined(w: World, op: OperationId)
    requires op in w.operations && w.operations[op].point.Finished?
    ensures var (process, after) := (w.operations[op].process, Step(w, ClearFlight(op)));
            && (process in after.flights ==> after.flights[process] != op)
            && (process in w.flights && w.flights[process] != op ==> after == w)
  {
  }
}
