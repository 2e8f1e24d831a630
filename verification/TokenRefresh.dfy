/** Refreshing one account's credential pair from several processes at once
    (src/auth/tokenRefreshCoordinator.ts, refreshTokensWithLease). Every await is a step boundary;
    an operation may be suspended between reading the store and acting on what it read. */
module TokenRefresh {
  import opened Wrappers
  import opened TokenStore

  type ProcessId = nat
  type OperationId = nat

  datatype Failure = InvalidGrant | NoRefreshToken | Coordination | ProviderFailed
  datatype Outcome = Returned(tokens: Tokens) | Raised(failure: Failure)

  /** Where an operation is suspended. */
  datatype Point =
    | Starting                                        // first read of the store outstanding
    | ReadFirst(initial: Tokens)
    | WantsLease(initial: Tokens)
    | HasLease(initial: Tokens)                       // second read outstanding, lease held from here ...
    | ReadAgain(initial: Tokens, current: Tokens)
    | Asking(current: Tokens)                         // refresh token presented to the provider
    | Answered(current: Tokens, refreshed: Tokens)    // provider rotated; its reply is on the way
    | Saving(current: Tokens, effective: Tokens)
    | Saved(effective: Tokens)                        // read-back outstanding
    | Reconciling(current: Tokens)                    // ... until here
    | Finished(outcome: Outcome)

  datatype Operation = Operation(process: ProcessId, generation: nat, force: bool, allowFallback: bool, point: Point)

  /** The provider answered `from` with `to`. */
  datatype Rotation = Rotation(from: Tokens, to: Tokens)

  datatype World = World(
    providerId: Option<string>,
    store: Tokens,
    latest: Tokens,                     // the latest replacement
    writer: Option<Tokens>,             // a replacement holding the write lease, not yet written
    lease: Option<OperationId>,
    generations: map<ProcessId, nat>,
    flights: map<ProcessId, OperationId>,    // the operation that callers in this process join
    operations: map<OperationId, Operation>,
    rotations: set<Rotation>,
    seen: set<string>,                  // every token value in circulation
    spent: set<string>)                 // refresh tokens whose rotation was received and saved

  datatype Action =
    | Launch(op: OperationId, process: ProcessId, force: bool, allowFallback: bool)
    | Read(op: OperationId)
    | ResumeFirst(op: OperationId, needsRefresh: bool, unavailable: bool, accessValid: bool)
    | Acquire(op: OperationId)
    | NoLease(op: OperationId, needsRefresh: bool, accessValid: bool)
    | ResumeAgain(op: OperationId, needsRefresh: bool, accessValid: bool)
    | Rotate(op: OperationId, refreshed: Tokens)
    | TakeReply(op: OperationId)
    | LoseReply(op: OperationId, reused: bool, unavailable: bool, accessValid: bool)
    | Save(op: OperationId)
    | ClearFlight(op: OperationId)
    | BeginReplace(process: ProcessId, tokens: Tokens)
    | EndReplace
    | Invalidate(process: ProcessId)
    | LeaseExpires

  function GenerationIn(generations: map<ProcessId, nat>, process: ProcessId): nat {
    if process in generations then generations[process] else 0
  }

  function Generation(w: World, process: ProcessId): nat {
    GenerationIn(w.generations, process)
  }

  predicate Current(w: World, o: Operation) {
    Generation(w, o.process) == o.generation
  }

  predicate UnderLease(point: Point) {
    point.HasLease? || point.ReadAgain? || point.Asking? || point.Answered? || point.Saving? || point.Saved? || point.Reconciling?
  }

  predicate MayFallBack(o: Operation, accessValid: bool) {
    o.allowFallback && !o.force && accessValid
  }

  // ---- Where an operation goes next; a step that does not apply leaves it where it is ----

  function AfterRead(w: World, o: Operation): Point {
    match o.point
    case Starting => ReadFirst(w.store)
    case HasLease(initial) => ReadAgain(initial, w.store)
    case Saved(_) => Finished(Returned(w.store))
    case Reconciling(current) => Finished(if w.store != current then Returned(w.store) else Raised(ProviderFailed))
    case _ => o.point
  }

  function AfterResumeFirst(w: World, o: Operation, needsRefresh: bool, unavailable: bool, accessValid: bool): Point {
    if !o.point.ReadFirst? then o.point
    else
      var initial := o.point.initial;
      if !Current(w, o) then Finished(Returned(w.store))
      else if !o.force && !needsRefresh then Finished(Returned(initial))
      else if unavailable then Finished(if MayFallBack(o, accessValid) then Returned(initial) else Raised(InvalidGrant))
      else if initial.refreshToken == None then
        Finished(if MayFallBack(o, accessValid) then Returned(initial) else Raised(NoRefreshToken))
      else WantsLease(initial)
  }

  function AfterAcquire(w: World, o: Operation): Point {
    if !o.point.WantsLease? || w.lease.Some? then o.point
    else if !Current(w, o) then Finished(Returned(w.store))
    else HasLease(o.point.initial)
  }

  function AfterNoLease(w: World, o: Operation, needsRefresh: bool, accessValid: bool): Point {
    if !o.point.WantsLease? then o.point
    else if (!needsRefresh || MayFallBack(o, accessValid)) && (!o.force || w.store != o.point.initial) then
      Finished(Returned(w.store))
    else Finished(Raised(Coordination))
  }

  function AfterResumeAgain(o: Operation, needsRefresh: bool, accessValid: bool): Point {
    if !o.point.ReadAgain? then o.point
    else
      var current := o.point.current;
      if !needsRefresh && (!o.force || o.point.initial != current) then Finished(Returned(current))
      else if current.refreshToken == None then
        Finished(if MayFallBack(o, accessValid) then Returned(current) else Raised(NoRefreshToken))
      else Asking(current)
  }

  function WithAccount(r: Rotation): Tokens {
    r.to.(accountId := OrElse(r.to.accountId, r.from.accountId))
  }

  function AfterTakeReply(w: World, o: Operation): Point {
    if !o.point.Answered? then o.point
    else if !Current(w, o) then Finished(Returned(w.store))
    else Saving(o.point.current, WithAccount(Rotation(o.point.current, o.point.refreshed)))
  }

  /** The request failed, or its reply was lost after the provider had already rotated. */
  function AfterLoseReply(w: World, o: Operation, reused: bool, unavailable: bool, accessValid: bool): Point {
    if !o.point.Asking? && !o.point.Answered? then o.point
    else if !Current(w, o) then Finished(Returned(w.store))
    else if unavailable && MayFallBack(o, accessValid) then Finished(Returned(o.point.current))
    else if !reused then Finished(Raised(ProviderFailed))
    else Reconciling(o.point.current)
  }

  predicate Decides(a: Action) {
    a.Read? || a.ResumeFirst? || a.Acquire? || a.NoLease? || a.ResumeAgain? || a.TakeReply? || a.LoseReply?
  }

  function Decide(w: World, o: Operation, a: Action): Point
    requires Decides(a)
  {
    match a
    case Read(_) => AfterRead(w, o)
    case ResumeFirst(_, n, u, v) => AfterResumeFirst(w, o, n, u, v)
    case Acquire(_) => AfterAcquire(w, o)
    case NoLease(_, n, v) => AfterNoLease(w, o, n, v)
    case ResumeAgain(_, n, v) => AfterResumeAgain(o, n, v)
    case TakeReply(_) => AfterTakeReply(w, o)
    case LoseReply(_, r, u, v) => AfterLoseReply(w, o, r, u, v)
  }

  // ---- One step of operation `op` ----

  function Move(w: World, op: OperationId, point: Point): World
    requires op in w.operations
  {
    w.(operations := w.operations[op := w.operations[op].(point := point)])
  }

  /** The operation goes on; acquiring takes the lease and the finally block gives it back. */
  function Proceed(w: World, op: OperationId, point: Point): World
    requires op in w.operations
  {
    if point == w.operations[op].point then w
    else
      var lease := if point.HasLease? then Some(op) else if point.Finished? && w.lease == Some(op) then None else w.lease;
      Move(w, op, point).(lease := lease)
  }

  /** Tokens that were not in circulation before. */
  predicate Fresh(w: World, tokens: Tokens) {
    tokens.accessToken !in w.seen && (tokens.refreshToken.Some? ==> tokens.refreshToken.value !in w.seen)
  }

  function See(seen: set<string>, tokens: Tokens): set<string> {
    seen + {tokens.accessToken} + if tokens.refreshToken.Some? then {tokens.refreshToken.value} else {}
  }

  /** The provider answers with a new access token and either a new refresh token or the old one. */
  function StepRotate(w: World, op: OperationId, refreshed: Tokens): World
    requires op in w.operations
  {
    var o := w.operations[op];
    if !o.point.Asking? || !Fresh(w, refreshed) then w
    else
      var current := o.point.current;
      var answer := if refreshed.refreshToken == None then refreshed.(refreshToken := current.refreshToken) else refreshed;
      Move(w, op, Answered(current, answer)).(seen := See(w.seen, refreshed), rotations := w.rotations + {Rotation(current, answer)})
  }

  /** The compare-and-set under the write lease, which a replacement in progress holds. */
  function StepSave(w: World, op: OperationId): World
    requires op in w.operations
  {
    var o := w.operations[op];
    if !o.point.Saving? || w.writer.Some? then w
    else
      var current, effective := o.point.current, o.point.effective;
      var after := CompareAndSet(Some(w.store), Some(current), effective, false, w.providerId);
      var written := SamePair(w.store, current, w.providerId);
      Move(w, op, Saved(effective)).(
        store := after.value,
        spent := if written && effective.refreshToken != current.refreshToken && current.refreshToken.Some?
                 then w.spent + {current.refreshToken.value} else w.spent)
  }

  /** The operation's promise settles: it is no longer offered to later callers, unless another one took its place. */
  function StepClearFlight(w: World, op: OperationId): World
    requires op in w.operations
  {
    var o := w.operations[op];
    if o.point.Finished? && o.process in w.flights && w.flights[o.process] == op then w.(flights := w.flights - {o.process})
    else w
  }

  /** Credentials were replaced in this process: a new generation, and nothing to join. */
  function Bump(w: World, process: ProcessId): World {
    w.(generations := w.generations[process := Generation(w, process) + 1], flights := w.flights - {process})
  }

  predicate OfOperation(a: Action) {
    Decides(a) || a.Rotate? || a.Save? || a.ClearFlight?
  }

  function StepOperation(w: World, a: Action): World
    requires OfOperation(a) && a.op in w.operations
  {
    if a.Rotate? then StepRotate(w, a.op, a.refreshed)
    else if a.Save? then StepSave(w, a.op)
    else if a.ClearFlight? then StepClearFlight(w, a.op)
    else Proceed(w, a.op, Decide(w, w.operations[a.op], a))
  }

  function Step(w: World, a: Action): World {
    match a
    case Launch(op, process, force, allowFallback) =>
      if op in w.operations || process in w.flights then w   // an operation in flight is joined
      else
        w.(operations := w.operations[op := Operation(process, Generation(w, process), force, allowFallback, Starting)],
           flights := w.flights[process := op])
    case BeginReplace(process, tokens) =>
      if w.writer.Some? then w
      else Bump(w, process).(writer := Some(tokens), seen := See(w.seen, tokens))
    case EndReplace =>
      if w.writer == None then w
      else w.(store := w.writer.value, latest := w.writer.value, writer := None)
    case Invalidate(process) => Bump(w, process)
    case LeaseExpires => w.(lease := None)
    case _ => if a.op in w.operations then StepOperation(w, a) else w
  }

  function Run(w: World, actions: seq<Action>): World {
    if actions == [] then w
    else Step(Run(w, actions[..|actions| - 1]), actions[|actions| - 1])
  }

  function Initial(providerId: Option<string>, tokens: Tokens): World {
    World(providerId, tokens, tokens, None, None, map[], map[], map[], {}, See({}, tokens), {})
  }

  // ---- What every reachable world satisfies while the lease is exclusive ----

  predicate Unspent(spent: set<string>, tokens: Tokens) {
    tokens.refreshToken.Some? ==> tokens.refreshToken.value !in spent
  }

  predicate Known(seen: set<string>, tokens: Tokens) {
    tokens.accessToken in seen && (tokens.refreshToken.Some? ==> tokens.refreshToken.value in seen)
  }

  /** The pair an operation under the lease is working from, if it has read one. */
  function Working(point: Point): Option<Tokens> {
    match point
    case ReadAgain(_, current) => Some(current)
    case Asking(current) => Some(current)
    case Answered(current, _) => Some(current)
    case Saving(current, _) => Some(current)
    case _ => None
  }

  /** The pair it wants to store, if the provider has answered. */
  function Wanted(point: Point): Option<Tokens> {
    match point
    case Answered(_, refreshed) => Some(refreshed)
    case Saving(_, effective) => Some(effective)
    case _ => None
  }

  predicate LeaseOk(lease: Option<OperationId>, operations: map<OperationId, Operation>) {
    && (forall op :: op in operations && UnderLease(operations[op].point) ==> lease == Some(op))
    && (lease.Some? ==> lease.value in operations && UnderLease(operations[lease.value].point))
  }

  /** A pair in circulation and, in a run that is clean so far, with an unspent refresh token. */
  predicate PairOk(seen: set<string>, spent: set<string>, clean: bool, tokens: Tokens) {
    Known(seen, tokens) && (clean ==> Unspent(spent, tokens))
  }

  predicate OperationOk(seen: set<string>, spent: set<string>, clean: bool, point: Point) {
    var working, wanted := Working(point), Wanted(point);
    && (working.Some? ==> PairOk(seen, spent, clean, working.value))
    && (working.Some? && !point.ReadAgain? ==> working.value.refreshToken.Some?)
    && (wanted.Some? ==> PairOk(seen, spent, clean, wanted.value) && wanted.value.accessToken != working.value.accessToken
                         && wanted.value.refreshToken.Some?)
  }

  /** `clean` says that no replacement brought a spent refresh token back. */
  ghost predicate Inv(w: World, clean: bool) {
    && LeaseOk(w.lease, w.operations)
    && w.spent <= w.seen
    && PairOk(w.seen, w.spent, clean, w.store)
    && (w.writer.Some? ==> Known(w.seen, w.writer.value))
    && (forall op :: op in w.operations ==> OperationOk(w.seen, w.spent, clean, w.operations[op].point))
  }

  lemma InitialInv(providerId: Option<string>, tokens: Tokens)
    ensures Inv(Initial(providerId, tokens), true)
  {
  }

  /** An operation going on, with the rest of the world unchanged. */
  lemma ProceedKeepsInv(w: World, op: OperationId, point: Point, clean: bool)
    requires Inv(w, clean) && op in w.operations && OperationOk(w.seen, w.spent, clean, point)
    requires !point.Finished? ==> (UnderLease(point) <==> UnderLease(w.operations[op].point) || point.HasLease?)
    requires point.HasLease? ==> w.lease == None || point == w.operations[op].point
    ensures Inv(Proceed(w, op, point), clean)
  {
  }

  /** What an operation decides by itself involves no pair but its own and the stored one. */
  lemma DecideIsOk(w: World, op: OperationId, a: Action, clean: bool)
    requires Inv(w, clean) && op in w.operations && Decides(a)
    ensures var point := Decide(w, w.operations[op], a);
            && OperationOk(w.seen, w.spent, clean, point)
            && (!point.Finished? ==> (UnderLease(point) <==> UnderLease(w.operations[op].point) || point.HasLease?))
            && (point.HasLease? ==> w.lease == None || point == w.operations[op].point)
  {
    assert OperationOk(w.seen, w.spent, clean, w.operations[op].point);
  }

  lemma RotateKeepsInv(w: World, op: OperationId, refreshed: Tokens, clean: bool)
    requires Inv(w, clean) && op in w.operations
    ensures Inv(StepRotate(w, op, refreshed), clean)
  {
    var after := StepRotate(w, op, refreshed);
    forall other | other in after.operations
      ensures OperationOk(after.seen, after.spent, clean, after.operations[other].point)
    {
      assert OperationOk(w.seen, w.spent, clean, w.operations[other].point);
    }
  }

  /** The save spends a token, but only its own operation was working from a pair. */
  lemma SaveKeepsInv(w: World, op: OperationId, clean: bool)
    requires Inv(w, clean) && op in w.operations
    ensures Inv(StepSave(w, op), clean)
  {
    var after := StepSave(w, op);
    forall other | other in after.operations && other != op
      ensures OperationOk(after.seen, after.spent, clean, after.operations[other].point)
    {
      assert OperationOk(w.seen, w.spent, clean, w.operations[other].point);
    }
  }

  lemma OperationStepKeepsInv(w: World, a: Action, clean: bool)
    requires Inv(w, clean) && OfOperation(a) && a.op in w.operations
    ensures Inv(StepOperation(w, a), clean)
  {
    if a.Rotate? {
      RotateKeepsInv(w, a.op, a.refreshed, clean);
    } else if a.Save? {
      SaveKeepsInv(w, a.op, clean);
    } else if Decides(a) {
      DecideIsOk(w, a.op, a, clean);
      ProceedKeepsInv(w, a.op, Decide(w, w.operations[a.op], a), clean);
    }
  }

  /** A replacement that brings back a refresh token whose rotation was saved. */
  predicate RestoresSpent(w: World, a: Action) {
    a.EndReplace? && w.writer.Some? && !Unspent(w.spent, w.writer.value)
  }

  lemma OtherStepKeepsInv(w: World, a: Action, clean: bool)
    requires Inv(w, clean) && !a.LeaseExpires? && !OfOperation(a)
    ensures Inv(Step(w, a), clean && !RestoresSpent(w, a))
  {
  }

  lemma StepKeepsInv(w: World, a: Action, clean: bool)
    requires Inv(w, clean) && !a.LeaseExpires?
    ensures Inv(Step(w, a), clean && !RestoresSpent(w, a))
  {
    if OfOperation(a) {
      if a.op in w.operations {
        OperationStepKeepsInv(w, a, clean);
      }
    } else {
      OtherStepKeepsInv(w, a, clean);
    }
  }

  /** The lease stays exclusive for as long as it is held. */
  predicate LeaseRespected(actions: seq<Action>) {
    forall i :: 0 <= i < |actions| ==> !actions[i].LeaseExpires?
  }

  predicate NoSpentRestored(w: World, actions: seq<Action>) {
    forall i :: 0 <= i < |actions| ==> !RestoresSpent(Run(w, actions[..i]), actions[i])
  }

  lemma {:induction false} RunKeepsInv(w: World, actions: seq<Action>, clean: bool)
    requires Inv(w, clean) && LeaseRespected(actions)
    ensures Inv(Run(w, actions), clean && NoSpentRestored(w, actions))
    decreases |actions|
  {
    if actions != [] {
      var k := |actions| - 1;
      RunKeepsInv(w, actions[..k], clean);
      StepKeepsInv(Run(w, actions[..k]), actions[k], clean && NoSpentRestored(w, actions[..k]));
      if NoSpentRestored(w, actions) {
        assert forall i :: 0 <= i < k ==> actions[..k][..i] == actions[..i];
      }
    }
  }

  /** The step in which a refresh token goes out to the provider, and that token. */
  predicate Presents(w: World, a: Action, token: string) {
    && a.ResumeAgain? && a.op in w.operations && w.operations[a.op].point.ReadAgain?
    && Step(w, a).operations[a.op].point.Asking?
    && Step(w, a).operations[a.op].point.current.refreshToken == Some(token)
  }

  lemma PresentsUnspent(w: World, a: Action, token: string)
    requires Inv(w, true) && Presents(w, a, token)
    ensures token !in w.spent
  {
    assert OperationOk(w.seen, w.spent, true, w.operations[a.op].point);
  }

  /** In every interleaving, with lost replies, replacements and any number of processes, a refresh
      token whose rotation was received and saved is never presented to the provider again, unless
      a replacement brings it back. */
  lemma NeverPresentedAgain(providerId: Option<string>, tokens: Tokens, actions: seq<Action>, next: Action, token: string)
    requires LeaseRespected(actions) && NoSpentRestored(Initial(providerId, tokens), actions)
    requires Presents(Run(Initial(providerId, tokens), actions), next, token)
    ensures token !in Run(Initial(providerId, tokens), actions).spent
  {
    InitialInv(providerId, tokens);
    RunKeepsInv(Initial(providerId, tokens), actions, true);
    PresentsUnspent(Run(Initial(providerId, tokens), actions), next, token);
  }

  // ---- Replacements that bring a spent token back ----

  lemma RunThen(w: World, actions: seq<Action>, a: Action)
    ensures Run(w, actions + [a]) == Step(Run(w, actions), a)
  {
    assert (actions + [a])[..|actions|] == actions;
  }

  lemma {:induction false} RunSplits(w: World, before: seq<Action>, after: seq<Action>)
    ensures Run(w, before + after) == Run(Run(w, before), after)
    decreases |after|
  {
    if after == [] {
      assert before + after == before;
    } else {
      var init, last := after[..|after| - 1], after[|after| - 1];
      assert before + after == before + init + [last] && after == init + [last];
      RunSplits(w, before, init);
      RunThen(w, before + init, last);
      RunThen(Run(w, before), init, last);
    }
  }

  lemma StaysUnspent(w: World, actions: seq<Action>, k: nat)
    requires Inv(w, true) && LeaseRespected(actions) && NoSpentRestored(w, actions) && k <= |actions|
    ensures Unspent(Run(w, actions[..k]).spent, Run(w, actions[..k]).store)
  {
    assert forall i :: 0 <= i < k ==> actions[..k][..i] == actions[..i];
    RunKeepsInv(w, actions[..k], true);
  }

  lemma RestoredIsStored(w: World, actions: seq<Action>, i: nat)
    requires i < |actions| && RestoresSpent(Run(w, actions[..i]), actions[i])
    ensures !Unspent(Run(w, actions[..i + 1]).spent, Run(w, actions[..i + 1]).store)
  {
    assert actions[..i + 1] == actions[..i] + [actions[i]];
    RunThen(w, actions[..i], actions[i]);
  }

  /** The stored refresh token is unspent all along a run exactly when no replacement brings a spent one back. */
  lemma StoreStaysUnspentExactlyWhen(providerId: Option<string>, tokens: Tokens, actions: seq<Action>)
    requires LeaseRespected(actions)
    ensures var start := Initial(providerId, tokens);
            (forall k :: 0 <= k <= |actions| ==> Unspent(Run(start, actions[..k]).spent, Run(start, actions[..k]).store))
            <==> NoSpentRestored(start, actions)
  {
    var start := Initial(providerId, tokens);
    InitialInv(providerId, tokens);
    if NoSpentRestored(start, actions) {
      forall k | 0 <= k <= |actions|
        ensures Unspent(Run(start, actions[..k]).spent, Run(start, actions[..k]).store)
      {
        StaysUnspent(start, actions, k);
      }
    } else {
      var i :| 0 <= i < |actions| && RestoresSpent(Run(start, actions[..i]), actions[i]);
      RestoredIsStored(start, actions, i);
    }
  }

  /** A continuation in which a spent token goes out although no replacement brings one back any more. */
  ghost predicate PresentsSpent(w: World, more: seq<Action>, next: Action, token: string) {
    && LeaseRespected(more) && NoSpentRestored(w, more)
    && Presents(Run(w, more), next, token) && token in Run(w, more).spent
  }

  /** Whenever nobody holds the lease, a spent token can go out again exactly when the stored one is spent. */
  lemma SpentIsPresentedExactlyWhen(providerId: Option<string>, tokens: Tokens, actions: seq<Action>)
    requires LeaseRespected(actions) && Run(Initial(providerId, tokens), actions).lease == None
    ensures var w := Run(Initial(providerId, tokens), actions);
            (exists more, next, token :: PresentsSpent(w, more, next, token)) <==> !Unspent(w.spent, w.store)
  {
    var w := Run(Initial(providerId, tokens), actions);
    InitialInv(providerId, tokens);
    RunKeepsInv(Initial(providerId, tokens), actions, true);
    if Unspent(w.spent, w.store) {
      forall more, next, token
        ensures !PresentsSpent(w, more, next, token)
      {
        if PresentsSpent(w, more, next, token) {
          FreeLeaseIsClean(w);
          RunKeepsInv(w, more, true);
          PresentsUnspent(Run(w, more), next, token);
        }
      }
    } else {
      var more, next := PresentsStored(w);
      assert PresentsSpent(w, more, next, w.store.refreshToken.value);
    }
  }

  /** Without a holder of the lease nobody works from a pair, so only the stored one matters. */
  lemma FreeLeaseIsClean(w: World)
    requires Inv(w, false) && w.lease == None && Unspent(w.spent, w.store)
    ensures Inv(w, true)
  {
  }

  lemma {:induction false} SomeIdIsFree(taken: set<nat>) returns (id: nat)
    ensures forall other :: other in taken ==> other < id
    decreases |taken|
  {
    if taken == {} {
      id := 0;
    } else {
      var one :| one in taken;
      var rest := SomeIdIsFree(taken - {one});
      assert forall other :: other in taken ==> other == one || other in taken - {one};
      id := if one < rest then rest else one + 1;
    }
  }

  /** Actions that neither end a replacement nor let the lease expire. */
  predicate Plain(actions: seq<Action>) {
    forall i :: 0 <= i < |actions| ==> !actions[i].LeaseExpires? && !actions[i].EndReplace?
  }

  lemma Then(w: World, actions: seq<Action>, a: Action) returns (longer: seq<Action>)
    ensures longer == actions + [a] && Run(w, longer) == Step(Run(w, actions), a)
    ensures Plain(actions) && Plain([a]) ==> Plain(longer)
  {
    longer := actions + [a];
    RunThen(w, actions, a);
    assert [a][0] == a;
  }

  /** The world with an operation of its own process added. */
  function With(w: World, op: OperationId, o: Operation, lease: Option<OperationId>): World {
    w.(operations := w.operations[op := o], flights := w.flights[o.process := op], lease := lease)
  }

  lemma ThenDecides(w: World, actions: seq<Action>, op: OperationId, o: Operation, lease: Option<OperationId>, a: Action)
    returns (longer: seq<Action>)
    requires Plain(actions) && Run(w, actions) == With(w, op, o, lease) && Decides(a) && a.op == op
    requires var point := Decide(With(w, op, o, lease), o, a); point != o.point && !point.Finished?
    ensures Plain(longer)
    ensures var point := Decide(With(w, op, o, lease), o, a);
            Run(w, longer) == With(w, op, o.(point := point), if point.HasLease? then Some(op) else lease)
  {
    longer := Then(w, actions, a);
    assert [a][0] == a;
    var point := Decide(With(w, op, o, lease), o, a);
    assert w.operations[op := o][op := o.(point := point)] == w.operations[op := o.(point := point)];
  }

  /** With the lease free, a new operation reads the stored pair under the lease and is about to present it. */
  lemma ReadsUnderLease(w: World, op: OperationId, process: ProcessId) returns (more: seq<Action>)
    requires w.lease == None && w.store.refreshToken.Some? && op !in w.operations && process !in w.flights
    ensures Plain(more)
    ensures Run(w, more) == With(w, op, Operation(process, Generation(w, process), false, false, ReadAgain(w.store, w.store)), Some(op))
  {
    var o := Operation(process, Generation(w, process), false, false, Starting);
    more := Then(w, [], Launch(op, process, false, false));
    assert Run(w, more) == With(w, op, o, None);
    more := ThenDecides(w, more, op, o, None, Read(op));
    more := ThenDecides(w, more, op, o.(point := ReadFirst(w.store)), None, ResumeFirst(op, true, false, false));
    more := ThenDecides(w, more, op, o.(point := WantsLease(w.store)), None, Acquire(op));
    more := ThenDecides(w, more, op, o.(point := HasLease(w.store)), Some(op), Read(op));
  }

  lemma PresentsStored(w: World) returns (more: seq<Action>, next: Action)
    requires w.lease == None && w.store.refreshToken.Some?
    ensures LeaseRespected(more) && NoSpentRestored(w, more)
    ensures Presents(Run(w, more), next, w.store.refreshToken.value) && Run(w, more).spent == w.spent
  {
    var op := SomeIdIsFree(w.operations.Keys);
    var process := SomeIdIsFree(w.flights.Keys);
    more := ReadsUnderLease(w, op, process);
    next := ResumeAgain(op, true, false);
  }

  // ---- What the stored pair descends from, with or without an exclusive lease ----

  /** The provider's tokens, under the account id the provider named, or else the old pair's, or else the account's own. */
  predicate StoresAnswer(r: Rotation, providerId: Option<string>, next: Tokens) {
    && next.idToken == r.to.idToken && next.accessToken == r.to.accessToken && next.refreshToken == r.to.refreshToken
    && next.accountId == if r.to.accountId.Some? then r.to.accountId
                         else if r.from.accountId.Some? then r.from.accountId else providerId
  }

  /** `next` is what a rotation of a pair equal to `tokens` stores. */
  predicate Follows(rotations: set<Rotation>, providerId: Option<string>, tokens: Tokens, next: Tokens) {
    exists r :: r in rotations && SamePair(r.from, tokens, providerId) && StoresAnswer(r, providerId, next)
  }

  predicate Chain(rotations: set<Rotation>, providerId: Option<string>, chain: seq<Tokens>) {
    forall i :: 0 < i < |chain| ==> Follows(rotations, providerId, chain[i - 1], chain[i])
  }

  /** `to` is `from` itself, or was rotated from a pair equal to it, any number of times. */
  ghost predicate Descends(rotations: set<Rotation>, providerId: Option<string>, from: Tokens, to: Tokens) {
    exists chain: seq<Tokens> ::
      chain != [] && chain[0] == from && chain[|chain| - 1] == to && Chain(rotations, providerId, chain)
  }

  /** What an operation wants to store was answered by the provider for the pair it works from. */
  predicate AnswerOk(rotations: set<Rotation>, point: Point) {
    match point
    case Answered(current, refreshed) => Rotation(current, refreshed) in rotations
    case Saving(current, effective) => exists r :: r in rotations && r.from == current && effective == WithAccount(r)
    case _ => true
  }

  ghost predicate HistoryOk(w: World) {
    && Descends(w.rotations, w.providerId, w.latest, w.store)
    && (forall op :: op in w.operations ==> AnswerOk(w.rotations, w.operations[op].point))
  }

  lemma Unmoved(rotations: set<Rotation>, providerId: Option<string>, tokens: Tokens)
    ensures Descends(rotations, providerId, tokens, tokens)
  {
    assert Chain(rotations, providerId, [tokens]);
  }

  lemma FollowsKept(rotations: set<Rotation>, more: set<Rotation>, providerId: Option<string>, tokens: Tokens, next: Tokens)
    requires rotations <= more && Follows(rotations, providerId, tokens, next)
    ensures Follows(more, providerId, tokens, next)
  {
    var r :| r in rotations && SamePair(r.from, tokens, providerId) && StoresAnswer(r, providerId, next);
    assert r in more;
  }

  lemma MoreRotations(rotations: set<Rotation>, more: set<Rotation>, providerId: Option<string>, from: Tokens, to: Tokens)
    requires rotations <= more && Descends(rotations, providerId, from, to)
    ensures Descends(more, providerId, from, to)
  {
    var chain :| chain != [] && chain[0] == from && chain[|chain| - 1] == to && Chain(rotations, providerId, chain);
    forall i | 0 < i < |chain|
      ensures Follows(more, providerId, chain[i - 1], chain[i])
    {
      FollowsKept(rotations, more, providerId, chain[i - 1], chain[i]);
    }
  }

  lemma Prolonged(rotations: set<Rotation>, providerId: Option<string>, from: Tokens, to: Tokens, next: Tokens)
    requires Descends(rotations, providerId, from, to) && Follows(rotations, providerId, to, next)
    ensures Descends(rotations, providerId, from, next)
  {
    var chain :| chain != [] && chain[0] == from && chain[|chain| - 1] == to && Chain(rotations, providerId, chain);
    assert Chain(rotations, providerId, chain + [next]);
  }

  lemma RotateKeepsHistory(w: World, op: OperationId, refreshed: Tokens)
    requires HistoryOk(w) && op in w.operations
    ensures HistoryOk(StepRotate(w, op, refreshed))
  {
    var after := StepRotate(w, op, refreshed);
    MoreRotations(w.rotations, after.rotations, w.providerId, w.latest, w.store);
    forall other | other in after.operations
      ensures AnswerOk(after.rotations, after.operations[other].point)
    {
      assert AnswerOk(w.rotations, w.operations[other].point);
    }
  }

  lemma SaveKeepsHistory(w: World, op: OperationId)
    requires HistoryOk(w) && op in w.operations
    ensures HistoryOk(StepSave(w, op))
  {
    var o := w.operations[op];
    if o.point.Saving? && w.writer == None && SamePair(w.store, o.point.current, w.providerId) {
      var r :| r in w.rotations && r.from == o.point.current && o.point.effective == WithAccount(r);
      var after := StepSave(w, op);
      assert StoresAnswer(r, w.providerId, after.store);
      assert Follows(w.rotations, w.providerId, w.store, after.store);
      Prolonged(w.rotations, w.providerId, w.latest, w.store, after.store);
    }
  }

  lemma DecideKeepsHistory(w: World, a: Action)
    requires HistoryOk(w) && Decides(a) && a.op in w.operations
    ensures HistoryOk(StepOperation(w, a))
  {
    var point := w.operations[a.op].point;
    assert AnswerOk(w.rotations, point);
    if point.Answered? {
      assert Rotation(point.current, point.refreshed) in w.rotations;
    }
    assert AnswerOk(w.rotations, Decide(w, w.operations[a.op], a));
  }

  lemma StepKeepsHistory(w: World, a: Action)
    requires HistoryOk(w)
    ensures HistoryOk(Step(w, a))
  {
    if a.EndReplace? && w.writer.Some? {
      Unmoved(w.rotations, w.providerId, w.writer.value);
    } else if OfOperation(a) && a.op in w.operations {
      if a.Rotate? {
        RotateKeepsHistory(w, a.op, a.refreshed);
      } else if a.Save? {
        SaveKeepsHistory(w, a.op);
      } else if Decides(a) {
        DecideKeepsHistory(w, a);
      }
    }
  }

  lemma {:induction false} RunKeepsHistory(w: World, actions: seq<Action>)
    requires HistoryOk(w)
    ensures HistoryOk(Run(w, actions))
    decreases |actions|
  {
    if actions != [] {
      RunKeepsHistory(w, actions[..|actions| - 1]);
      StepKeepsHistory(Run(w, actions[..|actions| - 1]), actions[|actions| - 1]);
    }
  }

  /** The stored pair is always the latest replacement, or was rotated from a pair equal to it: no refresh
      of any other pair overwrites a replacement, whichever process it runs in and even if leases expire. */
  lemma StoreDescendsFromLatestReplacement(providerId: Option<string>, tokens: Tokens, actions: seq<Action>)
    ensures var w := Run(Initial(providerId, tokens), actions);
            Descends(w.rotations, providerId, w.latest, w.store)
  {
    Unmoved({}, providerId, tokens);
    RunKeepsHistory(Initial(providerId, tokens), actions);
    RunKeepsProvider(Initial(providerId, tokens), actions);
  }

  lemma StepKeepsProvider(w: World, a: Action)
    ensures Step(w, a).providerId == w.providerId && w.rotations <= Step(w, a).rotations
  {
  }

  lemma {:induction false} RunKeepsProvider(w: World, actions: seq<Action>)
    ensures Run(w, actions).providerId == w.providerId && w.rotations <= Run(w, actions).rotations
    decreases |actions|
  {
    if actions != [] {
      RunKeepsProvider(w, actions[..|actions| - 1]);
      StepKeepsProvider(Run(w, actions[..|actions| - 1]), actions[|actions| - 1]);
    }
  }

  /** When a replacement is a pair that no refresh ever started from, only a refresh answered later replaces it in turn. */
  lemma OlderRefreshesNeverOverwrite(providerId: Option<string>, tokens: Tokens, before: seq<Action>, after: seq<Action>)
    requires var w0 := Run(Initial(providerId, tokens), before);
             forall r :: r in w0.rotations ==> !SamePair(r.from, w0.latest, providerId)
    requires Run(Initial(providerId, tokens), before + after).latest == Run(Initial(providerId, tokens), before).latest
    ensures var w0, w := Run(Initial(providerId, tokens), before), Run(Initial(providerId, tokens), before + after);
            w.store == w.latest || exists r :: r in w.rotations - w0.rotations && SamePair(r.from, w.latest, providerId)
  {
    var w0, w := Run(Initial(providerId, tokens), before), Run(Initial(providerId, tokens), before + after);
    StoreDescendsFromLatestReplacement(providerId, tokens, before + after);
    var chain :| chain != [] && chain[0] == w.latest && chain[|chain| - 1] == w.store && Chain(w.rotations, providerId, chain);
    if |chain| > 1 {
      assert Follows(w.rotations, providerId, chain[0], chain[1]);
      var r :| r in w.rotations && SamePair(r.from, chain[0], providerId) && StoresAnswer(r, providerId, chain[1]);
      assert r in w.rotations - w0.rotations;
    }
  }

  /** Seen from one save: it takes effect exactly when the pair it was computed from is still stored. */
  lemma SaveTakesEffectOnlyOnItsOwnPair(w: World, op: OperationId, clean: bool)
    requires Inv(w, clean) && op in w.operations && w.operations[op].point.Saving? && w.writer == None
    ensures var o := w.operations[op];
            && (Step(w, Save(op)).store != w.store <==> SamePair(w.store, o.point.current, w.providerId))
            && (Step(w, Save(op)).store != w.store ==> Step(w, Save(op)).store == Normalized(o.point.effective, w.providerId))
            && (Step(w, Save(op)).store != w.store ==> Step(w, Save(op)).store.refreshToken.Some?)
            && Step(w, Save(op)).spent == w.spent + if Step(w, Save(op)).store != w.store && o.point.effective.refreshToken != o.point.current.refreshToken
                                                    then {o.point.current.refreshToken.value} else {}
  {
    assert OperationOk(w.seen, w.spent, clean, w.operations[op].point);
  }

  /** An operation whose process saw a replacement after it started stores nothing any more once its
      reply arrives: it hands back what is stored. */
  lemma SupersededReplyIsDropped(w: World, op: OperationId)
    requires op in w.operations && w.operations[op].point.Answered? && !Current(w, w.operations[op])
    ensures var after := Step(w, TakeReply(op));
            after.store == w.store && after.operations[op].point == Finished(Returned(w.store)) && after.lease != Some(op)
  {
  }

  // ---- Sharing one operation within a process ----

  /** What callers may join is an operation of their own process at its current generation. */
  predicate Joinable(flights: map<ProcessId, OperationId>, generations: map<ProcessId, nat>, operations: map<OperationId, Operation>) {
    forall p :: p in flights ==>
      flights[p] in operations && operations[flights[p]].process == p && operations[flights[p]].generation == GenerationIn(generations, p)
  }

  /** Every unfinished operation of the current generation can be joined. */
  predicate Offered(flights: map<ProcessId, OperationId>, generations: map<ProcessId, nat>, operations: map<OperationId, Operation>) {
    forall op :: op in operations ==>
      var o := operations[op];
      && o.generation <= GenerationIn(generations, o.process)
      && (!o.point.Finished? && o.generation == GenerationIn(generations, o.process) ==> o.process in flights && flights[o.process] == op)
  }

  predicate SameGeneration(a: Operation, b: Operation) {
    a.process == b.process && a.generation == b.generation
  }

  predicate OnePerGeneration(operations: map<OperationId, Operation>) {
    forall a, b :: a in operations && b in operations && a != b && SameGeneration(operations[a], operations[b]) ==>
      operations[a].point.Finished? || operations[b].point.Finished?
  }

  predicate FlightsOk(w: World) {
    && Joinable(w.flights, w.generations, w.operations) && Offered(w.flights, w.generations, w.operations)
    && OnePerGeneration(w.operations)
  }

  lemma MoveKeepsFlights(w: World, after: World, op: OperationId, point: Point)
    requires FlightsOk(w) && op in w.operations
    requires after.flights == w.flights && after.generations == w.generations
    requires after.operations == w.operations[op := w.operations[op].(point := point)]
    requires w.operations[op].point.Finished? ==> point.Finished?
    ensures FlightsOk(after)
  {
  }

  lemma LaunchKeepsFlights(flights: map<ProcessId, OperationId>, generations: map<ProcessId, nat>,
                           operations: map<OperationId, Operation>, op: OperationId, o: Operation)
    requires Joinable(flights, generations, operations) && Offered(flights, generations, operations) && OnePerGeneration(operations)
    requires op !in operations && o.process !in flights && o.generation == GenerationIn(generations, o.process)
    ensures Joinable(flights[o.process := op], generations, operations[op := o])
    ensures Offered(flights[o.process := op], generations, operations[op := o])
    ensures OnePerGeneration(operations[op := o])
  {
  }

  lemma BumpKeepsFlights(w: World, process: ProcessId)
    requires FlightsOk(w)
    ensures FlightsOk(Bump(w, process))
  {
  }

  lemma OperationKeepsFlights(w: World, a: Action)
    requires FlightsOk(w) && OfOperation(a) && a.op in w.operations && !a.ClearFlight?
    ensures FlightsOk(StepOperation(w, a))
  {
    var after := StepOperation(w, a);
    if w.operations[a.op].point.Finished? && Decides(a) {
      FinishedStays(w, w.operations[a.op], a);
    }
    assert w.operations == w.operations[a.op := w.operations[a.op]];
    MoveKeepsFlights(w, after, a.op, after.operations[a.op].point);
  }

  lemma StepKeepsFlights(w: World, a: Action)
    requires FlightsOk(w)
    ensures FlightsOk(Step(w, a))
  {
    match a
    case Launch(op, process, force, allowFallback) =>
      if op !in w.operations && process !in w.flights {
        var o := Operation(process, Generation(w, process), force, allowFallback, Starting);
        LaunchKeepsFlights(w.flights, w.generations, w.operations, op, o);
      }
    case BeginReplace(process, _) => BumpKeepsFlights(w, process);
    case Invalidate(process) => BumpKeepsFlights(w, process);
    case EndReplace =>
    case LeaseExpires =>
    case ClearFlight(_) =>
    case _ =>
      if a.op in w.operations {
        OperationKeepsFlights(w, a);
      }
  }

  lemma FinishedStays(w: World, o: Operation, a: Action)
    requires o.point.Finished? && Decides(a)
    ensures Decide(w, o, a) == o.point
  {
  }

  lemma {:induction false} RunKeepsFlights(w: World, actions: seq<Action>)
    requires FlightsOk(w)
    ensures FlightsOk(Run(w, actions))
    decreases |actions|
  {
    if actions != [] {
      RunKeepsFlights(w, actions[..|actions| - 1]);
      StepKeepsFlights(Run(w, actions[..|actions| - 1]), actions[|actions| - 1]);
    }
  }

  /** In every interleaving a process runs at most one operation per generation, and whoever joins one joins an
      operation that was started after the last invalidation in that process. */
  lemma OneOperationPerGeneration(providerId: Option<string>, tokens: Tokens, actions: seq<Action>)
    ensures var w := Run(Initial(providerId, tokens), actions);
            && (forall a, b :: a in w.operations && b in w.operations && a != b && SameGeneration(w.operations[a], w.operations[b]) ==>
                  w.operations[a].point.Finished? || w.operations[b].point.Finished?)
            && (forall p :: p in w.flights ==>
                  w.flights[p] in w.operations && w.operations[w.flights[p]].process == p && Current(w, w.operations[w.flights[p]]))
  {
    RunKeepsFlights(Initial(providerId, tokens), actions);
  }

  // ---- The hypotheses are needed ----

  const Pair0 := Tokens("id", "access0", Some("refresh0"), None)
  const Pair1 := Tokens("id", "access1", Some("refresh1"), None)

  lemma SecondPairIsFresh(w: World)
    requires w.seen == See({}, Pair0)
    ensures Fresh(w, Pair1)
  {
    assert "access1"[6] != "access0"[6] && "access1"[0] != "refresh0"[0] && "refresh1"[7] != "refresh0"[7];
  }

  /** An operation that read the first pair under the lease has it rotated. */
  lemma Rotates(w: World, op: OperationId) returns (more: seq<Action>)
    requires op in w.operations && w.operations[op].point == ReadAgain(Pair0, Pair0) && Current(w, w.operations[op])
    requires w.seen == See({}, Pair0)
    ensures Plain(more)
    ensures Run(w, more) == Move(w, op, Answered(Pair0, Pair1)).(seen := See(w.seen, Pair1),
                                                                  rotations := w.rotations + {Rotation(Pair0, Pair1)})
  {
    SecondPairIsFresh(w);
    more := Then(w, [], ResumeAgain(op, true, false));
    assert Run(w, more) == Move(w, op, Asking(Pair0));
    more := Then(w, more, Rotate(op, Pair1));
  }

  /** ... and saves the second pair. */
  lemma SavesRotation(w: World, op: OperationId) returns (more: seq<Action>)
    requires op in w.operations && w.operations[op].point == ReadAgain(Pair0, Pair0) && Current(w, w.operations[op])
    requires w.store == Pair0 && w.providerId == None && w.writer == None && w.seen == See({}, Pair0)
    ensures Plain(more)
    ensures var after := Run(w, more);
            && after.operations == w.operations[op := w.operations[op].(point := Saved(Pair1))]
            && after.spent == w.spent + {"refresh0"} && after.lease == w.lease && after.writer == None
  {
    more := Rotates(w, op);
    more := Then(w, more, TakeReply(op));
    assert Run(w, more).operations == w.operations[op := w.operations[op].(point := Saving(Pair0, Pair1))];
    more := Then(w, more, Save(op));
    assert "refresh1"[7] != "refresh0"[7];
  }

  /** If a lease may expire while held, two processes can both read the pair under it, and the refresh
      token that the first one rotated and saved is presented again by the second. */
  lemma ExpiredLeaseReplays() returns (actions: seq<Action>)
    ensures NoSpentRestored(Initial(None, Pair0), actions)
    ensures var w := Run(Initial(None, Pair0), actions);
            "refresh0" in w.spent && Presents(w, ResumeAgain(1, true, false), "refresh0")
  {
    var start := Initial(None, Pair0);
    var first := ReadsUnderLease(start, 0, 0);
    var expiring := Then(start, first, LeaseExpires);
    var rest := OtherReadsAndSaves(Run(start, expiring));
    RunSplits(start, expiring, rest);
    actions := expiring + rest;
  }

  lemma OtherReadsAndSaves(w: World) returns (more: seq<Action>)
    requires w.operations.Keys == {0} && w.operations[0].point == ReadAgain(Pair0, Pair0) && Current(w, w.operations[0])
    requires w.lease == None && w.flights.Keys == {0}
    requires w.store == Pair0 && w.providerId == None && w.writer == None && w.seen == See({}, Pair0)
    ensures Plain(more)
    ensures "refresh0" in Run(w, more).spent && Presents(Run(w, more), ResumeAgain(1, true, false), "refresh0")
  {
    var second := ReadsUnderLease(w, 1, 1);
    var third := SavesRotation(Run(w, second), 0);
    RunSplits(w, second, third);
    more := second + third;
  }

  /** The operation finishes, and a replacement brings the first pair back. */
  lemma FinishesAndRestores(w: World, op: OperationId) returns (more: seq<Action>)
    requires op in w.operations && w.operations[op].point.Saved? && w.lease == Some(op) && w.writer == None
    ensures LeaseRespected(more)
    ensures var after := Run(w, more); after.lease == None && after.store == Pair0 && after.spent == w.spent
  {
    more := Then(w, [], Read(op));
    more := Then(w, more, BeginReplace(1, Pair0));
    more := Then(w, more, EndReplace);
  }

  /** If a replacement may bring back a pair that was rotated already, the spent token goes out again. */
  lemma RestoredPairReplays() returns (actions: seq<Action>)
    ensures LeaseRespected(actions)
    ensures var w := Run(Initial(None, Pair0), actions);
            "refresh0" in w.spent && exists more, next, token :: PresentsSpent(w, more, next, token)
  {
    var start := Initial(None, Pair0);
    var first := ReadsUnderLease(start, 0, 0);
    var second := SavesRotation(Run(start, first), 0);
    RunSplits(start, first, second);
    var third := FinishesAndRestores(Run(start, first + second), 0);
    RunSplits(start, first + second, third);
    actions := first + second + third;
    SpentIsPresentedExactlyWhen(None, Pair0, actions);
  }
}
