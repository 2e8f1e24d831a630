/** What the single steps of the protocol send, record and leave alone, in every state the protocol can reach. */
module CredentialSyncSteps {
  import opened Wrappers
  import opened CredentialSync
  import opened CredentialSyncProtocol

  /** The update names exactly this export: its accounts without refresh tokens and its fingerprint. */
  predicate NamesExport(update: Update, exported: Export) {
    && |update.accounts| == |exported| && update.fingerprint == multiset(exported)
    && forall i :: 0 <= i < |exported| ==> HeldAs(update.accounts[i], exported[i])
  }

  /** A new relationship has named one update: version 1, the given event and exactly the given accounts. */
  lemma FirstUpdateNamesExport(exported: Export, event: EventId)
    ensures var w := Initial(exported, event);
            && |w.issued| == 1 && w.issued[0].version == 1 && w.issued[0].eventId == event && NamesExport(w.issued[0], exported)
            && w.record == Some(Record(AwaitingCreation, 0, None, Some(PendingUpdate(true, w.issued[0], 0, None))))
            && w.relay == None && w.wire == map[] && w.follower.tokens == map[]
  {
    var w := Initial(exported, event);
    assert w.issued[0].accounts == Stripped(exported);
  }

  lemma NewPendingNamesExport(exported: Export, event: EventId, version: nat)
    ensures var p := NewPending(exported, event, version);
            && NamesExport(p.update, exported) && p.update.version == version && p.update.eventId == event
            && p == PendingUpdate(false, p.update, 0, None)
  {
  }

  /** Taking the awaited answer to a read. */
  predicate ReadsAnswer(w: World, a: Action) {
    a.Receive? && w.record.Some? && w.point.AwaitFetch? && Accepted(w.point.attempt, a.record) in w.responses && FreshEvent(w, a.event)
  }

  /** The export is neither what is recorded nor, once reconciled with the answer, what is pending. */
  predicate Changed(r: Record, remote: RelayRecord, exported: Export) {
    var adopted := Adopt(r, remote);
    if adopted.pending.Some? then adopted.pending.value.update.fingerprint != multiset(exported)
    else adopted.fingerprint != Some(multiset(exported))
  }

  /** How often the record has to be saved before a request goes out. */
  function SavesNeeded(r: Record, remote: RelayRecord, exported: Export): nat {
    (if Matches(r, remote) then 1 else 0) + (if Changed(r, remote, exported) then 1 else 0)
  }

  /** Reading an answer: only a stopped relationship is cleared; it fails exactly when a save fails or a changed export
      may not be published; it ends without a request only with the export recorded or its update waiting; and what it
      sends is the pending update, due and that of the export. */
  lemma ReadOutcome(r: Record, remote: RelayRecord, exported: Export, event: EventId, trusted: bool, now: int, saves: nat)
    ensures var (after, move) := AfterFetch(r, remote, exported, event, trusted, now, saves);
            && (after == None <==> remote.stopped)
            && (move == Throw <==> !remote.stopped && (saves < SavesNeeded(r, remote, exported) || (Changed(r, remote, exported) && !trusted)))
            && !move.SendCreate? && move != Fetch
            && (move == Finish && after.Some? ==>
                  if after.value.pending == None then after.value.fingerprint == Some(multiset(exported))
                  else !Due(after.value.pending.value, now) && after.value.pending.value.update.fingerprint == multiset(exported))
            && (move.SendPut? ==> after.Some? && after.value.pending == Some(move.pending) && Due(move.pending, now)
                                  && move.pending.update.fingerprint == multiset(exported))
  {
  }

  lemma QuietIssuesNothing(w: World, a: Action)
    requires !ReadsAnswer(w, a)
    ensures Step(w, a).issued == w.issued
  {
  }

  lemma ReadIssues(w: World, a: Action, p: PendingUpdate, after: World)
    requires Inv(w) && ReadsAnswer(w, a) && after == Step(w, a) && after.issued != w.issued
    requires p == NewPending(w.point.exported, a.event, |w.issued| + 1)
    ensures after.record.Some? && after.record.value.pending == Some(p) && after.issued == w.issued + [p.update]
    ensures Changed(w.record.value, a.record, w.point.exported)
  {
    var adopted := Adopt(w.record.value, a.record);
    if !a.record.stopped {
      AdoptKeepsRecord(w.issued, w.relay, w.record.value, a.record);
      NextVersionIsNew(w.issued, w.relay, adopted, a.record);
      FetchedRecord(w, a, adopted, p);
      if !Changed(w.record.value, a.record, w.point.exported) {
        ReadUnchanged(w, a);
      }
    }
  }

  lemma ReadUnchanged(w: World, a: Action)
    requires ReadsAnswer(w, a) && !a.record.stopped && !Changed(w.record.value, a.record, w.point.exported)
    requires Adopt(w.record.value, a.record).pending in {w.record.value.pending, None}
    ensures Step(w, a).issued == w.issued
  {
  }

  /** An update is named only when an answer shows that the export changed, and it is exactly that export's, with the
      next version, an event of its own and no attempt made yet. */
  lemma NewUpdateNamesExport(w: World, a: Action, after: World)
    requires Inv(w) && after == Step(w, a) && after.issued != w.issued
    ensures ReadsAnswer(w, a) && Changed(w.record.value, a.record, w.point.exported) && after.record.Some?
    ensures |after.issued| == |w.issued| + 1 && w.issued <= after.issued
    ensures NamesExport(Last(after.issued), w.point.exported)
    ensures Last(after.issued).version == |after.issued| && Last(after.issued).eventId == a.event
    ensures after.record.value.pending == Some(PendingUpdate(false, Last(after.issued), 0, None))
  {
    if !ReadsAnswer(w, a) {
      QuietIssuesNothing(w, a);
    } else {
      ReadIssues(w, a, NewPending(w.point.exported, a.event, |w.issued| + 1), after);
      NewPendingNamesExport(w.point.exported, a.event, |w.issued| + 1);
    }
  }

  /** Reconciling any record with any answer: the answer's own event is taken over; a newer version is recorded, and drops a
      pending update that is not newer still; an answer that is neither changes nothing. */
  lemma AdoptOutcome(r: Record, remote: RelayRecord)
    ensures var (after, mine) := (Adopt(r, remote), r.pending.Some? && r.pending.value.update.version == remote.version
                                                    && r.pending.value.update.eventId == remote.eventId);
            && after.mode == r.mode
            && after.version == (if mine || remote.version > r.version then remote.version else r.version)
            && after.fingerprint == (if mine then Some(r.pending.value.update.fingerprint) else r.fingerprint)
            && (after.pending == r.pending || after.pending == None)
            && (r.pending.Some? ==>
                  (after.pending == None <==>
                     mine || (remote.version > r.version && !(r.pending.value.update.version > remote.version))))
  {
  }

  /** Reconciling: an update is no longer pending exactly when the answer carries it, and then it is what is recorded;
      an older answer leaves it pending and the recorded snapshot alone. */
  lemma ReconciledRecord(w: World, a: Action)
    requires Inv(w) && ReadsAnswer(w, a)
    ensures var (before, adopted) := (w.record.value, Adopt(w.record.value, a.record));
            && adopted.mode == Active && adopted.version == a.record.version
            && (adopted.pending == None <==> before.pending == None || Carries(a.record, Last(w.issued)))
            && (adopted.pending == None ==> adopted.fingerprint == Some(Last(w.issued).fingerprint))
            && (adopted.pending.Some? ==> adopted.pending == before.pending && adopted.fingerprint == before.fingerprint)
  {
    AdoptKeepsRecord(w.issued, w.relay, w.record.value, a.record);
    NewestCarriesLast(w.issued, a.record);
  }

  /** A read that ends the publish without a request leaves the current export at the relay, at the recorded version,
      unless the relationship was stopped or the export's update waits for its next attempt. */
  lemma FinishedReadIsCurrent(w: World, a: Action, after: World)
    requires Inv(w) && ReadsAnswer(w, a) && after == Step(w, a) && after.record.Some? && after.record.value.pending == None
    requires AfterFetch(w.record.value, a.record, w.point.exported, a.event, a.trusted, a.now, a.saves).1 == Finish
    ensures RelayHolds(after.relay, after.record.value.version, Some(FingerprintOf(w.point.exported)))
  {
    ReadOutcome(w.record.value, a.record, w.point.exported, a.event, a.trusted, a.now, a.saves);
    StepKeepsInv(w, a);
    ReadKeepsMode(w, a);
    InvRelayHolds(after);
  }

  lemma ReadKeepsMode(w: World, a: Action)
    requires Inv(w) && ReadsAnswer(w, a)
    ensures Step(w, a).record.Some? ==> Step(w, a).record.value.mode == Active
  {
    if !a.record.stopped {
      var adopted := Adopt(w.record.value, a.record);
      AdoptKeepsRecord(w.issued, w.relay, w.record.value, a.record);
      FetchedRecord(w, a, adopted, NewPending(w.point.exported, a.event, NextVersion(adopted, a.record)));
    }
  }

  /** The wire only ever gets one more request; a write on it is the pending update, sent no earlier than it is due. */
  predicate OnlySendsDue(w: World, after: World, now: int) {
    || (after.attempts == w.attempts && after.wire == w.wire)
    || (&& after.attempts == w.attempts + 1 && after.attempts in after.wire
        && after.wire == w.wire[after.attempts := after.wire[after.attempts]]
        && (after.wire[after.attempts].Get? ||
            (&& after.record.Some? && after.record.value.pending.Some? && Due(after.record.value.pending.value, now)
             && after.wire[after.attempts].payload == PayloadOf(after.record.value.pending.value.update))))
  }

  lemma BeginSendsDue(w: World, a: Action)
    requires Inv(w) && a.Begin?
    ensures OnlySendsDue(w, Step(w, a), a.now)
  {
    if !a.complete {
      IncompleteChangesNothing(w, a);
    } else if w.record.Some? && w.point == Idle {
      if w.record.value.mode == Active {
        BeginOfActive(w, a);
      } else {
        BeginOfNew(w, a);
      }
    }
  }

  lemma ReceiveSendsDue(w: World, a: Action)
    requires a.Receive?
    ensures OnlySendsDue(w, Step(w, a), a.now)
  {
  }

  /** Whatever a step puts on the wire as a write is the pending update, and it is due. */
  lemma StepSendsDue(w: World, a: Action, now: int)
    requires Inv(w) && (a.Begin? || a.Receive? ==> a.now == now)
    ensures OnlySendsDue(w, Step(w, a), now)
  {
    match a
    case Begin(_, _, _, _) => BeginSendsDue(w, a);
    case Receive(_, _, _, _, _, _) => ReceiveSendsDue(w, a);
    case _ =>
  }

  /** An export that could not be read completely is never published, and nothing is asked for it. */
  lemma IncompleteChangesNothing(w: World, a: Action)
    requires a.Begin? && !a.complete
    ensures Step(w, a) == w
  {
    if w.record.Some? {
      assert w.(record := Some(w.record.value)) == w;
    }
  }

  /** Beginning to publish a new relationship sends its one update exactly when it is due. */
  lemma BeginOfNew(w: World, a: Action)
    requires Inv(w) && a.Begin? && a.complete && w.record.Some? && w.record.value.mode == AwaitingCreation && w.point == Idle
    ensures Step(w, a) == if Due(w.record.value.pending.value, a.now)
                          then Send(w, Create(PayloadOf(w.issued[0])), AwaitCreate(w.attempts + 1, w.record.value.pending.value))
                          else w
  {
    assert w.(record := Some(w.record.value)) == w;
  }

  /** The record after a write was stored and taken. */
  predicate WriteRecorded(r: Record, p: PendingUpdate, update: Update, a: Action)
    requires a.Receive?
  {
    && r.mode == Active && r.version == update.version && r.fingerprint == Some(update.fingerprint)
    && r.pending == if a.saves > 0 then None else Some(PendingUpdate(p.initial, update, p.attempts + 1, Some(a.retryAt)))
  }

  lemma WriteIsRecorded(r: Record, p: PendingUpdate, stored: RelayRecord, a: Action)
    requires a.Receive? && stored.version == p.update.version
    ensures WriteRecorded(AfterWrite(Created(r, p, stored), p, a), p, p.update, a)
    ensures r.mode == Active ==> WriteRecorded(AfterWrite(Updated(r, p, stored), p, a), p, p.update, a)
  {
  }

  /** A stored write is recorded with its version and fingerprint; nothing stays pending unless the save after it fails,
      which puts the same update back for another attempt. */
  lemma WriteOutcome(w: World, a: Action)
    requires Inv(w) && a.Receive? && (w.point.AwaitCreate? || w.point.AwaitPut?)
    requires Accepted(w.point.attempt, a.record) in w.responses
    ensures Step(w, a) == w.(record := Step(w, a).record, point := Idle) && Step(w, a).record.Some?
    ensures WriteRecorded(Step(w, a).record.value, w.point.pending, Last(w.issued), a)
  {
    WriteIsRecorded(w.record.value, w.point.pending, a.record, a);
  }

  /** Giving up on a write keeps its update pending for another attempt; giving up on a read changes nothing. */
  lemma GiveUpOutcome(w: World, retryAt: int)
    requires Inv(w) && w.point != Idle
    ensures var after := Step(w, GiveUp(retryAt));
            && after == w.(record := after.record, point := Idle) && after.record.Some?
            && after.record.value.mode == w.record.value.mode && after.record.value.version == w.record.value.version
            && after.record.value.fingerprint == w.record.value.fingerprint
            && after.record.value.pending == if w.point.AwaitFetch? then w.record.value.pending
                   else Some(PendingUpdate(w.point.pending.initial, Last(w.issued), w.point.pending.attempts + 1, Some(retryAt)))
  {
  }

  /** The relay answers a repeat of the stored version and event with what it holds, takes a newer version and refuses
      everything else; a relationship is created once. */
  lemma RelayAnswers(stored: RelayRecord, payload: Payload)
    ensures var (after, ok) := Handle(Some(stored), Create(payload));
            after == Some(stored) && (ok <==> stored.version == payload.version && stored.eventId == payload.eventId)
    ensures !stored.stopped && stored.version == payload.version && stored.eventId == payload.eventId ==>
              Handle(Some(stored), Put(payload)) == (Some(stored), true)
    ensures !stored.stopped && payload.version > stored.version ==>
              Handle(Some(stored), Put(payload))
              == (Some(RelayRecord(payload.version, payload.eventId, payload.accounts, false, stored.acknowledged)), true)
    ensures stored.stopped || (payload.version <= stored.version
                               && !(stored.version == payload.version && stored.eventId == payload.eventId)) ==>
              Handle(Some(stored), Put(payload)) == (Some(stored), false)
    ensures Handle(None, Create(payload)) == (Some(RelayRecord(payload.version, payload.eventId, payload.accounts, false, 0)), true)
    ensures Handle(None, Put(payload)) == (None, false)
    ensures Handle(Some(stored), Get) == (Some(stored), true) && Handle(None, Get) == (None, false)
  {
  }

  /** Every answer the follower read is processed once. A newer one that is applied is recorded and acknowledged next, one
      that is not applied leaves versions alone, and an older one is at most acknowledged again. */
  lemma ProcessOutcome(f: Follower, ok: bool, written: Export)
    requires f.inbox.Some? && f.toAcknowledge == None
    requires Within(written, f.inbox.value.accounts) && (ok ==> Within(f.inbox.value.accounts, written))
    ensures var (remote, after) := (f.inbox.value, StepProcess(f, ok, written));
            && after.inbox == None && after.acknowledged == f.acknowledged
            && (remote.version > f.version && ok ==>
                  after.version == remote.version && after.toAcknowledge == Some(remote.version))
            && (remote.version > f.version && !ok ==> after.version == f.version && after.toAcknowledge == None)
            && (remote.version > f.version ==> after.tokens == Install(f.tokens, written))
            && (remote.version <= f.version ==>
                  && after.version == f.version && after.tokens == f.tokens
                  && after.toAcknowledge == if f.acknowledged < f.version then Some(f.version) else None)
  {
  }

  lemma StoppedRelayStays(stored: RelayRecord, request: Request)
    requires stored.stopped
    ensures Handle(Some(stored), request).0 == Some(stored)
    ensures request.Put? ==> !Handle(Some(stored), request).1
  {
  }

  /** A stopped relationship stays stopped and keeps its snapshot. */
  lemma StoppedStays(w: World, a: Action)
    requires w.relay.Some? && w.relay.value.stopped
    ensures Step(w, a).relay.Some? && Step(w, a).relay.value.stopped
    ensures Step(w, a).relay.value.version == w.relay.value.version && Step(w, a).relay.value.accounts == w.relay.value.accounts
  {
    if a.Deliver? && a.attempt in w.wire {
      StoppedRelayStays(w.relay.value, w.wire[a.attempt]);
    }
  }

  /** The primary is cleared exactly by reading that the relationship was stopped, and then never sends anything again. */
  lemma ClearedExactlyWhen(w: World, a: Action)
    ensures w.record.Some? ==> (Step(w, a).record == None <==> ReadsAnswer(w, a) && a.record.stopped)
    ensures w.record == None ==> Step(w, a).record == None && Step(w, a).wire == w.wire && Step(w, a).issued == w.issued
  {
  }

  function AcknowledgedAt(relay: Option<RelayRecord>): nat {
    if relay.Some? then relay.value.acknowledged else 0
  }

  /** What the follower believes acknowledged the relay recorded, and what the relay recorded the follower has applied. */
  predicate AcknowledgedInOrder(relay: Option<RelayRecord>, f: Follower) {
    f.acknowledged <= AcknowledgedAt(relay) <= f.version
  }

  lemma HandleKeepsAcknowledged(stored: Option<RelayRecord>, request: Request)
    ensures AcknowledgedAt(Handle(stored, request).0) == AcknowledgedAt(stored)
  {
  }

  lemma ProcessAcknowledgesNothing(f: Follower, ok: bool, written: Export)
    ensures StepProcess(f, ok, written).acknowledged == f.acknowledged && StepProcess(f, ok, written).version >= f.version
  {
  }

  /** An acknowledgement is recorded by the relay when it is delivered, and by the follower only when it is answered too. */
  lemma AcknowledgementOutcome(w: World, delivered: bool, answered: bool)
    requires w.follower.toAcknowledge.Some? && w.relay.Some? && AcknowledgedInOrder(w.relay, w.follower)
    ensures var (v, after) := (w.follower.toAcknowledge.value, StepAcknowledge(w, delivered, answered));
            && after.follower.toAcknowledge == None && after.relay.Some?
            && AcknowledgedAt(after.relay) == (if delivered && v > AcknowledgedAt(w.relay) then v else AcknowledgedAt(w.relay))
            && after.follower.acknowledged
               == (if delivered && answered && v > w.follower.acknowledged then v else w.follower.acknowledged)
            && after.follower.version == w.follower.version && after.follower.tokens == w.follower.tokens
  {
  }

  /** Nothing the primary does by itself touches the relay or the follower. */
  lemma PrimaryLeavesEndsAlone(w: World, a: Action)
    requires a.ReadListing? || a.Begin? || a.Receive? || a.GiveUp?
    ensures Step(w, a).relay == w.relay && Step(w, a).follower == w.follower
  {
  }

  lemma StepAcknowledgesInOrder(w: World, a: Action)
    requires Inv(w) && AcknowledgedInOrder(w.relay, w.follower)
    ensures AcknowledgedInOrder(Step(w, a).relay, Step(w, a).follower)
  {
    match a
    case Deliver(attempt) =>
      if attempt in w.wire {
        HandleKeepsAcknowledged(w.relay, w.wire[attempt]);
      }
    case FollowerProcess(ok, written) => ProcessAcknowledgesNothing(w.follower, ok, written);
    case FollowerAcknowledge(delivered, answered) =>
      if w.follower.toAcknowledge.Some? && w.relay.Some? {
        AcknowledgementOutcome(w, delivered, answered);
      }
    case StopRelay =>
    case FollowerRead =>
    case _ => PrimaryLeavesEndsAlone(w, a);
  }

  /** In every run the relay knows every acknowledgement the follower counts on, and never one of a version the follower
      has not applied. */
  lemma {:induction false} RunAcknowledgesInOrder(w: World, actions: seq<Action>)
    requires Inv(w) && AcknowledgedInOrder(w.relay, w.follower)
    ensures AcknowledgedInOrder(Run(w, actions).relay, Run(w, actions).follower)
    decreases |actions|
  {
    if actions != [] {
      RunKeepsInv(w, actions[..|actions| - 1]);
      RunAcknowledgesInOrder(w, actions[..|actions| - 1]);
      StepAcknowledgesInOrder(Run(w, actions[..|actions| - 1]), actions[|actions| - 1]);
    }
  }
}
