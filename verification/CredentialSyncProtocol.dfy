/** The primary, the relay, the follower and everything on the wire between them, as one
    transition system. Requests may be delayed, delivered repeatedly and long after the primary
    gave up on them; replies may be lost. The relay is the environment: it replaces a stored
    snapshot only by a strictly newer version and answers a repeat of the stored version and event
    with the stored record. */
module CredentialSyncProtocol {
  import opened Wrappers
  import opened CredentialSync

  datatype Payload = Payload(version: nat, eventId: EventId, accounts: Export)
  datatype Request = Create(payload: Payload) | Put(payload: Payload) | Get
  datatype Response = Accepted(attempt: nat, record: RelayRecord)

  /** Where the primary is suspended, with the locals it still needs. */
  datatype Point =
    | Idle
    | AwaitCreate(attempt: nat, pending: PendingUpdate)
    | AwaitFetch(attempt: nat, exported: Export)
    | AwaitPut(attempt: nat, pending: PendingUpdate)

  datatype Follower = Follower(
    version: nat,
    acknowledged: nat,
    inbox: Option<RelayRecord>,          // the relay record last read, not yet processed
    toAcknowledge: Option<nat>,          // the acknowledgement being awaited
    tokens: map<string, Credential>)

  datatype World = World(
    record: Option<Record>,              // None once the relationship was cleared locally
    point: Point,
    issued: seq<Update>,                 // every update the primary ever named, oldest first
    relay: Option<RelayRecord>,
    listing: Option<RelayRecord>,        // what the last "sent" listing showed
    attempts: nat,
    wire: map<nat, Request>,             // by attempt; never forgotten, so delivery can be late or repeated
    responses: set<Response>,
    follower: Follower)

  datatype Action =
    | ReadListing
    | Begin(exported: Export, complete: bool, useListing: bool, now: int)
    | Deliver(attempt: nat)
    | Receive(record: RelayRecord, event: EventId, trusted: bool, now: int, saves: nat, retryAt: int)
    | GiveUp(retryAt: int)
    | StopRelay
    | FollowerRead
    | FollowerProcess(ok: bool, written: Export)
    | FollowerAcknowledge(delivered: bool, answered: bool)

  function PayloadOf(update: Update): Payload {
    Payload(update.version, update.eventId, update.accounts)
  }

  function Initial(exported: Export, event: EventId): World {
    var record := InitialRecord(exported, event);
    World(Some(record), Idle, [record.pending.value.update], None, None, 0, map[], {},
          Follower(0, 0, None, None, map[]))
  }

  // ---- The relay ----

  predicate SameEvent(stored: RelayRecord, payload: Payload) {
    stored.version == payload.version && stored.eventId == payload.eventId
  }

  function Store(stored: Option<RelayRecord>, payload: Payload): RelayRecord {
    RelayRecord(payload.version, payload.eventId, payload.accounts, false,
                if stored.Some? then stored.value.acknowledged else 0)
  }

  /** The stored record after handling a request, and whether the request succeeded. */
  function Handle(stored: Option<RelayRecord>, request: Request): (Option<RelayRecord>, bool) {
    match request
    case Get => (stored, stored.Some?)
    case Create(payload) =>
      if stored == None then (Some(Store(stored, payload)), true)
      else (stored, SameEvent(stored.value, payload))
    case Put(payload) =>
      if stored == None || stored.value.stopped then (stored, false)
      else if SameEvent(stored.value, payload) then (stored, true)
      else if payload.version > stored.value.version then (Some(Store(stored, payload)), true)
      else (stored, false)
  }

  // ---- One step ----

  function Send(w: World, request: Request, point: Point): World {
    w.(attempts := w.attempts + 1, wire := w.wire[w.attempts + 1 := request], point := point)
  }

  function StepBegin(w: World, a: Action): World
    requires a.Begin?
  {
    if w.record == None || w.point != Idle then w
    else
      var (record, move) := BeginPublish(w.record.value, a.exported, a.complete,
                                         if a.useListing then w.listing else None, a.now);
      var w := w.(record := Some(record));
      match move
      case Finish => w
      case Throw => w
      case SendCreate(p) => Send(w, Create(PayloadOf(p.update)), AwaitCreate(w.attempts + 1, p))
      case Fetch => Send(w, Get, AwaitFetch(w.attempts + 1, a.exported))
      case SendPut(p) => w
  }

  function StepDeliver(w: World, attempt: nat): World {
    if attempt !in w.wire then w
    else
      var (relay, ok) := Handle(w.relay, w.wire[attempt]);
      w.(relay := relay,
         responses := if ok && relay.Some? then w.responses + {Accepted(attempt, relay.value)} else w.responses)
  }

  predicate FreshEvent(w: World, event: EventId) {
    forall i :: 0 <= i < |w.issued| ==> w.issued[i].eventId != event
  }

  function StepFetched(w: World, a: Action): World
    requires a.Receive? && w.point.AwaitFetch? && w.record.Some?
  {
    if Accepted(w.point.attempt, a.record) !in w.responses || !FreshEvent(w, a.event) then w
    else
      var before := w.record.value;
      var (after, move) := AfterFetch(before, a.record, w.point.exported, a.event, a.trusted, a.now, a.saves);
      var named := after.Some? && after.value.pending.Some? && after.value.pending != before.pending;
      var w := w.(record := after, point := Idle,
                  issued := if named then w.issued + [after.value.pending.value.update] else w.issued);
      if move.SendPut? then Send(w, Put(PayloadOf(move.pending.update)), AwaitPut(w.attempts + 1, move.pending)) else w
  }

  /** A reply taken without any failure. */
  function TakesReply(record: RelayRecord, event: EventId, now: int): Action {
    Receive(record, event, true, now, 2, now)
  }

  /** When the save after a stored write fails, the error path puts the pending update back. */
  function AfterWrite(r: Record, p: PendingUpdate, a: Action): Record
    requires a.Receive?
  {
    if a.saves == 0 then Rescheduled(r, p, a.retryAt) else r
  }

  function StepReceive(w: World, a: Action): World
    requires a.Receive?
  {
    if w.record == None then w
    else
      match w.point
      case Idle => w
      case AwaitCreate(attempt, p) =>
        if Accepted(attempt, a.record) !in w.responses then w
        else w.(record := Some(AfterWrite(Created(w.record.value, p, a.record), p, a)), point := Idle)
      case AwaitPut(attempt, p) =>
        if Accepted(attempt, a.record) !in w.responses then w
        else w.(record := Some(AfterWrite(Updated(w.record.value, p, a.record), p, a)), point := Idle)
      case AwaitFetch(attempt, exported) => StepFetched(w, a)
  }

  /** The awaited request failed or its reply was lost. Only the two writes schedule a retry. */
  function StepGiveUp(w: World, retryAt: int): World {
    if w.record == None then w
    else
      match w.point
      case Idle => w
      case AwaitFetch(_, _) => w.(point := Idle)
      case AwaitCreate(_, p) => w.(record := Some(Rescheduled(w.record.value, p, retryAt)), point := Idle)
      case AwaitPut(_, p) => w.(record := Some(Rescheduled(w.record.value, p, retryAt)), point := Idle)
  }

  function Install(tokens: map<string, Credential>, accounts: Export): map<string, Credential>
  {
    if accounts == [] then tokens
    else Install(tokens, accounts[..|accounts| - 1])[accounts[|accounts| - 1].id := WithoutRefreshToken(accounts[|accounts| - 1])]
  }

  predicate Within(part: Export, all: Export) {
    forall c :: c in part ==> c in all
  }

  /** One inbox entry. A successful apply writes every account of the snapshot, in some order; a failed one may have
      written any part of it. */
  function StepProcess(f: Follower, ok: bool, written: Export): Follower {
    if f.inbox == None || f.toAcknowledge.Some? then f
    else
      var remote := f.inbox.value;
      if remote.version <= f.version then
        f.(inbox := None, toAcknowledge := if f.acknowledged < f.version then Some(f.version) else None)
      else if !Within(written, remote.accounts) || (ok && !Within(remote.accounts, written)) then f
      else if ok then Follower(remote.version, f.acknowledged, None, Some(remote.version), Install(f.tokens, written))
      else f.(inbox := None, tokens := Install(f.tokens, written))
  }

  function StepAcknowledge(w: World, delivered: bool, answered: bool): World {
    if w.follower.toAcknowledge == None then w
    else
      var v := w.follower.toAcknowledge.value;
      w.(follower := w.follower.(toAcknowledge := None,
                                 acknowledged := if delivered && answered then Max(w.follower.acknowledged, v) else w.follower.acknowledged),
         relay := if delivered && w.relay.Some?
                  then Some(w.relay.value.(acknowledged := Max(w.relay.value.acknowledged, v))) else w.relay)
  }

  function Step(w: World, a: Action): World {
    match a
    case ReadListing => w.(listing := w.relay)
    case Begin(_, _, _, _) => StepBegin(w, a)
    case Deliver(attempt) => StepDeliver(w, attempt)
    case Receive(_, _, _, _, _, _) => StepReceive(w, a)
    case GiveUp(retryAt) => StepGiveUp(w, retryAt)
    case StopRelay => w.(relay := if w.relay.Some? then Some(w.relay.value.(stopped := true)) else None)
    case FollowerRead =>
      if w.follower.inbox == None && w.follower.toAcknowledge == None && w.relay.Some? && !w.relay.value.stopped
      then w.(follower := w.follower.(inbox := w.relay)) else w
    case FollowerProcess(ok, written) => w.(follower := StepProcess(w.follower, ok, written))
    case FollowerAcknowledge(delivered, answered) => StepAcknowledge(w, delivered, answered)
  }

  function Run(w: World, actions: seq<Action>): World {
    if actions == [] then w
    else Step(Run(w, actions[..|actions| - 1]), actions[|actions| - 1])
  }

  // ---- What every reachable world satisfies ----

  function Last(issued: seq<Update>): Update
    requires issued != []
  {
    issued[|issued| - 1]
  }

  ghost predicate NamesSnapshot(update: Update) {
    exists exported: Export :: update.accounts == Stripped(exported) && update.fingerprint == FingerprintOf(exported)
  }

  /** Versions count up from 1, every update has its own event, and each names one stripped export. */
  ghost predicate IssuedInOrder(issued: seq<Update>) {
    && issued != []
    && (forall i, j :: 0 <= i < j < |issued| ==> issued[i].eventId != issued[j].eventId)
    && (forall i :: 0 <= i < |issued| ==> issued[i].version == i + 1 && NamesSnapshot(issued[i]))
  }

  predicate Issued(issued: seq<Update>, record: RelayRecord) {
    exists i :: 0 <= i < |issued| && Carries(record, issued[i])
  }

  predicate IssuedPayload(issued: seq<Update>, payload: Payload) {
    exists i :: 0 <= i < |issued| && payload == PayloadOf(issued[i])
  }

  /** The credential was published in some update with `low <= version <= high`. */
  predicate HeldFrom(issued: seq<Update>, credential: Credential, low: nat, high: nat) {
    exists i :: 0 <= i < |issued| && low <= issued[i].version <= high && credential in issued[i].accounts
  }

  ghost predicate RelayOk(issued: seq<Update>, relay: Option<RelayRecord>) {
    relay.Some? ==> Issued(issued, relay.value)
  }

  ghost predicate WireOk(issued: seq<Update>, attempts: nat, wire: map<nat, Request>) {
    forall n :: n in wire ==> n <= attempts && (wire[n].Get? || IssuedPayload(issued, wire[n].payload))
  }

  ghost predicate RecordOk(issued: seq<Update>, relay: Option<RelayRecord>, r: Record)
    requires issued != []
  {
    && (r.pending.Some? ==> r.pending.value.update == Last(issued) && r.version <= Last(issued).version)
    && (r.mode == AwaitingCreation ==> r.pending.Some? && r.pending.value.initial && r.version == 0 && |issued| == 1)
    && (r.mode == Active ==> relay.Some? && r.version <= relay.value.version)
    && (r.mode == Active && r.pending == None ==>
          Carries(relay.value, Last(issued)) && r.version == Last(issued).version && r.fingerprint == Some(Last(issued).fingerprint))
  }

  ghost predicate WriteAnswered(relay: Option<RelayRecord>, responses: set<Response>, attempt: nat, update: Update) {
    forall r :: r in responses && r.attempt == attempt ==> relay.Some? && Carries(relay.value, update) && Carries(r.record, update)
  }

  ghost predicate ReadAnswered(issued: seq<Update>, relay: Option<RelayRecord>, responses: set<Response>, attempt: nat, version: nat) {
    forall r :: r in responses && r.attempt == attempt ==>
      relay.Some? && Issued(issued, r.record) && version <= r.record.version <= relay.value.version
  }

  /** What the suspended primary may rely on when the reply arrives. */
  ghost predicate PointOk(issued: seq<Update>, relay: Option<RelayRecord>, record: Option<Record>, wire: map<nat, Request>,
                          responses: set<Response>, point: Point)
  {
    match point
    case Idle => true
    case AwaitCreate(attempt, p) =>
      record.Some? && record.value.pending == Some(p) && record.value.mode == AwaitingCreation
      && attempt in wire && wire[attempt] == Create(PayloadOf(p.update)) && WriteAnswered(relay, responses, attempt, p.update)
    case AwaitPut(attempt, p) =>
      record.Some? && record.value.pending == Some(p) && record.value.mode == Active
      && attempt in wire && wire[attempt] == Put(PayloadOf(p.update)) && WriteAnswered(relay, responses, attempt, p.update)
    case AwaitFetch(attempt, _) =>
      record.Some? && record.value.mode == Active
      && attempt in wire && wire[attempt] == Get && ReadAnswered(issued, relay, responses, attempt, record.value.version)
  }

  function VersionAt(relay: Option<RelayRecord>): nat {
    if relay.Some? then relay.value.version else 0
  }

  ghost predicate FollowerOk(issued: seq<Update>, relay: Option<RelayRecord>, f: Follower) {
    && f.acknowledged <= f.version <= VersionAt(relay)
    && (f.toAcknowledge.Some? ==> f.toAcknowledge.value <= f.version)
    && (f.inbox.Some? ==> Issued(issued, f.inbox.value) && f.inbox.value.version <= VersionAt(relay))
    && TokensOk(issued, f.tokens, VersionAt(relay))
    && Covered(issued, f.tokens, f.version, VersionAt(relay))
  }

  ghost predicate TokensOk(issued: seq<Update>, tokens: map<string, Credential>, high: nat) {
    forall id :: id in tokens ==> tokens[id].refreshToken == None && tokens[id].id == id && HeldFrom(issued, tokens[id], 0, high)
  }

  /** Every account of the update with this version is held, from that update or a later one. */
  ghost predicate Covered(issued: seq<Update>, tokens: map<string, Credential>, version: nat, high: nat) {
    forall i, c :: 0 <= i < |issued| && issued[i].version == version && c in issued[i].accounts ==>
      c.id in tokens && HeldFrom(issued, tokens[c.id], version, high)
  }

  ghost predicate Inv(w: World) {
    && IssuedInOrder(w.issued)
    && RelayOk(w.issued, w.relay)
    && (w.listing.Some? ==> w.relay.Some? && w.listing.value.version <= w.relay.value.version)
    && WireOk(w.issued, w.attempts, w.wire)
    && (forall r :: r in w.responses ==> r.attempt <= w.attempts)
    && (if w.record.Some? then RecordOk(w.issued, w.relay, w.record.value) else w.point == Idle)
    && PointOk(w.issued, w.relay, w.record, w.wire, w.responses, w.point)
    && FollowerOk(w.issued, w.relay, w.follower)
  }

  lemma InitialInv(exported: Export, event: EventId)
    ensures Inv(Initial(exported, event))
  {
    var w := Initial(exported, event);
    assert NamesSnapshot(w.issued[0]);
  }

  /** A record that carries an issued update at least as new as the last one carries the last one. */
  lemma NewestCarriesLast(issued: seq<Update>, record: RelayRecord)
    requires IssuedInOrder(issued) && Issued(issued, record)
    ensures record.version <= Last(issued).version
    ensures record.version == Last(issued).version ==> Carries(record, Last(issued))
  {
    var i :| 0 <= i < |issued| && Carries(record, issued[i]);
    if i < |issued| - 1 {
      assert issued[i].version < issued[|issued| - 1].version;
    }
  }

  /** The relay may only stay as it is or move on to a newer issued update. */
  ghost predicate Advances(issued: seq<Update>, before: Option<RelayRecord>, after: Option<RelayRecord>) {
    && RelayOk(issued, after)
    && (before.Some? ==> after.Some? && before.value.version <= after.value.version)
    && (before.Some? && before.value.version == after.value.version ==>
          before.value.eventId == after.value.eventId && before.value.accounts == after.value.accounts)
  }

  lemma HandleAdvances(issued: seq<Update>, stored: Option<RelayRecord>, request: Request)
    requires RelayOk(issued, stored)
    requires request.Get? || IssuedPayload(issued, request.payload)
    ensures Advances(issued, stored, Handle(stored, request).0)
    ensures Handle(stored, request).1 ==> Handle(stored, request).0.Some?
    ensures Handle(stored, request).1 && !request.Get? ==> SameEvent(Handle(stored, request).0.value, request.payload)
  {
    if !request.Get? {
      var i :| 0 <= i < |issued| && request.payload == PayloadOf(issued[i]);
      assert Carries(Store(stored, request.payload), issued[i]);
    }
  }

  lemma RecordSurvives(issued: seq<Update>, before: Option<RelayRecord>, after: Option<RelayRecord>, r: Record)
    requires IssuedInOrder(issued) && Advances(issued, before, after) && RecordOk(issued, before, r)
    ensures RecordOk(issued, after, r)
  {
    if r.mode == Active {
      NewestCarriesLast(issued, after.value);
    }
  }

  lemma WriteAnswerSurvives(issued: seq<Update>, before: Option<RelayRecord>, after: Option<RelayRecord>,
                            responses: set<Response>, attempt: nat)
    requires IssuedInOrder(issued) && Advances(issued, before, after)
    requires WriteAnswered(before, responses, attempt, Last(issued))
    ensures WriteAnswered(after, responses, attempt, Last(issued))
  {
    if after.Some? {
      NewestCarriesLast(issued, after.value);
    }
  }

  lemma PointSurvives(w: World, after: Option<RelayRecord>)
    requires Inv(w) && Advances(w.issued, w.relay, after)
    ensures PointOk(w.issued, after, w.record, w.wire, w.responses, w.point)
  {
    if w.point.AwaitCreate? || w.point.AwaitPut? {
      WriteAnswerSurvives(w.issued, w.relay, after, w.responses, w.point.attempt);
    }
  }

  /** Any advance of the relay keeps the invariant. */
  lemma RelayAdvanceKeepsInv(w: World, after: Option<RelayRecord>)
    requires Inv(w) && Advances(w.issued, w.relay, after)
    ensures Inv(w.(relay := after))
  {
    if w.record.Some? {
      RecordSurvives(w.issued, w.relay, after, w.record.value);
    }
    PointSurvives(w, after);
  }

  lemma AnswerKeepsPoint(w: World, attempt: nat)
    requires Inv(w) && attempt in w.wire && w.relay.Some?
    requires w.wire[attempt].Get? || SameEvent(w.relay.value, w.wire[attempt].payload)
    ensures PointOk(w.issued, w.relay, w.record, w.wire, w.responses + {Accepted(attempt, w.relay.value)}, w.point)
  {
    if w.point != Idle && w.point.attempt == attempt && !w.point.AwaitFetch? {
      NewestCarriesLast(w.issued, w.relay.value);
    }
  }

  lemma DeliverKeepsInv(w: World, attempt: nat)
    requires Inv(w)
    ensures Inv(StepDeliver(w, attempt))
  {
    if attempt in w.wire {
      HandleAdvances(w.issued, w.relay, w.wire[attempt]);
      var (relay, ok) := Handle(w.relay, w.wire[attempt]);
      RelayAdvanceKeepsInv(w, relay);
      if ok {
        AnswerKeepsPoint(w.(relay := relay), attempt);
      }
    }
  }

  lemma SendKeepsInv(w: World, request: Request, point: Point)
    requires Inv(w) && w.record.Some? && point != Idle && point.attempt == w.attempts + 1
    requires request.Get? || IssuedPayload(w.issued, request.payload)
    requires match point
             case Idle => false
             case AwaitCreate(_, p) => w.record.value.mode == AwaitingCreation && w.record.value.pending == Some(p) && request == Create(PayloadOf(p.update))
             case AwaitPut(_, p) => w.record.value.mode == Active && w.record.value.pending == Some(p) && request == Put(PayloadOf(p.update))
             case AwaitFetch(_, _) => w.record.value.mode == Active && request == Get
    ensures Inv(Send(w, request, point))
  {
  }

  lemma LastIsIssued(issued: seq<Update>)
    requires issued != []
    ensures IssuedPayload(issued, PayloadOf(Last(issued)))
  {
    assert PayloadOf(Last(issued)) == PayloadOf(issued[|issued| - 1]);
  }

  /** The shortcut taken when the listing already shows the recorded snapshot changes nothing. */
  lemma BeginChangesNothing(issued: seq<Update>, relay: Option<RelayRecord>, listing: Option<RelayRecord>, r: Record,
                            exported: Export, complete: bool, now: int)
    requires issued != [] && RecordOk(issued, relay, r)
    requires listing.Some? ==> listing.value.version <= VersionAt(relay)
    ensures BeginPublish(r, exported, complete, listing, now).0 == r
  {
  }

  lemma BeginCases(w: World, a: Action)
    requires a.Begin? && w.record.Some? && w.point == Idle
    requires BeginPublish(w.record.value, a.exported, a.complete, if a.useListing then w.listing else None, a.now).0 == w.record.value
    ensures || StepBegin(w, a) == w
            || (w.record.value.mode == Active && StepBegin(w, a) == Send(w, Get, AwaitFetch(w.attempts + 1, a.exported)))
            || (w.record.value.mode == AwaitingCreation && w.record.value.pending.Some?
                && StepBegin(w, a) == Send(w, Create(PayloadOf(w.record.value.pending.value.update)),
                                           AwaitCreate(w.attempts + 1, w.record.value.pending.value)))
  {
    assert w.(record := Some(w.record.value)) == w;
  }

  lemma BeginKeepsInv(w: World, a: Action)
    requires Inv(w) && a.Begin?
    ensures Inv(StepBegin(w, a))
  {
    if w.record.Some? && w.point == Idle {
      var r := w.record.value;
      BeginChangesNothing(w.issued, w.relay, if a.useListing then w.listing else None, r, a.exported, a.complete, a.now);
      BeginCases(w, a);
      LastIsIssued(w.issued);
      if r.mode == Active {
        SendKeepsInv(w, Get, AwaitFetch(w.attempts + 1, a.exported));
      } else {
        SendKeepsInv(w, Create(PayloadOf(r.pending.value.update)), AwaitCreate(w.attempts + 1, r.pending.value));
      }
    }
  }

  /** Reconciling with an answer read from the relay keeps the record sound. */
  lemma AdoptKeepsRecord(issued: seq<Update>, relay: Option<RelayRecord>, r: Record, remote: RelayRecord)
    requires IssuedInOrder(issued) && RelayOk(issued, relay) && RecordOk(issued, relay, r) && r.mode == Active
    requires Issued(issued, remote) && r.version <= remote.version <= relay.value.version
    ensures RecordOk(issued, relay, Adopt(r, remote)) && Adopt(r, remote).mode == Active
    ensures Adopt(r, remote).version == remote.version
    ensures Adopt(r, remote).pending in {r.pending, None}
  {
    NewestCarriesLast(issued, remote);
    NewestCarriesLast(issued, relay.value);
  }

  lemma MoreIssued(issued: seq<Update>, update: Update)
    ensures forall record :: Issued(issued, record) ==> Issued(issued + [update], record)
    ensures forall payload :: IssuedPayload(issued, payload) ==> IssuedPayload(issued + [update], payload)
    ensures forall c, low, high :: HeldFrom(issued, c, low, high) ==> HeldFrom(issued + [update], c, low, high)
  {
    var longer := issued + [update];
    forall record | Issued(issued, record)
      ensures Issued(longer, record)
    {
      var i :| 0 <= i < |issued| && Carries(record, issued[i]);
      assert Carries(record, longer[i]);
    }
    forall payload | IssuedPayload(issued, payload)
      ensures IssuedPayload(longer, payload)
    {
      var i :| 0 <= i < |issued| && payload == PayloadOf(issued[i]);
      assert payload == PayloadOf(longer[i]);
    }
    forall c, low: nat, high: nat | HeldFrom(issued, c, low, high)
      ensures HeldFrom(longer, c, low, high)
    {
      var i :| 0 <= i < |issued| && low <= issued[i].version <= high && c in issued[i].accounts;
      assert c in longer[i].accounts;
    }
  }

  lemma OrderKept(issued: seq<Update>, update: Update)
    requires IssuedInOrder(issued) && update.version == Last(issued).version + 1 && NamesSnapshot(update)
    requires forall i :: 0 <= i < |issued| ==> issued[i].eventId != update.eventId
    ensures IssuedInOrder(issued + [update])
  {
    forall i | 0 <= i < |issued| - 1
      ensures issued[i].version < update.version
    {
      assert issued[i].version < issued[|issued| - 1].version;
    }
  }

  lemma IssueKeepsFollower(issued: seq<Update>, update: Update, relay: Option<RelayRecord>, f: Follower)
    requires IssuedInOrder(issued) && FollowerOk(issued, relay, f) && RelayOk(issued, relay)
    requires update.version > Last(issued).version
    ensures FollowerOk(issued + [update], relay, f)
  {
    MoreIssued(issued, update);
    if relay.Some? {
      NewestCarriesLast(issued, relay.value);
    }
  }

  lemma IssueKeepsWire(issued: seq<Update>, update: Update, attempts: nat, wire: map<nat, Request>)
    requires WireOk(issued, attempts, wire)
    ensures WireOk(issued + [update], attempts, wire)
  {
    MoreIssued(issued, update);
  }

  /** Naming a new update, newer than every earlier one, replaces whatever was pending. */
  lemma IssueKeepsInv(w: World, p: PendingUpdate)
    requires Inv(w) && w.point == Idle && w.record.Some? && w.record.value.mode == Active
    requires !p.initial && NamesSnapshot(p.update) && FreshEvent(w, p.update.eventId)
    requires p.update.version == Last(w.issued).version + 1
    ensures Inv(w.(record := Some(w.record.value.(pending := Some(p))), issued := w.issued + [p.update]))
  {
    IssueKeepsFollower(w.issued, p.update, w.relay, w.follower);
    IssueKeepsWire(w.issued, p.update, w.attempts, w.wire);
    MoreIssued(w.issued, p.update);
    OrderKept(w.issued, p.update);
  }

  lemma NextVersionIsNew(issued: seq<Update>, relay: Option<RelayRecord>, r: Record, remote: RelayRecord)
    requires IssuedInOrder(issued) && RecordOk(issued, relay, r) && r.mode == Active && r.version == remote.version
    ensures NextVersion(r, remote) == Last(issued).version + 1
  {
  }

  lemma FetchedNothingNewIs(w: World, a: Action, adopted: Record)
    requires a.Receive? && w.point.AwaitFetch? && w.record.Some?
    requires Accepted(w.point.attempt, a.record) in w.responses && FreshEvent(w, a.event)
    requires adopted == Adopt(w.record.value, a.record) && adopted.pending in {w.record.value.pending, None}
    requires !a.record.stopped && !NeedsUpdate(adopted, FingerprintOf(w.point.exported))
    requires Matches(w.record.value, a.record) ==> a.saves > 0
    ensures var w1 := w.(record := Some(adopted), point := Idle);
            StepFetched(w, a) == if adopted.pending == None || Waiting(adopted.pending.value, a.now) then w1
                                 else Send(w1, Put(PayloadOf(adopted.pending.value.update)), AwaitPut(w.attempts + 1, adopted.pending.value))
  {
  }

  lemma FetchedNothingNew(w: World, a: Action, adopted: Record)
    requires Inv(w) && a.Receive? && w.point.AwaitFetch?
    requires Accepted(w.point.attempt, a.record) in w.responses && FreshEvent(w, a.event)
    requires adopted == Adopt(w.record.value, a.record)
    requires Inv(w.(record := Some(adopted), point := Idle))
    requires !a.record.stopped && !NeedsUpdate(adopted, FingerprintOf(w.point.exported))
    requires Matches(w.record.value, a.record) ==> a.saves > 0
    requires adopted.mode == Active && adopted.pending in {w.record.value.pending, None}
    ensures Inv(StepFetched(w, a))
  {
    FetchedNothingNewIs(w, a, adopted);
    LastIsIssued(w.issued);
    if adopted.pending.Some? {
      var p := adopted.pending.value;
      SendKeepsInv(w.(record := Some(adopted), point := Idle), Put(PayloadOf(p.update)), AwaitPut(w.attempts + 1, p));
    }
  }

  /** The record and the issued updates right after a new update was named. */
  function Named(w: World, adopted: Record, p: PendingUpdate): World {
    w.(record := Some(adopted.(pending := Some(p))), point := Idle, issued := w.issued + [p.update])
  }

  lemma FetchedUpdateSends(w: World, a: Action, adopted: Record, p: PendingUpdate)
    requires a.Receive? && w.point.AwaitFetch? && w.record.Some?
    requires Accepted(w.point.attempt, a.record) in w.responses && FreshEvent(w, a.event)
    requires adopted == Adopt(w.record.value, a.record)
    requires !a.record.stopped && NeedsUpdate(adopted, FingerprintOf(w.point.exported)) && a.trusted
    requires p == NewPending(w.point.exported, a.event, NextVersion(adopted, a.record)) && w.record.value.pending != Some(p)
    requires Matches(w.record.value, a.record) ==> a.saves > 0
    ensures a.saves > 1 ==>
              StepFetched(w, a) == Send(Named(w, adopted, p), Put(PayloadOf(p.update)), AwaitPut(w.attempts + 1, p))
    ensures StepFetched(w, a) in {Named(w, adopted, p), Send(Named(w, adopted, p), Put(PayloadOf(p.update)), AwaitPut(w.attempts + 1, p))}
  {
    assert AfterFetch(w.record.value, a.record, w.point.exported, a.event, a.trusted, a.now, a.saves).0
        == Some(adopted.(pending := Some(p)));
  }

  lemma FetchedUpdate(w: World, a: Action, adopted: Record)
    requires Inv(w) && a.Receive? && w.point.AwaitFetch?
    requires Accepted(w.point.attempt, a.record) in w.responses && FreshEvent(w, a.event)
    requires adopted == Adopt(w.record.value, a.record)
    requires Inv(w.(record := Some(adopted), point := Idle))
    requires !a.record.stopped && NeedsUpdate(adopted, FingerprintOf(w.point.exported)) && a.trusted
    requires Matches(w.record.value, a.record) ==> a.saves > 0
    requires adopted.mode == Active && adopted.version == a.record.version
    ensures Inv(StepFetched(w, a))
  {
    var p := NewPending(w.point.exported, a.event, NextVersion(adopted, a.record));
    FreshPending(w, p);
    FetchedUpdateSends(w, a, adopted, p);
    NextVersionIsNew(w.issued, w.relay, adopted, a.record);
    IssueKeepsInv(w.(record := Some(adopted), point := Idle), p);
    assert Inv(Named(w, adopted, p));
    LastIsIssued(Named(w, adopted, p).issued);
    SendKeepsInv(Named(w, adopted, p), Put(PayloadOf(p.update)), AwaitPut(w.attempts + 1, p));
  }

  lemma FreshPending(w: World, p: PendingUpdate)
    requires Inv(w) && w.record.Some? && FreshEvent(w, p.update.eventId)
    ensures w.record.value.pending != Some(p)
  {
    if w.record.value.pending.Some? {
      assert Last(w.issued) == w.issued[|w.issued| - 1];
    }
  }

  lemma SettlesOn(w: World, record: Option<Record>)
    requires Inv(w) && (record.Some? ==> RecordOk(w.issued, w.relay, record.value))
    ensures Inv(w.(record := record, point := Idle))
  {
  }

  predicate AdoptionUnsaved(r: Record, a: Action)
    requires a.Receive?
  {
    Matches(r, a.record) && a.saves == 0
  }

  lemma FetchedStopped(w: World, a: Action)
    requires a.Receive? && w.point.AwaitFetch? && w.record.Some? && a.record.stopped
    requires Accepted(w.point.attempt, a.record) in w.responses && FreshEvent(w, a.event)
    ensures StepFetched(w, a) == w.(record := None, point := Idle)
  {
  }

  lemma FetchedFails(w: World, a: Action, adopted: Record)
    requires a.Receive? && w.point.AwaitFetch? && w.record.Some? && !a.record.stopped
    requires Accepted(w.point.attempt, a.record) in w.responses && FreshEvent(w, a.event)
    requires adopted == Adopt(w.record.value, a.record) && adopted.pending in {w.record.value.pending, None}
    requires AdoptionUnsaved(w.record.value, a) || (NeedsUpdate(adopted, FingerprintOf(w.point.exported)) && !a.trusted)
    ensures StepFetched(w, a) == w.(record := Some(adopted), point := Idle)
  {
  }

  lemma FetchedKeepsInv(w: World, a: Action)
    requires Inv(w) && a.Receive? && w.point.AwaitFetch?
    ensures Inv(StepFetched(w, a))
  {
    if Accepted(w.point.attempt, a.record) in w.responses && FreshEvent(w, a.event) {
      AdoptKeepsRecord(w.issued, w.relay, w.record.value, a.record);
      var adopted := Adopt(w.record.value, a.record);
      SettlesOn(w, Some(adopted));
      if a.record.stopped {
        SettlesOn(w, None);
        FetchedStopped(w, a);
      } else if AdoptionUnsaved(w.record.value, a) || (NeedsUpdate(adopted, FingerprintOf(w.point.exported)) && !a.trusted) {
        FetchedFails(w, a, adopted);
      } else if !NeedsUpdate(adopted, FingerprintOf(w.point.exported)) {
        FetchedNothingNew(w, a, adopted);
      } else {
        FetchedUpdate(w, a, adopted);
      }
    }
  }

  /** What the record may be after an answer was read: reconciled, with or without a newly named update. */
  lemma FetchedRecord(w: World, a: Action, adopted: Record, p: PendingUpdate)
    requires Inv(w) && a.Receive? && w.point.AwaitFetch? && !a.record.stopped
    requires Accepted(w.point.attempt, a.record) in w.responses && FreshEvent(w, a.event)
    requires adopted == Adopt(w.record.value, a.record)
    requires p == NewPending(w.point.exported, a.event, NextVersion(adopted, a.record))
    ensures var after := StepFetched(w, a);
            && after.relay == w.relay && after.follower == w.follower
            && (|| (after.record == Some(adopted) && after.issued == w.issued)
                || (after.record == Some(adopted.(pending := Some(p))) && after.issued == w.issued + [p.update]))
  {
    AdoptKeepsRecord(w.issued, w.relay, w.record.value, a.record);
    if !AdoptionUnsaved(w.record.value, a) {
      if !NeedsUpdate(adopted, FingerprintOf(w.point.exported)) {
        FetchedNothingNewIs(w, a, adopted);
      } else if a.trusted {
        FreshPending(w, p);
        FetchedUpdateSends(w, a, adopted, p);
      }
    }
  }

  lemma WriteKeepsRecord(issued: seq<Update>, relay: Option<RelayRecord>, r: Record, p: PendingUpdate, stored: RelayRecord, a: Action)
    requires IssuedInOrder(issued) && RecordOk(issued, relay, r) && r.pending == Some(p) && a.Receive?
    requires relay.Some? && Carries(relay.value, Last(issued)) && Carries(stored, Last(issued))
    ensures RecordOk(issued, relay, AfterWrite(Created(r, p, stored), p, a))
    ensures r.mode == Active ==> RecordOk(issued, relay, AfterWrite(Updated(r, p, stored), p, a))
  {
  }

  lemma ReceiveKeepsInv(w: World, a: Action)
    requires Inv(w) && a.Receive?
    ensures Inv(StepReceive(w, a))
  {
    if w.point.AwaitFetch? {
      FetchedKeepsInv(w, a);
    } else if !w.point.Idle? && Accepted(w.point.attempt, a.record) in w.responses {
      WriteKeepsRecord(w.issued, w.relay, w.record.value, w.point.pending, a.record, a);
    }
  }

  lemma GiveUpKeepsInv(w: World, retryAt: int)
    requires Inv(w)
    ensures Inv(StepGiveUp(w, retryAt))
  {
  }

  /** After installing a list, an account of the list holds one of its entries and every other
      account what it held before. */
  lemma {:induction false} InstallShape(tokens: map<string, Credential>, accounts: Export)
    requires forall c :: c in accounts ==> c.refreshToken == None
    ensures tokens.Keys <= Install(tokens, accounts).Keys
    ensures forall c :: c in accounts ==> c.id in Install(tokens, accounts)
    ensures forall id :: id in Install(tokens, accounts) ==>
              || (Install(tokens, accounts)[id].id == id && Install(tokens, accounts)[id] in accounts)
              || (id in tokens && Install(tokens, accounts)[id] == tokens[id] && forall c :: c in accounts ==> c.id != id)
    decreases |accounts|
  {
    if accounts != [] {
      var last := accounts[|accounts| - 1];
      InstallShape(tokens, accounts[..|accounts| - 1]);
      assert accounts == accounts[..|accounts| - 1] + [last];
      assert last in accounts && WithoutRefreshToken(last) == last;
    }
  }

  lemma InstallKeepsTokens(issued: seq<Update>, tokens: map<string, Credential>, accounts: Export, from: int, version: nat, high: nat)
    requires TokensOk(issued, tokens, high) && Covered(issued, tokens, version, high)
    requires 0 <= from < |issued| && version <= issued[from].version <= high
    requires forall c :: c in accounts ==> c in issued[from].accounts && c.refreshToken == None
    ensures TokensOk(issued, Install(tokens, accounts), high)
    ensures Covered(issued, Install(tokens, accounts), version, high)
  {
    InstallShape(tokens, accounts);
    assert forall c :: c in accounts ==> HeldFrom(issued, c, version, high) && HeldFrom(issued, c, 0, high);
  }

  lemma InstallCovers(issued: seq<Update>, tokens: map<string, Credential>, from: int, written: Export, high: nat)
    requires IssuedInOrder(issued) && 0 <= from < |issued| && issued[from].version <= high
    requires Within(written, issued[from].accounts) && Within(issued[from].accounts, written)
    requires forall c :: c in issued[from].accounts ==> c.refreshToken == None
    ensures Covered(issued, Install(tokens, written), issued[from].version, high)
  {
    InstallShape(tokens, written);
    assert forall c :: c in written ==> HeldFrom(issued, c, issued[from].version, high);
    assert forall i :: 0 <= i < |issued| && issued[i].version == issued[from].version ==> i == from;
  }

  lemma WriteKeepsFollower(issued: seq<Update>, relay: Option<RelayRecord>, f: Follower, from: int, written: Export)
    requires IssuedInOrder(issued) && FollowerOk(issued, relay, f) && f.inbox.Some? && f.inbox.value.version > f.version
    requires 0 <= from < |issued| && Carries(f.inbox.value, issued[from]) && Within(written, issued[from].accounts)
    ensures forall c :: c in issued[from].accounts ==> c.refreshToken == None
    ensures TokensOk(issued, Install(f.tokens, written), VersionAt(relay))
    ensures Covered(issued, Install(f.tokens, written), f.version, VersionAt(relay))
  {
    assert NamesSnapshot(issued[from]);
    IssuedIsStripped(issued[from]);
    InstallKeepsTokens(issued, f.tokens, written, from, f.version, VersionAt(relay));
  }

  lemma ProcessKeepsFollower(issued: seq<Update>, relay: Option<RelayRecord>, f: Follower, ok: bool, written: Export)
    requires IssuedInOrder(issued) && FollowerOk(issued, relay, f)
    ensures FollowerOk(issued, relay, StepProcess(f, ok, written))
  {
    if f.inbox.Some? && f.toAcknowledge == None && f.inbox.value.version > f.version && Within(written, f.inbox.value.accounts) {
      var i :| 0 <= i < |issued| && Carries(f.inbox.value, issued[i]);
      WriteKeepsFollower(issued, relay, f, i, written);
      if Within(f.inbox.value.accounts, written) {
        InstallCovers(issued, f.tokens, i, written, VersionAt(relay));
      }
    }
  }

  lemma AcknowledgeKeepsInv(w: World, delivered: bool, answered: bool)
    requires Inv(w)
    ensures Inv(StepAcknowledge(w, delivered, answered))
  {
    var after := StepAcknowledge(w, delivered, answered);
    if w.relay.Some? {
      var i :| 0 <= i < |w.issued| && Carries(w.relay.value, w.issued[i]);
      assert Carries(after.relay.value, w.issued[i]);
    }
    RelayAdvanceKeepsInv(w, after.relay);
  }

  lemma StepKeepsInv(w: World, a: Action)
    requires Inv(w)
    ensures Inv(Step(w, a))
  {
    match a
    case ReadListing =>
    case Begin(_, _, _, _) => BeginKeepsInv(w, a);
    case Deliver(attempt) => DeliverKeepsInv(w, attempt);
    case Receive(_, _, _, _, _, _) => ReceiveKeepsInv(w, a);
    case GiveUp(retryAt) => GiveUpKeepsInv(w, retryAt);
    case StopRelay =>
      var after := Step(w, a);
      if w.relay.Some? {
        var i :| 0 <= i < |w.issued| && Carries(w.relay.value, w.issued[i]);
        assert Carries(after.relay.value, w.issued[i]);
      }
      RelayAdvanceKeepsInv(w, after.relay);
    case FollowerRead =>
    case FollowerProcess(ok, written) => ProcessKeepsFollower(w.issued, w.relay, w.follower, ok, written);
    case FollowerAcknowledge(delivered, answered) => AcknowledgeKeepsInv(w, delivered, answered);
  }

  lemma {:induction false} RunKeepsInv(w: World, actions: seq<Action>)
    requires Inv(w)
    ensures Inv(Run(w, actions))
    decreases |actions|
  {
    if actions != [] {
      RunKeepsInv(w, actions[..|actions| - 1]);
      StepKeepsInv(Run(w, actions[..|actions| - 1]), actions[|actions| - 1]);
    }
  }

  // ---- Theorems over whole runs ----

  /** The relay holds the snapshot an export with this fingerprint strips to. */
  ghost predicate RelayHolds(relay: Option<RelayRecord>, version: nat, fingerprint: Option<Fingerprint>) {
    relay.Some? && relay.value.version == version
    && exists exported: Export :: relay.value.accounts == Stripped(exported) && fingerprint == Some(FingerprintOf(exported))
  }

  /** The pending update is newer than the recorded version. */
  predicate PendingIsNewer(w: World) {
    w.record.Some? && w.record.value.pending.Some? ==> w.record.value.version < w.record.value.pending.value.update.version
  }

  /** The pending update was stored and recorded already, but is still pending because its save failed. */
  predicate PendingIsStored(w: World) {
    && w.record.Some? && w.record.value.pending.Some? && w.record.value.mode == Active && w.relay.Some?
    && w.record.value.version == w.record.value.pending.value.update.version
    && Carries(w.relay.value, w.record.value.pending.value.update)
  }

  lemma InvBoundsPending(w: World)
    requires Inv(w)
    ensures PendingIsNewer(w) || PendingIsStored(w)
  {
    if !PendingIsNewer(w) {
      NewestCarriesLast(w.issued, w.relay.value);
    }
  }

  lemma InvRelayHolds(w: World)
    requires Inv(w) && w.record.Some? && w.record.value.mode == Active && w.record.value.pending == None
    ensures RelayHolds(w.relay, w.record.value.version, w.record.value.fingerprint)
  {
    assert NamesSnapshot(w.issued[|w.issued| - 1]);
  }

  /** In every run, whatever is delayed, repeated, lost, superseded or not saved: versions strictly increase
      and each names one snapshot; a pending update is newer than the recorded version, or is exactly what
      the relay holds; and an active relationship without a pending update is exactly what the relay holds. */
  lemma EveryRunIsSafe(exported: Export, event: EventId, actions: seq<Action>)
    ensures var w := Run(Initial(exported, event), actions);
            && IssuedInOrder(w.issued)
            && (PendingIsNewer(w) || PendingIsStored(w))
            && (w.record.Some? && w.record.value.mode == Active && w.record.value.pending == None ==>
                  RelayHolds(w.relay, w.record.value.version, w.record.value.fingerprint))
            && w.follower.acknowledged <= w.follower.version <= VersionAt(w.relay)
            && (forall id :: id in w.follower.tokens ==> w.follower.tokens[id].refreshToken == None)
  {
    InitialInv(exported, event);
    RunKeepsInv(Initial(exported, event), actions);
    var w := Run(Initial(exported, event), actions);
    InvBoundsPending(w);
    if w.record.Some? && w.record.value.mode == Active && w.record.value.pending == None {
      InvRelayHolds(w);
    }
  }

  // ---- When the pending update is newer than the record ----

  /** A write was stored and its reply taken, but the local save after it fails. */
  predicate LosesSave(w: World, a: Action) {
    && a.Receive? && a.saves == 0 && w.record.Some? && (w.point.AwaitCreate? || w.point.AwaitPut?)
    && Accepted(w.point.attempt, a.record) in w.responses
  }

  lemma AdoptedIsNewer(issued: seq<Update>, relay: Option<RelayRecord>, r: Record, remote: RelayRecord)
    requires IssuedInOrder(issued) && RecordOk(issued, relay, r) && r.mode == Active
    requires Issued(issued, remote) && r.version <= remote.version
    ensures Adopt(r, remote).pending.Some? ==> Adopt(r, remote).version < Adopt(r, remote).pending.value.update.version
  {
    NewestCarriesLast(issued, remote);
  }

  lemma FetchedStaysNewer(w: World, a: Action)
    requires Inv(w) && a.Receive? && w.point.AwaitFetch?
    ensures PendingIsNewer(w) ==> PendingIsNewer(StepFetched(w, a))
    ensures Accepted(w.point.attempt, a.record) in w.responses && FreshEvent(w, a.event) ==> PendingIsNewer(StepFetched(w, a))
  {
    if Accepted(w.point.attempt, a.record) in w.responses && FreshEvent(w, a.event) && !a.record.stopped {
      var adopted := Adopt(w.record.value, a.record);
      AdoptedIsNewer(w.issued, w.relay, w.record.value, a.record);
      FetchedRecord(w, a, adopted, NewPending(w.point.exported, a.event, NextVersion(adopted, a.record)));
    }
  }

  lemma WriteTaken(w: World, a: Action)
    requires Inv(w) && a.Receive? && w.record.Some? && (w.point.AwaitCreate? || w.point.AwaitPut?)
    requires Accepted(w.point.attempt, a.record) in w.responses
    ensures PendingIsNewer(StepReceive(w, a)) <==> a.saves > 0
  {
  }

  lemma QuietStaysNewer(w: World, a: Action)
    requires Inv(w) && !a.Receive? && PendingIsNewer(w)
    ensures PendingIsNewer(Step(w, a))
  {
    match a
    case Begin(_, _, _, _) =>
      if w.record.Some? && w.point == Idle {
        BeginChangesNothing(w.issued, w.relay, if a.useListing then w.listing else None, w.record.value, a.exported, a.complete, a.now);
        BeginCases(w, a);
      }
    case _ =>
  }

  lemma StepStaysNewerExactlyWhen(w: World, a: Action)
    requires Inv(w) && PendingIsNewer(w)
    ensures PendingIsNewer(Step(w, a)) <==> !LosesSave(w, a)
  {
    if !a.Receive? {
      QuietStaysNewer(w, a);
    } else if w.point.AwaitFetch? {
      FetchedStaysNewer(w, a);
    } else if !w.point.Idle? && w.record.Some? && Accepted(w.point.attempt, a.record) in w.responses {
      WriteTaken(w, a);
    }
  }

  lemma {:induction false} StaysNewer(w: World, actions: seq<Action>)
    requires Inv(w) && PendingIsNewer(w)
    requires forall k :: 0 <= k < |actions| ==> !LosesSave(Run(w, actions[..k]), actions[k])
    ensures PendingIsNewer(Run(w, actions))
    decreases |actions|
  {
    if actions != [] {
      var init := actions[..|actions| - 1];
      assert forall k :: 0 <= k < |init| ==> init[..k] == actions[..k];
      StaysNewer(w, init);
      RunKeepsInv(w, init);
      StepStaysNewerExactlyWhen(Run(w, init), actions[|actions| - 1]);
    }
  }

  lemma NewerUntilLost(w: World, actions: seq<Action>, k: nat)
    requires Inv(w) && k < |actions| && PendingIsNewer(Run(w, actions[..k])) && LosesSave(Run(w, actions[..k]), actions[k])
    ensures !PendingIsNewer(Run(w, actions[..k + 1]))
  {
    assert actions[..k + 1][..k] == actions[..k];
    RunKeepsInv(w, actions[..k]);
    StepStaysNewerExactlyWhen(Run(w, actions[..k]), actions[k]);
  }

  /** A pending update is newer than the recorded version all along a run exactly when no save fails right after
      a stored write. */
  lemma PendingIsNewerExactlyWhen(exported: Export, event: EventId, actions: seq<Action>)
    ensures var start := Initial(exported, event);
            (forall k :: 0 <= k <= |actions| ==> PendingIsNewer(Run(start, actions[..k])))
            <==> (forall k :: 0 <= k < |actions| ==> !LosesSave(Run(start, actions[..k]), actions[k]))
  {
    var start := Initial(exported, event);
    InitialInv(exported, event);
    if forall k :: 0 <= k < |actions| ==> !LosesSave(Run(start, actions[..k]), actions[k]) {
      forall k | 0 <= k <= |actions|
        ensures PendingIsNewer(Run(start, actions[..k]))
      {
        assert forall i :: 0 <= i < k ==> actions[..k][..i] == actions[..i];
        StaysNewer(start, actions[..k]);
      }
    } else {
      var k :| 0 <= k < |actions| && LosesSave(Run(start, actions[..k]), actions[k]);
      if PendingIsNewer(Run(start, actions[..k])) {
        NewerUntilLost(start, actions, k);
      }
    }
  }

  /** ... and the next answer the primary reads repairs it: the stored update is adopted, and whatever is pending
      afterwards is newer again. */
  lemma NextFetchAdopts(w: World, a: Action)
    requires Inv(w) && PendingIsStored(w) && a.Receive? && w.point.AwaitFetch?
    requires Accepted(w.point.attempt, a.record) in w.responses && FreshEvent(w, a.event) && !a.record.stopped
    ensures Matches(w.record.value, a.record) && Adopt(w.record.value, a.record).pending == None
    ensures Adopt(w.record.value, a.record).fingerprint == Some(w.record.value.pending.value.update.fingerprint)
    ensures PendingIsNewer(Step(w, a))
  {
    NewestCarriesLast(w.issued, a.record);
    FetchedStaysNewer(w, a);
  }

  /** What only grows along a run. */
  ghost predicate Grows(before: World, after: World) {
    && before.issued <= after.issued
    && VersionAt(before.relay) <= VersionAt(after.relay)
    && before.follower.version <= after.follower.version
    && before.follower.acknowledged <= after.follower.acknowledged
    && (before.record.Some? && after.record.Some? ==> before.record.value.version <= after.record.value.version)
    && (before.record == None ==> after.record == None)
  }

  lemma FetchedGrows(w: World, a: Action)
    requires Inv(w) && a.Receive? && w.point.AwaitFetch?
    ensures Grows(w, StepFetched(w, a))
  {
    if Accepted(w.point.attempt, a.record) in w.responses && FreshEvent(w, a.event) && !a.record.stopped {
      var adopted := Adopt(w.record.value, a.record);
      AdoptKeepsRecord(w.issued, w.relay, w.record.value, a.record);
      FetchedRecord(w, a, adopted, NewPending(w.point.exported, a.event, NextVersion(adopted, a.record)));
    }
  }

  lemma ReceiveGrows(w: World, a: Action)
    requires Inv(w) && a.Receive?
    ensures Grows(w, StepReceive(w, a))
  {
    if w.point.AwaitFetch? {
      FetchedGrows(w, a);
    }
  }

  lemma BeginGrows(w: World, a: Action)
    requires Inv(w) && a.Begin?
    ensures Grows(w, StepBegin(w, a))
  {
    if w.record.Some? && w.point == Idle {
      BeginChangesNothing(w.issued, w.relay, if a.useListing then w.listing else None, w.record.value, a.exported, a.complete, a.now);
      BeginCases(w, a);
    }
  }

  lemma DeliverGrows(w: World, attempt: nat)
    requires Inv(w)
    ensures Grows(w, StepDeliver(w, attempt))
  {
    if attempt in w.wire {
      HandleAdvances(w.issued, w.relay, w.wire[attempt]);
    }
  }

  lemma GiveUpGrows(w: World, retryAt: int)
    ensures Grows(w, StepGiveUp(w, retryAt))
  {
  }

  lemma AcknowledgeGrows(w: World, delivered: bool, answered: bool)
    ensures Grows(w, StepAcknowledge(w, delivered, answered))
  {
  }

  lemma StepGrows(w: World, a: Action)
    requires Inv(w)
    ensures Grows(w, Step(w, a))
  {
    match a
    case Begin(_, _, _, _) => BeginGrows(w, a);
    case Deliver(attempt) => DeliverGrows(w, attempt);
    case Receive(_, _, _, _, _, _) => ReceiveGrows(w, a);
    case GiveUp(retryAt) => GiveUpGrows(w, retryAt);
    case FollowerAcknowledge(delivered, answered) => AcknowledgeGrows(w, delivered, answered);
    case _ =>
  }

  /** Continuing any run never takes back an issued update, a version or an acknowledgement. */
  lemma {:induction false} RunGrows(w: World, actions: seq<Action>)
    requires Inv(w)
    ensures Grows(w, Run(w, actions))
    decreases |actions|
  {
    if actions != [] {
      RunKeepsInv(w, actions[..|actions| - 1]);
      RunGrows(w, actions[..|actions| - 1]);
      StepGrows(Run(w, actions[..|actions| - 1]), actions[|actions| - 1]);
    }
  }

  predicate DistinctIds(accounts: Export) {
    forall i, j :: 0 <= i < j < |accounts| ==> accounts[i].id != accounts[j].id
  }

  /** The follower holds exactly these credentials, without refresh tokens. */
  predicate Holds(tokens: map<string, Credential>, accounts: Export) {
    forall c :: c in accounts ==> c.id in tokens && HeldAs(tokens[c.id], c)
  }

  lemma IssuedAccountsAreStripped(issued: seq<Update>, record: RelayRecord)
    requires IssuedInOrder(issued) && Issued(issued, record)
    ensures forall c :: c in record.accounts ==> c.refreshToken == None
  {
    var i :| 0 <= i < |issued| && Carries(record, issued[i]);
    assert NamesSnapshot(issued[i]);
    var exported: Export :| record.accounts == Stripped(exported);
  }

  lemma InstallHolds(tokens: map<string, Credential>, accounts: Export, written: Export)
    requires DistinctIds(accounts) && Within(written, accounts) && Within(accounts, written)
    requires forall c :: c in accounts ==> c.refreshToken == None
    ensures Holds(Install(tokens, written), accounts)
  {
    InstallShape(tokens, written);
    forall c | c in accounts
      ensures c.id in Install(tokens, written) && HeldAs(Install(tokens, written)[c.id], c)
    {
      SameIdSameCredential(accounts, c, Install(tokens, written)[c.id]);
    }
  }

  /** A successful apply leaves the follower with the applied version and exactly its tokens, in whatever order they
      were written. */
  lemma ApplyInstallsVersion(w: World, written: Export)
    requires Inv(w) && w.follower.inbox.Some? && w.follower.toAcknowledge == None
    requires w.follower.inbox.value.version > w.follower.version && DistinctIds(w.follower.inbox.value.accounts)
    requires Within(written, w.follower.inbox.value.accounts) && Within(w.follower.inbox.value.accounts, written)
    ensures var f := StepProcess(w.follower, true, written);
            f.version == w.follower.inbox.value.version && Holds(f.tokens, w.follower.inbox.value.accounts)
  {
    IssuedAccountsAreStripped(w.issued, w.follower.inbox.value);
    InstallHolds(w.follower.tokens, w.follower.inbox.value.accounts, written);
  }

  lemma IssuedIsStripped(update: Update)
    requires NamesSnapshot(update)
    ensures forall c :: c in update.accounts ==> c.refreshToken == None
  {
    var exported: Export :| update.accounts == Stripped(exported);
  }

  lemma VersionsDiffer(issued: seq<Update>, i: nat, j: nat)
    requires IssuedInOrder(issued) && i < |issued| && j < |issued|
    ensures issued[i].version == issued[j].version ==> i == j
  {
  }

  lemma HeldAtVersion(issued: seq<Update>, token: Credential, from: nat)
    requires IssuedInOrder(issued) && from < |issued|
    requires HeldFrom(issued, token, issued[from].version, issued[from].version)
    ensures token in issued[from].accounts
  {
    var version := issued[from].version;
    var j :| 0 <= j < |issued| && version <= issued[j].version <= version && token in issued[j].accounts;
    VersionsDiffer(issued, from, j);
  }

  lemma SameIdSameCredential(accounts: Export, a: Credential, b: Credential)
    requires DistinctIds(accounts) && a in accounts && b in accounts && a.id == b.id
    ensures a == b
  {
    var i :| 0 <= i < |accounts| && accounts[i] == a;
    var j :| 0 <= j < |accounts| && accounts[j] == b;
  }

  lemma CoveredHolds(issued: seq<Update>, tokens: map<string, Credential>, from: nat)
    requires IssuedInOrder(issued) && from < |issued| && DistinctIds(issued[from].accounts)
    requires TokensOk(issued, tokens, issued[from].version)
    requires Covered(issued, tokens, issued[from].version, issued[from].version)
    ensures Holds(tokens, issued[from].accounts)
  {
    var accounts := issued[from].accounts;
    IssuedIsStripped(issued[from]);
    forall c | c in accounts
      ensures c.id in tokens && HeldAs(tokens[c.id], c)
    {
      HeldAtVersion(issued, tokens[c.id], from);
      SameIdSameCredential(accounts, c, tokens[c.id]);
    }
  }

  /** A follower that caught up with the relay holds the relay's snapshot, even if an earlier
      apply failed half way. */
  lemma CaughtUpHolds(w: World)
    requires Inv(w) && w.relay.Some? && w.follower.version == w.relay.value.version && DistinctIds(w.relay.value.accounts)
    ensures Holds(w.follower.tokens, w.relay.value.accounts)
  {
    var i :| 0 <= i < |w.issued| && Carries(w.relay.value, w.issued[i]);
    CoveredHolds(w.issued, w.follower.tokens, i);
  }

  // ---- Convergence ----

  /** One publish in which every request is delivered and every reply arrives, step by step. */
  ghost predicate Publishes(w: World, w1: World, w2: World, w3: World, w4: World, w5: World,
                            exported: Export, useListing: bool, event: EventId, now: int)
    requires w.relay.Some?
  {
    && w1 == Step(w, Begin(exported, true, useListing, now))
    && w2 == Step(w1, Deliver(w.attempts + 1))
    && w3 == Step(w2, TakesReply(w.relay.value, event, now))
    && w4 == Step(w3, Deliver(w.attempts + 2))
    && w5 == TakeAnswer(w4, event, now)
  }

  /** The answer to the last delivered write reaches the primary. */
  function TakeAnswer(w: World, event: EventId, now: int): World {
    if w.relay == None then w else Step(w, TakesReply(w.relay.value, event, now))
  }

  function SnapshotOf(relay: Option<RelayRecord>): Export {
    if relay.Some? then relay.value.accounts else []
  }

  /** One poll in which the follower reads, applies and acknowledges. */
  ghost predicate Polls(w: World, w1: World, w2: World, w3: World) {
    && w1 == Step(w, FollowerRead)
    && w2 == Step(w1, FollowerProcess(true, SnapshotOf(w.relay)))
    && w3 == Step(w2, FollowerAcknowledge(true, true))
  }

  predicate ReadyToPublish(w: World, event: EventId, now: int) {
    && w.record.Some? && w.record.value.mode == Active && w.point == Idle
    && w.relay.Some? && !w.relay.value.stopped
    && FreshEvent(w, event)
    && (w.record.value.pending.Some? ==> Due(w.record.value.pending.value, now))
  }

  /** The time of the next attempt has come. */
  predicate Due(pending: PendingUpdate, now: int) {
    pending.nextAttemptAt.Some? ==> pending.nextAttemptAt.value <= now
  }

  /** The relay is known to hold the recorded snapshot, and the recorded snapshot is that of the export. */
  predicate ListedAsRecorded(w: World, exported: Export) {
    && w.record.Some? && w.record.value.pending == None && w.record.value.fingerprint == Some(FingerprintOf(exported))
    && w.listing.Some? && !w.listing.value.stopped && w.listing.value.version == VersionAt(w.relay)
  }

  lemma ShortcutNeedsCurrentListing(issued: seq<Update>, relay: Option<RelayRecord>, listing: Option<RelayRecord>, r: Record,
                                    exported: Export, now: int)
    requires issued != [] && RecordOk(issued, relay, r) && r.mode == Active
    requires listing.Some? ==> listing.value.version <= VersionAt(relay)
    ensures BeginPublish(r, exported, true, listing, now)
         == (r, if listing.Some? && !listing.value.stopped && listing.value.version == VersionAt(relay)
                   && r.pending == None && r.fingerprint == Some(FingerprintOf(exported)) then Finish else Fetch)
  {
  }

  /** An active relationship either asks the relay or, when a listing shows that nothing is to be published, does nothing. */
  lemma BeginOfActive(w: World, a: Action)
    requires Inv(w) && a.Begin? && a.complete && w.record.Some? && w.record.value.mode == Active && w.point == Idle
    ensures Step(w, a) == if a.useListing && ListedAsRecorded(w, a.exported) then w
                          else Send(w, Get, AwaitFetch(w.attempts + 1, a.exported))
  {
    ShortcutNeedsCurrentListing(w.issued, w.relay, if a.useListing then w.listing else None, w.record.value, a.exported, a.now);
    assert w.(record := Some(w.record.value)) == w;
  }

  /** Whatever the listing showed, and however old it is: a publish of an active relationship that ends without asking
      the relay leaves it holding the current export at the recorded version. */
  lemma FinishedPublishIsCurrent(w: World, a: Action)
    requires Inv(w) && a.Begin? && a.complete && w.record.Some? && w.record.value.mode == Active && w.point == Idle
    requires Step(w, a).point == Idle
    ensures Step(w, a) == w && w.record.value.pending == None
    ensures RelayHolds(w.relay, w.record.value.version, Some(FingerprintOf(a.exported)))
  {
    BeginOfActive(w, a);
    InvRelayHolds(w);
  }

  lemma ReadIsAnswered(w: World)
    requires w.point.AwaitFetch? && w.point.attempt in w.wire && w.wire[w.point.attempt] == Get && w.relay.Some?
    ensures Step(w, Deliver(w.point.attempt)) == w.(responses := w.responses + {Accepted(w.point.attempt, w.relay.value)})
  {
  }

  lemma PublishReads(w: World, w1: World, w2: World, exported: Export)
    requires Inv(w) && w.record.Some? && w.record.value.mode == Active && w.relay.Some?
    requires w1 == Send(w, Get, AwaitFetch(w.attempts + 1, exported)) && w2 == Step(w1, Deliver(w.attempts + 1))
    ensures Inv(w2) && w2.record == w.record && w2.relay == w.relay && w2.issued == w.issued && w2.follower == w.follower
    ensures w2.attempts == w.attempts + 1 && w2.point == AwaitFetch(w.attempts + 1, exported)
    ensures Accepted(w.attempts + 1, w.relay.value) in w2.responses
  {
    SendKeepsInv(w, Get, AwaitFetch(w.attempts + 1, exported));
    ReadIsAnswered(w1);
    StepKeepsInv(w1, Deliver(w.attempts + 1));
  }

  /** The world is settled on an export: recorded, nothing pending, the relay running. */
  predicate Settled(w: World, exported: Export) {
    && w.record.Some? && w.record.value.mode == Active && w.record.value.pending == None && w.point == Idle
    && w.record.value.fingerprint == Some(FingerprintOf(exported))
    && w.relay.Some? && !w.relay.value.stopped
  }

  /** After the reply to the read, either the recorded snapshot is the export's, or the update that
      names it is on the wire. */
  predicate Decided(w: World, attempts: nat, exported: Export) {
    && w.record.Some? && w.record.value.mode == Active && w.relay.Some?
    && (|| (Settled(w, exported) && w.attempts <= attempts)
        || (w.point.AwaitPut? && w.point.attempt == attempts + 1 && w.point.pending.update.fingerprint == FingerprintOf(exported)
            && w.point.pending.update.version > w.relay.value.version))
  }

  /** When the recorded snapshot is the export's, either nothing is pending or the pending update is still to be sent. */
  lemma AdoptedIsIdle(w: World, adopted: Record, remote: RelayRecord, exported: Export, now: int)
    requires Inv(w) && w.record.Some? && w.record.value.mode == Active && w.relay == Some(remote)
    requires adopted == Adopt(w.record.value, remote) && !NeedsUpdate(adopted, FingerprintOf(exported))
    requires w.record.value.pending.Some? ==> !Waiting(w.record.value.pending.value, now)
    ensures adopted.mode == Active
    ensures adopted.pending == None ==> adopted.fingerprint == Some(FingerprintOf(exported))
    ensures adopted.pending.Some? ==>
              !Waiting(adopted.pending.value, now) && adopted.pending.value.update.version > remote.version
              && adopted.pending.value.update.fingerprint == FingerprintOf(exported)
  {
    NewestCarriesLast(w.issued, remote);
  }

  lemma PublishDecides(w: World, exported: Export, event: EventId, now: int)
    requires Inv(w) && w.record.Some? && w.record.value.mode == Active && w.relay.Some? && !w.relay.value.stopped
    requires w.point.AwaitFetch? && w.point.exported == exported && Accepted(w.point.attempt, w.relay.value) in w.responses
    requires FreshEvent(w, event)
    requires w.record.value.pending.Some? ==> !Waiting(w.record.value.pending.value, now)
    ensures var w' := Step(w, TakesReply(w.relay.value, event, now));
            Decided(w', w.attempts, exported) && w'.relay == w.relay && w'.follower == w.follower
  {
    var remote := w.relay.value;
    var a := TakesReply(remote, event, now);
    AdoptKeepsRecord(w.issued, w.relay, w.record.value, remote);
    var adopted := Adopt(w.record.value, remote);
    if NeedsUpdate(adopted, FingerprintOf(exported)) {
      var p := NewPending(exported, event, NextVersion(adopted, remote));
      FreshPending(w, p);
      FetchedUpdateSends(w, a, adopted, p);
      assert Step(w, a) == Send(Named(w, adopted, p), Put(PayloadOf(p.update)), AwaitPut(w.attempts + 1, p));
      assert p.update.version > remote.version;
    } else {
      AdoptedIsIdle(w, adopted, remote, exported, now);
      FetchedNothingNewIs(w, a, adopted);
    }
  }

  lemma WriteIsStored(w: World)
    requires w.point.AwaitPut? && w.relay.Some? && !w.relay.value.stopped
    requires w.point.attempt in w.wire && w.wire[w.point.attempt] == Put(PayloadOf(w.point.pending.update))
    requires w.point.pending.update.version > w.relay.value.version
    ensures var stored := Store(w.relay, PayloadOf(w.point.pending.update));
            Step(w, Deliver(w.point.attempt)) == w.(relay := Some(stored), responses := w.responses + {Accepted(w.point.attempt, stored)})
  {
  }

  lemma WriteIsTaken(w: World, event: EventId, now: int)
    requires w.point.AwaitPut? && w.record.Some? && w.relay.Some? && Accepted(w.point.attempt, w.relay.value) in w.responses
    ensures TakeAnswer(w, event, now) == w.(record := Some(Updated(w.record.value, w.point.pending, w.relay.value)), point := Idle)
  {
  }

  lemma PublishWrites(w: World, w1: World, w2: World, exported: Export, event: EventId, now: int)
    requires Inv(w) && w.point.AwaitPut? && w.relay.Some? && !w.relay.value.stopped
    requires w.point.pending.update.version > w.relay.value.version && w.point.pending.update.fingerprint == FingerprintOf(exported)
    requires w1 == Step(w, Deliver(w.point.attempt)) && w2 == TakeAnswer(w1, event, now)
    ensures Settled(w2, exported) && w2.follower == w.follower
  {
    WriteIsStored(w);
    WriteIsTaken(w1, event, now);
  }

  lemma SettledRelayHolds(w: World, exported: Export)
    requires Inv(w) && Settled(w, exported)
    ensures RelayHolds(w.relay, w.record.value.version, Some(FingerprintOf(exported)))
  {
    assert NamesSnapshot(w.issued[|w.issued| - 1]);
  }

  lemma NothingToWrite(w: World, attempt: nat, event: EventId, now: int)
    requires w.point == Idle && attempt !in w.wire
    ensures Step(w, Deliver(attempt)) == w && TakeAnswer(w, event, now) == w
  {
  }

  lemma AnswerKeepsInv(w: World, event: EventId, now: int)
    requires Inv(w)
    ensures Inv(TakeAnswer(w, event, now))
  {
    if w.relay.Some? {
      StepKeepsInv(w, TakesReply(w.relay.value, event, now));
    }
  }

  lemma PublishFinishes(w: World, w1: World, w2: World, attempt: nat, exported: Export, event: EventId, now: int)
    requires Inv(w) && 0 < attempt && Decided(w, attempt - 1, exported) && !w.relay.value.stopped
    requires w1 == Step(w, Deliver(attempt)) && w2 == TakeAnswer(w1, event, now)
    ensures Inv(w2) && Settled(w2, exported) && w2.follower == w.follower
  {
    StepKeepsInv(w, Deliver(attempt));
    AnswerKeepsInv(w1, event, now);
    if w.point.AwaitPut? {
      PublishWrites(w, w1, w2, exported, event, now);
    } else {
      NothingToWrite(w, attempt, event, now);
    }
  }

  lemma ReadSettles(w: World, w1: World, w2: World, w3: World, exported: Export, useListing: bool, event: EventId, now: int)
    requires Inv(w) && ReadyToPublish(w, event, now)
    requires w1 == Step(w, Begin(exported, true, useListing, now)) && w2 == Step(w1, Deliver(w.attempts + 1))
    requires w3 == Step(w2, TakesReply(w.relay.value, event, now))
    ensures Inv(w3) && Decided(w3, w.attempts + 1, exported) && w3.relay == w.relay && w3.follower == w.follower
  {
    BeginOfActive(w, Begin(exported, true, useListing, now));
    if w1 == w {
      NothingToWrite(w, w.attempts + 1, event, now);
    } else {
      PublishReads(w, w1, w2, exported);
      PublishDecides(w2, exported, event, now);
      StepKeepsInv(w2, TakesReply(w.relay.value, event, now));
    }
  }

  lemma WriteSettles(w: World, w3: World, w4: World, w5: World, exported: Export, event: EventId, now: int)
    requires Inv(w3) && Decided(w3, w.attempts + 1, exported) && w3.relay == w.relay && w3.follower == w.follower
    requires w.relay.Some? && !w.relay.value.stopped
    requires w4 == Step(w3, Deliver(w.attempts + 2)) && w5 == TakeAnswer(w4, event, now)
    ensures Inv(w5) && Settled(w5, exported) && w5.follower == w.follower
  {
    PublishFinishes(w3, w4, w5, w.attempts + 2, exported, event, now);
  }

  lemma PublishSettles(w: World, w1: World, w2: World, w3: World, w4: World, w5: World,
                       exported: Export, useListing: bool, event: EventId, now: int)
    requires Inv(w) && ReadyToPublish(w, event, now) && Publishes(w, w1, w2, w3, w4, w5, exported, useListing, event, now)
    ensures Inv(w5) && Settled(w5, exported) && w5.follower == w.follower
  {
    ReadSettles(w, w1, w2, w3, exported, useListing, event, now);
    WriteSettles(w, w3, w4, w5, exported, event, now);
  }

  /** One publish that gets through makes the relay hold the current export, whatever happened
      before: lost replies, superseded updates, requests still on the wire. */
  lemma PublishAgreesStepwise(w: World, w1: World, w2: World, w3: World, w4: World, w5: World,
                      exported: Export, useListing: bool, event: EventId, now: int)
    requires Inv(w) && ReadyToPublish(w, event, now) && Publishes(w, w1, w2, w3, w4, w5, exported, useListing, event, now)
    ensures w5.record.Some? && w5.record.value.pending == None
    ensures w5.record.value.fingerprint == Some(FingerprintOf(exported))
    ensures RelayHolds(w5.relay, w5.record.value.version, Some(FingerprintOf(exported)))
  {
    PublishSettles(w, w1, w2, w3, w4, w5, exported, useListing, event, now);
    SettledRelayHolds(w5, exported);
  }

  lemma PollReads(w: World)
    requires w.relay.Some? && !w.relay.value.stopped && w.follower.inbox == None && w.follower.toAcknowledge == None
    ensures Step(w, FollowerRead) == w.(follower := w.follower.(inbox := w.relay))
  {
  }

  lemma ProcessCatchesUp(f: Follower, remote: RelayRecord)
    requires f.inbox == Some(remote) && f.toAcknowledge == None && f.acknowledged <= f.version <= remote.version
    ensures var f' := StepProcess(f, true, remote.accounts);
            && f'.version == remote.version && f'.inbox == None && f'.acknowledged == f.acknowledged
            && f'.toAcknowledge == if f.acknowledged < remote.version then Some(remote.version) else None
  {
  }

  lemma AcknowledgeCatchesUp(w: World)
    requires w.relay.Some? && w.follower.acknowledged <= w.follower.version
    requires w.follower.toAcknowledge == if w.follower.acknowledged < w.follower.version then Some(w.follower.version) else None
    ensures var w' := StepAcknowledge(w, true, true);
            && w'.record == w.record && w'.relay.Some? && w'.relay.value.version == w.relay.value.version
            && w'.relay.value.accounts == w.relay.value.accounts && w'.follower.tokens == w.follower.tokens
            && w'.follower.version == w.follower.version == w'.follower.acknowledged
  {
  }

  lemma PollSettles(w: World, w1: World, w2: World)
    requires Inv(w) && w.relay.Some? && !w.relay.value.stopped && DistinctIds(w.relay.value.accounts)
    requires w.follower.inbox == None && w.follower.toAcknowledge == None
    requires w1 == Step(w, FollowerRead) && w2 == Step(w1, FollowerProcess(true, SnapshotOf(w.relay)))
    ensures Holds(w2.follower.tokens, w.relay.value.accounts) && w2.record == w.record && w2.relay == w.relay
    ensures w2.follower.version == w.relay.value.version && w2.follower.acknowledged <= w2.follower.version
    ensures w2.follower.toAcknowledge == if w2.follower.acknowledged < w2.follower.version then Some(w2.follower.version) else None
  {
    PollReads(w);
    StepKeepsInv(w, FollowerRead);
    StepKeepsInv(w1, FollowerProcess(true, SnapshotOf(w.relay)));
    ProcessCatchesUp(w1.follower, w.relay.value);
    CaughtUpHolds(w2);
  }

  /** ... and one follower poll then makes primary, relay and follower agree on version and tokens. */
  lemma PollAgreesStepwise(w: World, w1: World, w2: World, w3: World)
    requires Inv(w) && Polls(w, w1, w2, w3)
    requires w.relay.Some? && !w.relay.value.stopped && DistinctIds(w.relay.value.accounts)
    requires w.follower.inbox == None && w.follower.toAcknowledge == None
    ensures w3.record == w.record && w3.relay.Some?
    ensures w3.relay.value.version == w.relay.value.version && w3.relay.value.accounts == w.relay.value.accounts
    ensures w3.follower.version == w3.relay.value.version == w3.follower.acknowledged
    ensures Holds(w3.follower.tokens, w3.relay.value.accounts)
  {
    PollSettles(w, w1, w2);
    AcknowledgeCatchesUp(w2);
  }

  lemma {:induction false} DistinctIdsAppearOnce(accounts: Export, c: Credential)
    requires DistinctIds(accounts)
    ensures multiset(accounts)[c] <= 1
    decreases |accounts|
  {
    if accounts != [] {
      assert accounts == [accounts[0]] + accounts[1..];
      DistinctIdsAppearOnce(accounts[1..], c);
      if accounts[0] == c {
        assert c !in accounts[1..];
      }
    }
  }

  lemma RepeatsCount(accounts: Export, i: nat, j: nat)
    requires i < j < |accounts| && accounts[i] == accounts[j]
    ensures multiset(accounts)[accounts[i]] >= 2
  {
    assert accounts == accounts[..j] + [accounts[j]] + accounts[j + 1..];
    assert accounts[i] in accounts[..j];
  }

  lemma ReorderedStaysDistinct(accounts: Export, reordered: Export)
    requires DistinctIds(accounts) && multiset(accounts) == multiset(reordered)
    ensures DistinctIds(Stripped(reordered))
  {
    forall i, j | 0 <= i < j < |reordered|
      ensures reordered[i].id != reordered[j].id
    {
      assert reordered[i] in multiset(reordered) && reordered[j] in multiset(reordered);
      assert reordered[i] in accounts && reordered[j] in accounts;
      if reordered[i] == reordered[j] {
        RepeatsCount(reordered, i, j);
        DistinctIdsAppearOnce(accounts, reordered[i]);
      }
    }
  }

  lemma SettledStaysDistinct(w: World, exported: Export)
    requires Inv(w) && Settled(w, exported) && DistinctIds(exported)
    ensures DistinctIds(w.relay.value.accounts)
    ensures w.record.value.version == w.relay.value.version
    ensures forall c :: c in exported ==> WithoutRefreshToken(c) in w.relay.value.accounts
  {
    SettledRelayHolds(w, exported);
    var stored: Export :| w.relay.value.accounts == Stripped(stored) && FingerprintOf(stored) == FingerprintOf(exported);
    ReorderedStaysDistinct(exported, stored);
    forall c | c in exported
      ensures WithoutRefreshToken(c) in w.relay.value.accounts
    {
      assert c in multiset(exported) && c in stored;
      var i :| 0 <= i < |stored| && stored[i] == c;
      assert Stripped(stored)[i] in w.relay.value.accounts;
    }
  }

  lemma ConvergesStepwise(w: World, w1: World, w2: World, w3: World, w4: World, w5: World, w6: World, w7: World, w8: World,
                  exported: Export, useListing: bool, event: EventId, now: int)
    requires Inv(w) && ReadyToPublish(w, event, now) && Publishes(w, w1, w2, w3, w4, w5, exported, useListing, event, now)
    requires Polls(w5, w6, w7, w8) && DistinctIds(exported)
    requires w.follower.inbox == None && w.follower.toAcknowledge == None
    ensures w8.record.Some? && w8.record.value.pending == None && w8.record.value.fingerprint == Some(FingerprintOf(exported))
    ensures w8.relay.Some? && w8.record.value.version == w8.relay.value.version == w8.follower.version == w8.follower.acknowledged
    ensures Holds(w8.follower.tokens, exported)
  {
    PublishSettles(w, w1, w2, w3, w4, w5, exported, useListing, event, now);
    SettledStaysDistinct(w5, exported);
    PollAgreesStepwise(w5, w6, w7, w8);
    assert forall c :: c in exported ==> WithoutRefreshToken(WithoutRefreshToken(c)) == WithoutRefreshToken(c);
  }

  lemma TakeStep(w: World, a: Action) returns (next: World)
    ensures next == Step(w, a)
  {
    next := Step(w, a);
  }

  lemma PublishOnce(w: World, exported: Export, useListing: bool, event: EventId, now: int)
    returns (w1: World, w2: World, w3: World, w4: World, w5: World)
    requires w.relay.Some?
    ensures Publishes(w, w1, w2, w3, w4, w5, exported, useListing, event, now)
  {
    w1 := TakeStep(w, Begin(exported, true, useListing, now));
    w2 := TakeStep(w1, Deliver(w.attempts + 1));
    w3 := TakeStep(w2, TakesReply(w.relay.value, event, now));
    w4 := TakeStep(w3, Deliver(w.attempts + 2));
    w5 := TakeAnswer(w4, event, now);
  }

  lemma PollOnce(w: World) returns (w1: World, w2: World, w3: World)
    ensures Polls(w, w1, w2, w3)
  {
    w1 := TakeStep(w, FollowerRead);
    w2 := TakeStep(w1, FollowerProcess(true, SnapshotOf(w.relay)));
    w3 := TakeStep(w2, FollowerAcknowledge(true, true));
  }

  /** One successful publish leaves the relay holding the current export at the recorded version. */
  lemma PublishAgrees(w: World, exported: Export, useListing: bool, event: EventId, now: int)
    returns (w1: World, w2: World, w3: World, w4: World, after: World)
    requires Inv(w) && ReadyToPublish(w, event, now)
    ensures Publishes(w, w1, w2, w3, w4, after, exported, useListing, event, now)
    ensures after.record.Some? && after.record.value.pending == None
    ensures after.record.value.fingerprint == Some(FingerprintOf(exported))
    ensures RelayHolds(after.relay, after.record.value.version, Some(FingerprintOf(exported)))
  {
    w1, w2, w3, w4, after := PublishOnce(w, exported, useListing, event, now);
    PublishAgreesStepwise(w, w1, w2, w3, w4, after, exported, useListing, event, now);
  }

  /** Once the export stops changing, one successful publish and one follower poll make primary,
      relay and follower agree on the version, and the follower hold the export's access and id
      tokens without refresh tokens. */
  lemma Converges(w: World, exported: Export, useListing: bool, event: EventId, now: int)
    returns (w1: World, w2: World, w3: World, w4: World, w5: World, w6: World, w7: World, after: World)
    requires Inv(w) && ReadyToPublish(w, event, now) && DistinctIds(exported)
    requires w.follower.inbox == None && w.follower.toAcknowledge == None
    ensures Publishes(w, w1, w2, w3, w4, w5, exported, useListing, event, now) && Polls(w5, w6, w7, after)
    ensures after.record.Some? && after.record.value.pending == None
    ensures after.record.value.fingerprint == Some(FingerprintOf(exported))
    ensures after.relay.Some? && after.record.value.version == after.relay.value.version
    ensures after.relay.value.version == after.follower.version == after.follower.acknowledged
    ensures Holds(after.follower.tokens, exported)
  {
    w1, w2, w3, w4, w5 := PublishOnce(w, exported, useListing, event, now);
    w6, w7, after := PollOnce(w5);
    ConvergesStepwise(w, w1, w2, w3, w4, w5, w6, w7, after, exported, useListing, event, now);
  }

  lemma CreationAsks(w: World, exported: Export, useListing: bool, now: int)
    requires w.record.Some? && w.record.value.mode == AwaitingCreation && w.point == Idle
    requires w.record.value.pending.Some? && w.record.value.pending.value.initial && !Waiting(w.record.value.pending.value, now)
    ensures var p := w.record.value.pending.value;
            Step(w, Begin(exported, true, useListing, now)) == Send(w, Create(PayloadOf(p.update)), AwaitCreate(w.attempts + 1, p))
  {
    assert w.(record := Some(w.record.value)) == w;
  }

  lemma CreationIsAnswered(w: World)
    requires w.point.AwaitCreate? && w.point.attempt in w.wire && w.wire[w.point.attempt] == Create(PayloadOf(w.point.pending.update))
    requires w.relay.Some? ==> SameEvent(w.relay.value, PayloadOf(w.point.pending.update))
    ensures var stored := if w.relay.Some? then w.relay.value else Store(w.relay, PayloadOf(w.point.pending.update));
            Step(w, Deliver(w.point.attempt)) == w.(relay := Some(stored), responses := w.responses + {Accepted(w.point.attempt, stored)})
  {
  }

  lemma CreationIsTaken(w: World, record: RelayRecord, event: EventId, now: int)
    requires w.point.AwaitCreate? && w.record.Some? && Accepted(w.point.attempt, record) in w.responses
    ensures Step(w, TakesReply(record, event, now)) == w.(record := Some(Created(w.record.value, w.point.pending, record)), point := Idle)
  {
  }

  lemma OnlyUpdateIsStored(w: World, stored: RelayRecord)
    requires Inv(w) && w.record.Some? && w.record.value.mode == AwaitingCreation
    requires stored == if w.relay.Some? then w.relay.value else Store(w.relay, PayloadOf(w.record.value.pending.value.update))
    ensures Carries(stored, w.issued[0]) && stored.version == 1 && w.record.value.pending.value.update == w.issued[0]
    ensures SameEvent(stored, PayloadOf(w.record.value.pending.value.update))
  {
    if w.relay.Some? {
      NewestCarriesLast(w.issued, w.relay.value);
      var i :| 0 <= i < |w.issued| && Carries(w.relay.value, w.issued[i]);
    }
  }

  /** The first publish of a new relationship needs one request. It activates the record at version 1 with the snapshot
      the relationship was created with, even when an earlier attempt had reached the relay and only its reply was lost. */
  lemma CreationActivates(w: World, exported: Export, useListing: bool, event: EventId, now: int)
    returns (w1: World, w2: World, after: World)
    requires Inv(w) && w.record.Some? && w.record.value.mode == AwaitingCreation && w.point == Idle
    requires Due(w.record.value.pending.value, now)
    ensures w1 == Step(w, Begin(exported, true, useListing, now)) && w2 == Step(w1, Deliver(w.attempts + 1))
    ensures w2.relay.Some? && after == Step(w2, TakesReply(w2.relay.value, event, now))
    ensures after.point == Idle && after.relay == w2.relay && Carries(w2.relay.value, w.issued[0])
    ensures after.record == Some(Record(Active, 1, Some(w.issued[0].fingerprint), None))
  {
    var stored := if w.relay.Some? then w.relay.value else Store(w.relay, PayloadOf(w.record.value.pending.value.update));
    OnlyUpdateIsStored(w, stored);
    CreationAsks(w, exported, useListing, now);
    w1 := TakeStep(w, Begin(exported, true, useListing, now));
    CreationIsAnswered(w1);
    w2 := TakeStep(w1, Deliver(w.attempts + 1));
    CreationIsTaken(w2, w2.relay.value, event, now);
    after := TakeStep(w2, TakesReply(w2.relay.value, event, now));
  }
}
