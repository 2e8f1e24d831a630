/** Versioned credential snapshots published by a primary device
    (src/sharing/accountSharingService.ts, publishCredentialSyncRecordLocked and its helpers).
    One synchronisation relationship is modelled, so its identifier is implicit. Envelopes are
    opaque records; the SHA-256 fingerprint is the multiset of credentials it digests. */
module CredentialSync {
  import opened Wrappers

  type EventId = nat

  /** `accountId` is the one that goes with the tokens: their own, or the account's when they name none. */
  datatype Credential = Credential(id: string, idToken: string, accessToken: string,
                                   refreshToken: Option<string>, accountId: Option<string>)
  type Export = seq<Credential>
  type Fingerprint = multiset<Credential>

  function FingerprintOf(exported: Export): Fingerprint {
    multiset(exported)
  }

  function WithoutRefreshToken(credential: Credential): Credential {
    credential.(refreshToken := None)
  }

  /** The same credential, except that it cannot be refreshed. */
  predicate HeldAs(held: Credential, credential: Credential) {
    && held.id == credential.id && held.accountId == credential.accountId
    && held.idToken == credential.idToken && held.accessToken == credential.accessToken && held.refreshToken == None
  }

  function Stripped(exported: Export): (r: Export)
    ensures |r| == |exported| && forall i :: 0 <= i < |r| ==> HeldAs(r[i], exported[i])
  {
    seq(|exported|, i requires 0 <= i < |exported| => WithoutRefreshToken(exported[i]))
  }

  /** What one `version` and `eventId` name: the accounts in the envelope, and the fingerprint
      of the exported they were taken from. The fingerprint never leaves the primary. */
  datatype Update = Update(version: nat, eventId: EventId, accounts: Export, fingerprint: Fingerprint)

  datatype PendingUpdate = PendingUpdate(initial: bool, update: Update, attempts: nat, nextAttemptAt: Option<int>)

  datatype Mode = AwaitingCreation | Active

  datatype Record = Record(mode: Mode, version: nat, fingerprint: Option<Fingerprint>, pending: Option<PendingUpdate>)

  /** The latest-state record kept by the relay. */
  datatype RelayRecord = RelayRecord(version: nat, eventId: EventId, accounts: Export, stopped: bool, acknowledged: nat)

  /** What the primary does next once the code between two awaits has run. */
  datatype Move = Finish | Throw | SendCreate(pending: PendingUpdate) | Fetch | SendPut(pending: PendingUpdate)

  const RETRY_MAX_MS := 300_000

  function Max(a: nat, b: nat): nat {
    if a >= b then a else b
  }

  predicate Waiting(pending: PendingUpdate, now: int) {
    pending.nextAttemptAt.Some? && pending.nextAttemptAt.value > now
  }

  predicate Carries(remote: RelayRecord, update: Update) {
    remote.version == update.version && remote.eventId == update.eventId && remote.accounts == update.accounts
  }

  function InitialRecord(exported: Export, event: EventId): Record {
    Record(AwaitingCreation, 0, None,
           Some(PendingUpdate(true, Update(1, event, Stripped(exported), FingerprintOf(exported)), 0, None)))
  }

  // ---- The code between two awaits, as functions of the record ----

  function BeginPublish(r: Record, exported: Export, complete: bool, listing: Option<RelayRecord>, now: int): (Record, Move) {
    if !complete then (r, Throw)
    else if r.mode == AwaitingCreation then
      if r.pending == None || !r.pending.value.initial then (r, Throw)
      else if Waiting(r.pending.value, now) then (r, Finish)
      else (r, SendCreate(r.pending.value))
    else if listing.Some? && !listing.value.stopped && r.pending == None
            && r.fingerprint == Some(FingerprintOf(exported)) && listing.value.version >= r.version then
      (r.(version := listing.value.version), Finish)
    else (r, Fetch)
  }

  function Created(r: Record, pending: PendingUpdate, created: RelayRecord): Record {
    Record(Active, created.version, Some(pending.update.fingerprint), None)
  }

  /** The relay reports the very event that is pending here. */
  predicate Matches(r: Record, remote: RelayRecord) {
    r.pending.Some? && r.pending.value.update.version == remote.version && r.pending.value.update.eventId == remote.eventId
  }

  /** Reconcile with the record the relay reports before deciding whether to publish. */
  function Adopt(r: Record, remote: RelayRecord): Record {
    if Matches(r, remote) then
      r.(version := remote.version, fingerprint := Some(r.pending.value.update.fingerprint), pending := None)
    else if remote.version > r.version then
      r.(version := remote.version,
         pending := if r.pending.Some? && r.pending.value.update.version <= remote.version then None else r.pending)
    else r
  }

  predicate NeedsUpdate(r: Record, fingerprint: Fingerprint) {
    if r.pending.Some? then r.pending.value.update.fingerprint != fingerprint
    else r.fingerprint != Some(fingerprint)
  }

  function NextVersion(r: Record, remote: RelayRecord): nat {
    Max(r.version, if r.pending.Some? then r.pending.value.update.version else remote.version) + 1
  }

  function NewPending(exported: Export, event: EventId, version: nat): PendingUpdate {
    PendingUpdate(false, Update(version, event, Stripped(exported), FingerprintOf(exported)), 0, None)
  }

  /** `saves` local saves succeed before one fails: the first comes after adopting the pending event, the next after
      naming an update. */
  function AfterFetch(r: Record, remote: RelayRecord, exported: Export, event: EventId, trusted: bool, now: int, saves: nat)
    : (Option<Record>, Move)
  {
    if remote.stopped then (None, Finish)
    else
      var adopted, first := Adopt(r, remote), if Matches(r, remote) then 1 else 0;
      var needed := NeedsUpdate(adopted, FingerprintOf(exported));
      if saves < first || (needed && !trusted) then (Some(adopted), Throw)
      else
        var next := if needed then adopted.(pending := Some(NewPending(exported, event, NextVersion(adopted, remote)))) else adopted;
        if needed && saves == first then (Some(next), Throw)
        else if next.pending == None || Waiting(next.pending.value, now) then (Some(next), Finish)
        else (Some(next), SendPut(next.pending.value))
  }

  function Updated(r: Record, pending: PendingUpdate, updated: RelayRecord): Record {
    r.(version := updated.version, fingerprint := Some(pending.update.fingerprint), pending := None)
  }

  function Rescheduled(r: Record, pending: PendingUpdate, retryAt: int): Record {
    r.(pending := Some(pending.(attempts := pending.attempts + 1, nextAttemptAt := Some(retryAt))))
  }

  function Power2(n: nat): nat {
    if n == 0 then 1 else 2 * Power2(n - 1)
  }

  function Backoff(attempts: nat): nat {
    var wait := 1_000 * Power2(if attempts <= 8 then attempts else 8);
    if wait <= RETRY_MAX_MS then wait else RETRY_MAX_MS
  }

  lemma Power2Bound(n: nat)
    ensures 1 <= Power2(n)
    ensures n <= 8 ==> Power2(n) <= 256
    ensures n == 8 ==> Power2(n) == 256
  {
    if n > 0 {
      Power2Bound(n - 1);
    }
    assert Power2(0) == 1 && Power2(2) == 4;
    assert Power2(4) == 16 && Power2(6) == 64;
    assert Power2(8) == 256;
    assert Power2(1) == 2 && Power2(3) == 8;
    assert Power2(5) == 32 && Power2(7) == 128;
  }

  /** Retries back off for at least a second and never reach the configured five-minute cap:
      the exponent is cut at 8 first. */
  lemma BackoffBounds(attempts: nat)
    ensures 1_000 <= Backoff(attempts) <= 256_000 < RETRY_MAX_MS
    ensures attempts >= 8 ==> Backoff(attempts) == 256_000
  {
    Power2Bound(if attempts <= 8 then attempts else 8);
  }

  /** The wait doubles with every attempt, up to the eighth. */
  lemma BackoffDoubles(attempts: nat)
    ensures Backoff(0) == 1_000
    ensures Backoff(attempts + 1) == if attempts < 8 then 2 * Backoff(attempts) else Backoff(attempts)
  {
    Power2Bound(if attempts <= 8 then attempts else 8);
    Power2Bound(if attempts + 1 <= 8 then attempts + 1 else 8);
  }

  lemma JitterRange(backoff: nat, random: real, scaled: real, delay: int)
    requires 0 < backoff && 0.0 <= random < 1.0
    requires scaled == (backoff as real) * (0.8 + random * 0.4) && delay == scaled.Floor
    ensures 8 * backoff - 10 < 10 * delay < 12 * backoff
  {
    var b := backoff as real;
    var portion := b * random;
    assert 0.0 <= portion < b;
    assert scaled == b * 0.8 + portion * 0.4;
    assert scaled - 1.0 < delay as real <= scaled;
    assert 8.0 * b - 10.0 < 10.0 * (delay as real) < 12.0 * b;
    assert 10.0 * (delay as real) == (10 * delay) as real && 8.0 * b == (8 * backoff) as real && 12.0 * b == (12 * backoff) as real;
  }

  /** The record object itself, updated in place. `present` turns false when the relationship is
      cleared locally. */
  class Primary {
    var present: bool
    var mode: Mode
    var version: nat
    var credentialFingerprint: Option<Fingerprint>
    var pendingUpdate: Option<PendingUpdate>

    ghost function Value(): Record
      reads this
    {
      Record(mode, version, credentialFingerprint, pendingUpdate)
    }

    constructor (exported: Export, event: EventId)
      ensures present && Value() == InitialRecord(exported, event)
    {
      present := true;
      mode := AwaitingCreation;
      version := 0;
      credentialFingerprint := None;
      pendingUpdate := Some(PendingUpdate(true, Update(1, event, Stripped(exported), FingerprintOf(exported)), 0, None));
    }

    method Begin(exported: Export, complete: bool, listing: Option<RelayRecord>, now: int) returns (move: Move)
      modifies this
      ensures (Value(), move) == BeginPublish(old(Value()), exported, complete, listing, now)
      ensures !complete ==> move == Throw && Value() == old(Value())
      ensures move == Finish && mode == Active ==>
                && pendingUpdate == None && credentialFingerprint == Some(multiset(exported))
                && listing.Some? && !listing.value.stopped && listing.value.version == version >= old(version)
      ensures present == old(present)
    {
      if !complete {
        return Throw;
      }
      if mode == AwaitingCreation {
        if pendingUpdate == None || !pendingUpdate.value.initial {
          return Throw;
        }
        if Waiting(pendingUpdate.value, now) {
          return Finish;
        }
        return SendCreate(pendingUpdate.value);
      }
      if listing.Some? && !listing.value.stopped && pendingUpdate == None
         && credentialFingerprint == Some(FingerprintOf(exported)) && listing.value.version >= version
      {
        if listing.value.version != version {
          version := listing.value.version;
        }
        return Finish;
      }
      return Fetch;
    }

    method OnCreated(pending: PendingUpdate, created: RelayRecord)
      modifies this
      ensures Value() == Created(old(Value()), pending, created) && present == old(present)
    {
      mode := Active;
      version := created.version;
      credentialFingerprint := Some(pending.update.fingerprint);
      pendingUpdate := None;
    }

    method OnFetched(remote: RelayRecord, exported: Export, event: EventId, trusted: bool, now: int, saves: nat)
      returns (move: Move)
      requires present
      modifies this
      ensures var (after, expected) := AfterFetch(old(Value()), remote, exported, event, trusted, now, saves);
              move == expected && present == after.Some? && (after.Some? ==> Value() == after.value)
      ensures present <==> !remote.stopped
      ensures present && move == Finish && pendingUpdate == None ==> credentialFingerprint == Some(multiset(exported))
      ensures move.SendPut? ==> pendingUpdate == Some(move.pending) && move.pending.update.fingerprint == multiset(exported)
    {
      if remote.stopped {
        present := false;
        return Finish;
      }
      var pending, left := pendingUpdate, saves;
      if pending.Some? && pending.value.update.version == remote.version && pending.value.update.eventId == remote.eventId {
        version := remote.version;
        credentialFingerprint := Some(pending.value.update.fingerprint);
        pendingUpdate := None;
        pending := None;
        if left == 0 {
          return Throw;
        }
        left := left - 1;
      } else if remote.version > version {
        version := remote.version;
        if pending.Some? && pending.value.update.version <= remote.version {
          pendingUpdate := None;
          pending := None;
        }
      }
      var fingerprint := FingerprintOf(exported);
      if pending.Some? && pending.value.update.fingerprint != fingerprint {
        if !trusted {
          return Throw;
        }
        pending := Some(NewPending(exported, event, Max(version, pending.value.update.version) + 1));
        pendingUpdate := pending;
        if left == 0 {
          return Throw;
        }
      } else if pending == None && credentialFingerprint != Some(fingerprint) {
        if !trusted {
          return Throw;
        }
        pending := Some(NewPending(exported, event, Max(version, remote.version) + 1));
        pendingUpdate := pending;
        if left == 0 {
          return Throw;
        }
      }
      if pending == None || Waiting(pending.value, now) {
        return Finish;
      }
      return SendPut(pending.value);
    }

    method OnUpdated(pending: PendingUpdate, updated: RelayRecord)
      modifies this
      ensures Value() == Updated(old(Value()), pending, updated) && present == old(present)
    {
      version := updated.version;
      credentialFingerprint := Some(pending.update.fingerprint);
      pendingUpdate := None;
    }

    /** `random` is the source's Math.random(). */
    method ScheduleRetry(pending: PendingUpdate, now: int, random: real)
      requires 0.0 <= random < 1.0
      modifies this
      ensures pendingUpdate.Some? && pendingUpdate.value.nextAttemptAt.Some?
      ensures Value() == Rescheduled(old(Value()), pending, pendingUpdate.value.nextAttemptAt.value)
      ensures pendingUpdate.value.update == pending.update && pendingUpdate.value.initial == pending.initial
      ensures pendingUpdate.value.attempts == pending.attempts + 1
      ensures 8 * Backoff(pending.attempts + 1) - 10 < 10 * (pendingUpdate.value.nextAttemptAt.value - now) < 12 * Backoff(pending.attempts + 1)
      ensures mode == old(mode) && version == old(version) && credentialFingerprint == old(credentialFingerprint)
      ensures present == old(present)
    {
      var attempts := pending.attempts + 1;
      var backoff := Backoff(attempts);
      BackoffBounds(attempts);
      var scaled := (backoff as real) * (0.8 + random * 0.4);
      var delay := scaled.Floor;
      JitterRange(backoff, random, scaled, delay);
      var retryAt := now + delay;
      pendingUpdate := Some(pending.(attempts := attempts, nextAttemptAt := Some(retryAt)));
    }
  }
}
