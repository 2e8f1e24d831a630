/** The owner's side of a sharing lease (src/sharing/accountSharingService.ts, shareAccounts,
    finalizeOutgoingAccounts and restoreOwnerAccountState), over the visibility and pool operations of
    src/storage/accounts.ts. The network call of a share is a step boundary. */
module OwnerLease {
  import opened AccountIds
  import opened Wrappers

  type LeaseId = nat

  const MAX_SHARED_ACCOUNTS := 50

  datatype Flags = Flags(hidden: bool, pool: bool)

  /** `marker` is the lease an account is shared under; `virtual` accounts have no credentials to share. */
  datatype Account = Account(virtual: bool, flags: Flags, marker: Option<LeaseId>)

  datatype LeaseState = Shared | Returned | Failed

  datatype Lease = Lease(accountIds: set<Id>, captured: map<Id, Flags>, acks: set<Id>, state: LeaseState)

  /** A share whose transfer request has not been answered. The flags are captured when the accounts are read, and the
      accounts are withdrawn from the pool in a later step. */
  datatype Pending = Pending(lease: LeaseId, ids: seq<Id>, captured: map<Id, Flags>, withdrawn: bool)

  /** The accounts for which an operation of a return fails. */
  datatype Faults = Faults(notRead: set<Id>, notHidden: set<Id>, notShown: set<Id>, notPooled: set<Id>)

  const NoFaults := Faults({}, {}, {}, {})

  datatype World = World(accounts: map<Id, Account>, leases: map<LeaseId, Lease>, pending: Option<Pending>)

  // ---- Account operations ----

  function Hide(a: Account): Account {
    if a.virtual then a else a.(flags := Flags(true, false))
  }

  /** An account that is visible and in the pool already is left as it is, even while it is shared. */
  function Unhide(a: Account): Account {
    if a.virtual || (!a.flags.hidden && a.flags.pool) then a else a.(flags := Flags(false, a.marker == None))
  }

  /** Membership is refused while the account is shared. */
  function SetPool(a: Account, enabled: bool): Account {
    if enabled && a.marker.Some? then a
    else a.(flags := a.flags.(pool := enabled && !a.flags.hidden && !a.virtual))
  }

  function LeavePool(a: Account): Account {
    a.(flags := a.flags.(pool := false))
  }

  /** Operations on a selection apply to all of it, or fail when an account is missing. */
  function OnAll(accounts: map<Id, Account>, ids: set<Id>, f: Account -> Account): map<Id, Account> {
    if ids <= accounts.Keys then map id | id in accounts :: if id in ids then f(accounts[id]) else accounts[id]
    else accounts
  }

  function Eligible(a: Account): bool {
    !a.flags.hidden && !a.virtual && a.marker == None
  }

  /** Replacing the whole pool needs at least two accounts that may join it. */
  function ReplacePool(accounts: map<Id, Account>, ids: set<Id>): map<Id, Account> {
    if !(ids <= accounts.Keys) || |set id | id in ids && id in accounts && Eligible(accounts[id])| < 2 then accounts
    else
      map id | id in accounts ::
        accounts[id].(flags := accounts[id].flags.(pool := id in ids && Eligible(accounts[id])))
  }

  // ---- Restoring what was captured ----

  /** Hiding, showing and pooling may each fail, and then the other steps go on. */
  function Restored(a: Account, captured: Option<Flags>, id: Id, faults: Faults): Account {
    var unmarked := a.(marker := None);
    if captured == None then unmarked
    else if captured.value.hidden then if id in faults.notHidden then unmarked else Hide(unmarked)
    else
      var shown := if id in faults.notShown then unmarked else Unhide(unmarked);
      if id in faults.notPooled then shown else SetPool(shown, captured.value.pool)
  }

  function CapturedOf(lease: Lease, id: Id): Option<Flags> {
    if id in lease.captured then Some(lease.captured[id]) else None
  }

  /** Every account a lease ever named. */
  function KnownIds(lease: Lease): set<Id> {
    lease.accountIds + lease.captured.Keys + lease.acks
  }

  function Targets(lease: Lease, returned: set<Id>): set<Id> {
    if returned == {} then KnownIds(lease) else KnownIds(lease) * returned
  }

  predicate HeldBy(accounts: map<Id, Account>, id: Id, l: LeaseId) {
    id in accounts && accounts[id].marker == Some(l)
  }

  /** A target is crossed off when it is gone, carries this lease's marker, or cannot be read. */
  predicate Finalizes(accounts: map<Id, Account>, id: Id, l: LeaseId, faults: Faults) {
    id !in accounts || id in faults.notRead || accounts[id].marker == Some(l)
  }

  function FinalizedAccounts(accounts: map<Id, Account>, targets: set<Id>, l: LeaseId, lease: Lease, faults: Faults)
    : map<Id, Account>
  {
    map id | id in accounts ::
      if id in targets && id !in faults.notRead && accounts[id].marker == Some(l)
      then Restored(accounts[id], CapturedOf(lease, id), id, faults) else accounts[id]
  }

  function CrossedOff(accounts: map<Id, Account>, targets: set<Id>, l: LeaseId, faults: Faults): set<Id> {
    set id | id in targets && Finalizes(accounts, id, l, faults)
  }

  lemma CrossOffOne(accounts: map<Id, Account>, done: set<Id>, l: LeaseId, faults: Faults, id: Id)
    ensures CrossedOff(accounts, done + {id}, l, faults)
         == CrossedOff(accounts, done, l, faults) + if Finalizes(accounts, id, l, faults) then {id} else {}
  {
  }

  function Outstanding(accounts: map<Id, Account>, targets: set<Id>, l: LeaseId, lease: Lease, faults: Faults): set<Id> {
    set id | id in lease.accountIds && !(id in targets && Finalizes(accounts, id, l, faults))
  }

  function FinalizedLease(accounts: map<Id, Account>, targets: set<Id>, l: LeaseId, lease: Lease, faults: Faults, failed: bool)
    : Lease
  {
    var left := Outstanding(accounts, targets, l, lease, faults);
    lease.(accountIds := left, state := if failed then Failed else if left == {} then Returned else Shared)
  }

  /** The accounts of a lease, or those returned, are restored as far as the faults let them. */
  function Finalize(w: World, l: LeaseId, returned: set<Id>, faults: Faults, failed: bool): World {
    if l !in w.leases then w
    else
      var lease := w.leases[l];
      var targets := Targets(lease, returned);
      w.(accounts := FinalizedAccounts(w.accounts, targets, l, lease, faults),
         leases := w.leases[l := FinalizedLease(w.accounts, targets, l, lease, faults, failed)])
  }

  // ---- Sharing ----

  function IdSet(ids: seq<Id>): set<Id> {
    set id <- ids
  }

  predicate Distinct(ids: seq<Id>) {
    forall i, j :: 0 <= i < j < |ids| ==> ids[i] != ids[j]
  }

  predicate CanShare(w: World, l: LeaseId, ids: seq<Id>) {
    && w.pending == None && l !in w.leases
    && 0 < |ids| <= MAX_SHARED_ACCOUNTS && Distinct(ids)
    && forall id <- ids :: id in w.accounts && !w.accounts[id].virtual && w.accounts[id].marker == None
  }

  /** What else a share depends on: a trusted peer, accounts in credential synchronisation, and active accounts
      without a safe local replacement. */
  datatype Setting = Setting(trusted: bool, synced: set<Id>, stuck: set<Id>)

  predicate Permits(setting: Setting, ids: seq<Id>) {
    setting.trusted && forall id <- ids :: id !in setting.synced && id !in setting.stuck
  }

  function BeginShare(w: World, l: LeaseId, ids: seq<Id>): World {
    if !CanShare(w, l, ids) then w
    else
      var captured := map id | id in IdSet(ids) && id in w.accounts :: w.accounts[id].flags;
      w.(pending := Some(Pending(l, ids, captured, false)))
  }

  /** All the accounts leave the pool, or the share ends when one was removed meanwhile. */
  function Withdraw(w: World): World {
    if w.pending == None || w.pending.value.withdrawn then w
    else if IdSet(w.pending.value.ids) <= w.accounts.Keys then
      w.(accounts := OnAll(w.accounts, IdSet(w.pending.value.ids), LeavePool), pending := Some(w.pending.value.(withdrawn := true)))
    else w.(pending := None)
  }

  predicate InTransfer(w: World) {
    w.pending.Some? && w.pending.value.withdrawn
  }

  /** Marking stops with an error at an account that was removed meanwhile. */
  function MarkAll(accounts: map<Id, Account>, ids: seq<Id>, l: LeaseId): map<Id, Account> {
    if ids == [] || ids[0] !in accounts then accounts
    else MarkAll(accounts[ids[0] := accounts[ids[0]].(marker := Some(l))], ids[1..], l)
  }

  function AcceptShare(w: World): World {
    if !InTransfer(w) then w
    else
      var p := w.pending.value;
      var marked := MarkAll(w.accounts, p.ids, p.lease);
      var hidden := if IdSet(p.ids) <= w.accounts.Keys then OnAll(marked, IdSet(p.ids), Hide) else marked;
      World(hidden, w.leases[p.lease := Lease(IdSet(p.ids), p.captured, {}, Shared)], None)
  }

  /** A failed transfer restores pool membership only: nothing else was changed. */
  function RejectShare(w: World): World {
    if !InTransfer(w) then w
    else
      var captured := w.pending.value.captured;
      w.(pending := None,
         accounts := map id | id in w.accounts ::
           if id in captured then SetPool(w.accounts[id], captured[id].pool) else w.accounts[id])
  }

  // ---- Events ----

  datatype Event =
    | Begin(lease: LeaseId, ids: seq<Id>, setting: Setting)
    | Withdrawn
    | Accepted
    | Rejected
    | Return(lease: LeaseId, returned: set<Id>, faults: Faults)
    | Confirm(lease: LeaseId, confirmed: set<Id>)
    | Cancelled(lease: LeaseId, faults: Faults)
    | TransferFailed(lease: LeaseId, withEnvelopes: bool, faults: Faults)
    | OwnerHides(targets: set<Id>)
    | OwnerUnhides(targets: set<Id>)
    | OwnerSetsPool(id: Id, enabled: bool)
    | OwnerReplacesPool(targets: set<Id>)
    | OwnerRemoves(id: Id)
    | OwnerAdds(id: Id, account: Account)

  /** Returned accounts are finalised and remembered for confirmation to the relay. */
  function ReturnSome(w: World, l: LeaseId, returned: set<Id>, faults: Faults): World {
    if l !in w.leases || returned == {} || !(returned <= KnownIds(w.leases[l])) then w
    else
      var done := Finalize(w, l, returned, faults, false);
      done.(leases := done.leases[l := done.leases[l].(acks := done.leases[l].acks + returned)])
  }

  function FailTransfer(w: World, l: LeaseId, withEnvelopes: bool, faults: Faults): World {
    if l !in w.leases then w
    else
      var done := if withEnvelopes then w else Finalize(w, l, {}, faults, false);
      done.(leases := done.leases[l := done.leases[l].(state := Failed)])
  }

  /** A new account carries no marker, is not both hidden and pooled, and is in the pool only if it has credentials. */
  predicate Sane(a: Account) {
    !(a.flags.hidden && a.flags.pool) && (a.virtual ==> !a.flags.pool)
  }

  function Step(w: World, e: Event): World {
    match e
    case Begin(l, ids, setting) => if Permits(setting, ids) then BeginShare(w, l, ids) else w
    case Withdrawn => Withdraw(w)
    case Accepted => AcceptShare(w)
    case Rejected => RejectShare(w)
    case Return(l, returned, faults) => ReturnSome(w, l, returned, faults)
    case Confirm(l, confirmed) =>
      if l !in w.leases then w
      else w.(leases := w.leases[l := w.leases[l].(acks := w.leases[l].acks - confirmed)])
    case Cancelled(l, faults) => Finalize(w, l, {}, faults, true)
    case TransferFailed(l, withEnvelopes, faults) => FailTransfer(w, l, withEnvelopes, faults)
    case OwnerHides(targets) => w.(accounts := OnAll(w.accounts, targets, Hide))
    case OwnerUnhides(targets) => w.(accounts := OnAll(w.accounts, targets, Unhide))
    case OwnerSetsPool(id, enabled) =>
      if id in w.accounts then w.(accounts := w.accounts[id := SetPool(w.accounts[id], enabled)]) else w
    case OwnerReplacesPool(targets) => w.(accounts := ReplacePool(w.accounts, targets))
    case OwnerRemoves(id) => w.(accounts := w.accounts - {id})
    case OwnerAdds(id, account) =>
      if id !in w.accounts && account.marker == None && Sane(account) && account.virtual == VirtualId(id)
      then w.(accounts := w.accounts[id := account]) else w
  }

  function Run(w: World, events: seq<Event>): World {
    if events == [] then w else Step(Run(w, events[..|events| - 1]), events[|events| - 1])
  }

  // ---- When a restore gives back exactly what was captured ----

  /** What the failing steps leave is what was captured. */
  predicate GivesBack(a: Account, captured: Flags, id: Id, faults: Faults) {
    if captured.hidden then id !in faults.notHidden || a.flags == captured
    else if id in faults.notShown && id in faults.notPooled then a.flags == captured
    else if id in faults.notShown then !a.flags.hidden
    else id in faults.notPooled ==> captured.pool
  }

  lemma RestoresExactlyWhen(a: Account, captured: Flags, id: Id, faults: Faults)
    requires Sane(a) && !a.virtual
    ensures Restored(a, Some(captured), id, faults).marker == None
    ensures Restored(a, Some(captured), id, faults).flags == captured
       <==> !(captured.hidden && captured.pool) && GivesBack(a, captured, id, faults)
  {
  }

  // ---- Invariant ----

  ghost predicate SaneFlags(captured: map<Id, Flags>) {
    forall id | id in captured :: !(captured[id].hidden && captured[id].pool)
  }

  ghost predicate LeaseOk(lease: Lease) {
    && SaneFlags(lease.captured)
    && lease.accountIds <= lease.captured.Keys && lease.acks <= lease.captured.Keys
    && (lease.state == Returned ==> lease.accountIds == {})
    && (lease.state == Shared ==> lease.accountIds != {})
  }

  /** A marked account has captured flags in its lease. */
  ghost predicate AccountOk(a: Account, id: Id, leases: map<LeaseId, Lease>) {
    && Sane(a) && a.virtual == VirtualId(id)
    && (a.marker.Some? ==>
          !a.virtual && a.marker.value in leases && id in leases[a.marker.value].captured)
  }

  ghost predicate AccountsOk(accounts: map<Id, Account>, leases: map<LeaseId, Lease>) {
    forall id | id in accounts :: AccountOk(accounts[id], id, leases)
  }

  ghost predicate LeasesOk(leases: map<LeaseId, Lease>) {
    forall l | l in leases :: LeaseOk(leases[l])
  }

  ghost predicate PendingOk(p: Pending, accounts: map<Id, Account>, leases: map<LeaseId, Lease>) {
    && p.lease !in leases && p.ids != []
    && p.captured.Keys == IdSet(p.ids) && SaneFlags(p.captured)
    && forall id <- p.ids :: !VirtualId(id) && (id in accounts ==> accounts[id].marker == None)
  }

  ghost predicate Inv(w: World) {
    && AccountsOk(w.accounts, w.leases)
    && LeasesOk(w.leases)
    && (w.pending.Some? ==> PendingOk(w.pending.value, w.accounts, w.leases))
  }

  /** Changing flags only, sanely, keeps the invariant. */
  ghost predicate FlagsChange(before: map<Id, Account>, after: map<Id, Account>) {
    forall id | id in after ::
      id in before && after[id] == before[id].(flags := after[id].flags) && (Sane(before[id]) ==> Sane(after[id]))
  }

  lemma FlagsChangeKeepsInv(w: World, accounts: map<Id, Account>)
    requires Inv(w) && FlagsChange(w.accounts, accounts)
    ensures Inv(w.(accounts := accounts))
  {
    forall id | id in accounts
      ensures AccountOk(accounts[id], id, w.leases)
    {
      assert AccountOk(w.accounts[id], id, w.leases);
    }
  }

  lemma BeginKeepsInv(w: World, l: LeaseId, ids: seq<Id>)
    requires Inv(w)
    ensures Inv(BeginShare(w, l, ids))
  {
    if CanShare(w, l, ids) {
      var p := BeginShare(w, l, ids).pending.value;
      assert IdSet(ids) <= w.accounts.Keys;
      forall id | id in p.captured
        ensures !(p.captured[id].hidden && p.captured[id].pool) && !VirtualId(id)
      {
        assert AccountOk(w.accounts[id], id, w.leases);
      }
    }
  }

  lemma WithdrawKeepsInv(w: World)
    requires Inv(w)
    ensures Inv(Withdraw(w))
  {
    FlagsChangeKeepsInv(w, Withdraw(w).accounts);
  }

  lemma {:induction false} MarkAllMarks(accounts: map<Id, Account>, ids: seq<Id>, l: LeaseId)
    ensures MarkAll(accounts, ids, l).Keys == accounts.Keys
    ensures forall id | id in accounts ::
              var after := MarkAll(accounts, ids, l)[id];
              after == accounts[id] || (id in ids && after == accounts[id].(marker := Some(l)))
    ensures IdSet(ids) <= accounts.Keys ==>
              forall id | id in accounts && id in ids :: MarkAll(accounts, ids, l)[id] == accounts[id].(marker := Some(l))
  {
    if ids == [] || ids[0] !in accounts {
      assert ids != [] ==> ids[0] in IdSet(ids);
    } else {
      var marked := accounts[ids[0] := accounts[ids[0]].(marker := Some(l))];
      MarkAllMarks(marked, ids[1..], l);
      assert ids == [ids[0]] + ids[1..];
      assert IdSet(ids[1..]) <= IdSet(ids);
    }
  }

  lemma AcceptKeepsInv(w: World)
    requires Inv(w)
    ensures Inv(AcceptShare(w))
  {
    if InTransfer(w) {
      var p, after := w.pending.value, AcceptShare(w);
      MarkAllMarks(w.accounts, p.ids, p.lease);
      assert p.ids[0] in IdSet(p.ids);
      forall id | id in after.accounts
        ensures AccountOk(after.accounts[id], id, after.leases)
      {
        assert AccountOk(w.accounts[id], id, w.leases);
        if id in p.ids {
          assert id in IdSet(p.ids);
        }
      }
    }
  }

  lemma RejectKeepsInv(w: World)
    requires Inv(w)
    ensures Inv(RejectShare(w))
  {
    if InTransfer(w) {
      FlagsChangeKeepsInv(w.(pending := None), RejectShare(w).accounts);
    }
  }

  lemma FinalizeKeepsInv(w: World, l: LeaseId, returned: set<Id>, faults: Faults, failed: bool)
    requires Inv(w)
    ensures Inv(Finalize(w, l, returned, faults, failed))
  {
    if l in w.leases {
      var lease := w.leases[l];
      var targets := Targets(lease, returned);
      var after := Finalize(w, l, returned, faults, failed);
      assert LeaseOk(lease);
      forall id | id in after.accounts
        ensures AccountOk(after.accounts[id], id, after.leases)
      {
        assert AccountOk(w.accounts[id], id, w.leases);
        RestoredIsSane(w.accounts[id], CapturedOf(lease, id), id, faults);
        assert after.accounts[id].marker in {w.accounts[id].marker, None};
      }
      FinalizedLeaseIsOk(w.accounts, targets, l, lease, faults, failed);
      if w.pending.Some? {
        FinalizeKeepsPending(w, w.pending.value, targets, l, faults);
      }
    }
  }

  lemma RestoredIsSane(a: Account, captured: Option<Flags>, id: Id, faults: Faults)
    requires Sane(a)
    ensures var r := Restored(a, captured, id, faults);
            Sane(r) && r.virtual == a.virtual && r.marker == None
  {
  }

  /** Finalising changes an account only by removing its marker. */
  lemma FinalizedMarker(accounts: map<Id, Account>, targets: set<Id>, l: LeaseId, lease: Lease, faults: Faults, id: Id)
    requires id in accounts
    ensures var a := FinalizedAccounts(accounts, targets, l, lease, faults)[id];
            if id in targets && id !in faults.notRead && HeldBy(accounts, id, l) then a.marker == None else a == accounts[id]
  {
  }

  lemma FinalizedLeaseIsOk(accounts: map<Id, Account>, targets: set<Id>, l: LeaseId, lease: Lease, faults: Faults, failed: bool)
    requires LeaseOk(lease)
    ensures LeaseOk(FinalizedLease(accounts, targets, l, lease, faults, failed))
  {
  }

  lemma FinalizeKeepsPending(w: World, p: Pending, targets: set<Id>, l: LeaseId, faults: Faults)
    requires l in w.leases && PendingOk(p, w.accounts, w.leases)
    ensures forall id <- p.ids :: id in w.accounts ==>
              FinalizedAccounts(w.accounts, targets, l, w.leases[l], faults)[id].marker == None
  {
  }

  /** Replacing a lease by one that keeps its outstanding accounts and captured flags keeps the invariant. */
  lemma LeaseChangeKeepsInv(w: World, l: LeaseId, lease: Lease)
    requires Inv(w) && l in w.leases && LeaseOk(lease)
    requires lease.accountIds == w.leases[l].accountIds && lease.captured == w.leases[l].captured
    ensures Inv(w.(leases := w.leases[l := lease]))
  {
    forall id | id in w.accounts
      ensures AccountOk(w.accounts[id], id, w.leases[l := lease])
    {
      assert AccountOk(w.accounts[id], id, w.leases);
    }
  }

  lemma ReturnKeepsInv(w: World, l: LeaseId, returned: set<Id>, faults: Faults)
    requires Inv(w)
    ensures Inv(ReturnSome(w, l, returned, faults))
  {
    if l in w.leases && returned != {} && returned <= KnownIds(w.leases[l]) {
      FinalizeKeepsInv(w, l, returned, faults, false);
      var done := Finalize(w, l, returned, faults, false);
      assert LeaseOk(w.leases[l]);
      assert LeaseOk(done.leases[l]);
      LeaseChangeKeepsInv(done, l, done.leases[l].(acks := done.leases[l].acks + returned));
    }
  }

  lemma FailKeepsInv(w: World, l: LeaseId, withEnvelopes: bool, faults: Faults)
    requires Inv(w)
    ensures Inv(FailTransfer(w, l, withEnvelopes, faults))
  {
    if l in w.leases {
      FinalizeKeepsInv(w, l, {}, faults, false);
      var done := if withEnvelopes then w else Finalize(w, l, {}, faults, false);
      assert LeaseOk(done.leases[l]);
      LeaseChangeKeepsInv(done, l, done.leases[l].(state := Failed));
    }
  }

  lemma StepKeepsInv(w: World, e: Event)
    requires Inv(w)
    ensures Inv(Step(w, e))
  {
    match e
    case Begin(l, ids, _) => BeginKeepsInv(w, l, ids);
    case Withdrawn => WithdrawKeepsInv(w);
    case Accepted => AcceptKeepsInv(w);
    case Rejected => RejectKeepsInv(w);
    case Return(l, returned, faults) => ReturnKeepsInv(w, l, returned, faults);
    case Confirm(l, confirmed) =>
      if l in w.leases {
        assert LeaseOk(w.leases[l]);
        LeaseChangeKeepsInv(w, l, w.leases[l].(acks := w.leases[l].acks - confirmed));
      }
    case Cancelled(l, faults) => FinalizeKeepsInv(w, l, {}, faults, true);
    case TransferFailed(l, withEnvelopes, faults) => FailKeepsInv(w, l, withEnvelopes, faults);
    case OwnerHides(targets) => FlagsChangeKeepsInv(w, OnAll(w.accounts, targets, Hide));
    case OwnerUnhides(targets) => FlagsChangeKeepsInv(w, OnAll(w.accounts, targets, Unhide));
    case OwnerSetsPool(id, enabled) =>
      if id in w.accounts {
        FlagsChangeKeepsInv(w, w.accounts[id := SetPool(w.accounts[id], enabled)]);
      }
    case OwnerReplacesPool(targets) => FlagsChangeKeepsInv(w, ReplacePool(w.accounts, targets));
    case OwnerRemoves(id) => FlagsChangeKeepsInv(w, w.accounts - {id});
    case OwnerAdds(id, account) => AddKeepsInv(w, id, account);
  }

  lemma AddKeepsInv(w: World, id: Id, account: Account)
    requires Inv(w)
    ensures Inv(Step(w, OwnerAdds(id, account)))
  {
    var after := Step(w, OwnerAdds(id, account));
    forall other | other in after.accounts
      ensures AccountOk(after.accounts[other], other, after.leases)
    {
      if other in w.accounts {
        assert AccountOk(w.accounts[other], other, w.leases);
      }
    }
  }

  /** In every run, accounts, leases and a share in progress stay consistent; in particular a lease that has not
      failed is returned exactly when none of its accounts is outstanding. */
  lemma {:induction false} RunKeepsInv(w: World, events: seq<Event>)
    requires Inv(w)
    ensures Inv(Run(w, events))
    ensures forall l | l in Run(w, events).leases && Run(w, events).leases[l].state != Failed ::
              Run(w, events).leases[l].state == Returned <==> Run(w, events).leases[l].accountIds == {}
  {
    if events == [] {
    } else {
      RunKeepsInv(w, events[..|events| - 1]);
      StepKeepsInv(Run(w, events[..|events| - 1]), events[|events| - 1]);
    }
    forall l | l in Run(w, events).leases
      ensures LeaseOk(Run(w, events).leases[l])
    {
    }
  }

  // ---- What was captured is what comes back ----

  /** Where a share that was begun with pending record `p` can be. */
  ghost predicate Remembers(w: World, p: Pending) {
    || (w.pending.Some? && w.pending.value.(withdrawn := p.withdrawn) == p && p.lease !in w.leases)
    || (p.lease in w.leases && w.leases[p.lease].captured == p.captured && (w.pending.Some? ==> w.pending.value.lease != p.lease))
    || (p.lease !in w.leases && (w.pending.Some? ==> w.pending.value.lease != p.lease))
  }

  lemma StepRemembers(w: World, e: Event, p: Pending)
    requires Remembers(w, p)
    requires !(e.Begin? && e.lease == p.lease)
    ensures Remembers(Step(w, e), p)
  {
  }

  predicate NeverBegins(events: seq<Event>, l: LeaseId) {
    forall i | 0 <= i < |events| :: !(events[i].Begin? && events[i].lease == l)
  }

  lemma {:induction false} RunRemembers(w: World, events: seq<Event>, p: Pending)
    requires Remembers(w, p) && NeverBegins(events, p.lease)
    ensures Remembers(Run(w, events), p)
  {
    if events == [] {
    } else {
      RunRemembers(w, events[..|events| - 1], p);
      StepRemembers(Run(w, events[..|events| - 1]), events[|events| - 1], p);
    }
  }

  /** Whatever happens between reading an account for a share and getting it back - its withdrawal, partial returns,
      failed reads, owner actions on visibility and pool, other leases - it ends without a marker exactly when it can be
      read in the end, and then with the flags it was read with exactly when the steps of the restore that fail do not
      matter. An owner's action between the read and the withdrawal is undone as well. */
  lemma EndsAsCaptured(w: World, l: LeaseId, ids: seq<Id>, events: seq<Event>, id: Id, returned: set<Id>, faults: Faults, failed: bool)
    requires Inv(w) && CanShare(w, l, ids) && id in ids && NeverBegins(events, l)
    requires HeldBy(Run(BeginShare(w, l, ids), events).accounts, id, l)
    requires returned == {} || id in returned
    ensures var shared := Run(BeginShare(w, l, ids), events);
            var after := Finalize(shared, l, returned, faults, failed);
            && id in after.accounts && l in after.leases && id !in after.leases[l].accountIds
            && (after.accounts[id].marker == None <==> id !in faults.notRead)
            && (id !in faults.notRead ==>
                  (after.accounts[id].flags == w.accounts[id].flags
                   <==> GivesBack(shared.accounts[id], w.accounts[id].flags, id, faults)))
  {
    var begun := BeginShare(w, l, ids);
    var p := begun.pending.value;
    assert id in IdSet(ids);
    assert p.captured[id] == w.accounts[id].flags;
    BeginKeepsInv(w, l, ids);
    RunKeepsInv(begun, events);
    RunRemembers(begun, events, p);
    var shared := Run(begun, events);
    assert AccountOk(w.accounts[id], id, w.leases);
    assert AccountOk(shared.accounts[id], id, shared.leases);
    RestoresExactlyWhen(shared.accounts[id], p.captured[id], id, faults);
  }

  // ---- No marker outlives its lease, unless a read failed ----

  /** A marked account is outstanding under its lease. */
  ghost predicate NoStray(w: World) {
    forall id | id in w.accounts && w.accounts[id].marker.Some? ::
      w.accounts[id].marker.value in w.leases && id in w.leases[w.accounts[id].marker.value].accountIds
  }

  /** Finalising leaves a stray marker exactly when it cannot read a target that still carries the lease's marker. */
  lemma LeavesStrayExactlyWhen(w: World, l: LeaseId, returned: set<Id>, faults: Faults, failed: bool)
    requires Inv(w) && NoStray(w) && l in w.leases
    ensures NoStray(Finalize(w, l, returned, faults, failed)) <==>
            forall id | id in Targets(w.leases[l], returned) && HeldBy(w.accounts, id, l) :: id !in faults.notRead
  {
    var after := Finalize(w, l, returned, faults, failed);
    if id :| id in Targets(w.leases[l], returned) && HeldBy(w.accounts, id, l) && id in faults.notRead {
      assert after.accounts[id].marker == Some(l) && id !in after.leases[l].accountIds;
    } else {
      forall id | id in after.accounts && after.accounts[id].marker.Some?
        ensures after.accounts[id].marker.value in after.leases
        ensures id in after.leases[after.accounts[id].marker.value].accountIds
      {
        FinalizedMarker(w.accounts, Targets(w.leases[l], returned), l, w.leases[l], faults, id);
        assert w.accounts[id] == after.accounts[id];
      }
    }
  }

  predicate AllRead(e: Event) {
    match e
    case Return(_, _, faults) => faults.notRead == {}
    case Cancelled(_, faults) => faults.notRead == {}
    case TransferFailed(_, _, faults) => faults.notRead == {}
    case _ => true
  }

  lemma AcceptLeavesNoStray(w: World)
    requires Inv(w) && NoStray(w)
    ensures NoStray(AcceptShare(w))
  {
    if InTransfer(w) {
      var p, after := w.pending.value, AcceptShare(w);
      MarkAllMarks(w.accounts, p.ids, p.lease);
      forall id | id in after.accounts && after.accounts[id].marker.Some?
        ensures after.accounts[id].marker.value in after.leases
        ensures id in after.leases[after.accounts[id].marker.value].accountIds
      {
        if id in p.ids {
          assert id in IdSet(p.ids);
        }
      }
    }
  }

  lemma StepLeavesNoStray(w: World, e: Event)
    requires Inv(w) && NoStray(w) && AllRead(e)
    ensures NoStray(Step(w, e))
  {
    match e
    case Accepted => AcceptLeavesNoStray(w);
    case Return(l, returned, faults) =>
      if l in w.leases {
        LeavesStrayExactlyWhen(w, l, returned, faults, false);
      }
    case Cancelled(l, faults) =>
      if l in w.leases {
        LeavesStrayExactlyWhen(w, l, {}, faults, true);
      }
    case TransferFailed(l, _, faults) =>
      if l in w.leases {
        LeavesStrayExactlyWhen(w, l, {}, faults, false);
      }
    case _ =>
  }

  /** In every run whose reads succeed, a marker means that the account is outstanding; so an account of a returned
      lease carries no marker. */
  lemma {:induction false} RunLeavesNoStray(w: World, events: seq<Event>)
    requires Inv(w) && NoStray(w) && forall i | 0 <= i < |events| :: AllRead(events[i])
    ensures NoStray(Run(w, events))
    ensures forall id, l | l in Run(w, events).leases && Run(w, events).leases[l].state == Returned ::
              !HeldBy(Run(w, events).accounts, id, l)
  {
    RunKeepsInv(w, events);
    if events == [] {
    } else {
      RunKeepsInv(w, events[..|events| - 1]);
      RunLeavesNoStray(w, events[..|events| - 1]);
      StepLeavesNoStray(Run(w, events[..|events| - 1]), events[|events| - 1]);
    }
    forall id, l | l in Run(w, events).leases && Run(w, events).leases[l].state == Returned
      ensures !HeldBy(Run(w, events).accounts, id, l)
    {
      assert LeaseOk(Run(w, events).leases[l]);
    }
  }

  /** A share that fails leaves everything as it was. */
  lemma RejectUndoesBegin(w: World, l: LeaseId, ids: seq<Id>)
    requires Inv(w) && CanShare(w, l, ids)
    ensures RejectShare(Withdraw(BeginShare(w, l, ids))) == w
  {
    assert IdSet(ids) <= w.accounts.Keys;
    var after := RejectShare(Withdraw(BeginShare(w, l, ids)));
    forall id | id in w.accounts
      ensures after.accounts[id] == w.accounts[id]
    {
      assert AccountOk(w.accounts[id], id, w.leases);
      if id in IdSet(ids) {
        assert id in ids;
      }
    }
    assert after.accounts == w.accounts;
  }

  /** An accepted share withdraws its accounts from view and from the pool. */
  lemma AcceptedAreWithdrawn(w: World, id: Id)
    requires Inv(w) && InTransfer(w) && id in w.pending.value.ids
    requires IdSet(w.pending.value.ids) <= w.accounts.Keys
    ensures var accounts, l := AcceptShare(w).accounts, w.pending.value.lease;
            HeldBy(accounts, id, l) && accounts[id].flags == Flags(true, false)
  {
    MarkAllMarks(w.accounts, w.pending.value.ids, w.pending.value.lease);
    assert id in IdSet(w.pending.value.ids);
    assert AccountOk(w.accounts[id], id, w.leases);
  }

  lemma AcceptedStaysOutOfPool(w: World, id: Id)
    requires id in w.accounts && w.accounts[id].marker.Some? && !w.accounts[id].flags.pool
    ensures id in AcceptShare(w).accounts && !AcceptShare(w).accounts[id].flags.pool
  {
    if InTransfer(w) {
      MarkAllMarks(w.accounts, w.pending.value.ids, w.pending.value.lease);
    }
  }

  /** While it is shared, nothing puts an account back into the owner's pool. */
  lemma SharedStaysOutOfPool(w: World, e: Event, id: Id)
    requires id in w.accounts && w.accounts[id].marker.Some? && !w.accounts[id].flags.pool
    ensures id in Step(w, e).accounts && Step(w, e).accounts[id].marker.Some? ==> !Step(w, e).accounts[id].flags.pool
  {
    match e
    case Accepted => AcceptedStaysOutOfPool(w, id);
    case Return(l, returned, faults) => FinalizeStaysOutOfPool(w, l, returned, faults, false, id);
    case Cancelled(l, faults) => FinalizeStaysOutOfPool(w, l, {}, faults, true, id);
    case TransferFailed(l, _, faults) => FinalizeStaysOutOfPool(w, l, {}, faults, false, id);
    case _ =>
  }

  lemma FinalizeStaysOutOfPool(w: World, l: LeaseId, returned: set<Id>, faults: Faults, failed: bool, id: Id)
    requires id in w.accounts && !w.accounts[id].flags.pool
    ensures var after := Finalize(w, l, returned, faults, failed).accounts;
            id in after && (after[id].marker.Some? ==> !after[id].flags.pool)
  {
    if l in w.leases {
      FinalizedMarker(w.accounts, Targets(w.leases[l], returned), l, w.leases[l], faults, id);
    }
  }

  // ---- Order, batching and repetition of returns do not matter ----

  lemma TwoReturnsOfAccounts(accounts: map<Id, Account>, a: set<Id>, b: set<Id>, l: LeaseId, lease: Lease, left: Lease)
    requires left.captured == lease.captured
    ensures FinalizedAccounts(FinalizedAccounts(accounts, a, l, lease, NoFaults), b, l, left, NoFaults) == FinalizedAccounts(accounts, a + b, l, lease, NoFaults)
  {
  }

  lemma TwoReturnsOfLease(accounts: map<Id, Account>, a: set<Id>, b: set<Id>, l: LeaseId, lease: Lease)
    ensures var left := FinalizedLease(accounts, a, l, lease, NoFaults, false);
            FinalizedLease(FinalizedAccounts(accounts, a, l, lease, NoFaults), b, l, left, NoFaults, false)
              == FinalizedLease(accounts, a + b, l, lease, NoFaults, false)
  {
    var left := FinalizedLease(accounts, a, l, lease, NoFaults, false);
    assert Outstanding(FinalizedAccounts(accounts, a, l, lease, NoFaults), b, l, left, NoFaults) == Outstanding(accounts, a + b, l, lease, NoFaults);
  }

  lemma TwoReturnsAreOne(w: World, l: LeaseId, a: set<Id>, b: set<Id>)
    requires l in w.leases && LeaseOk(w.leases[l]) && a != {} && b != {}
    ensures Finalize(Finalize(w, l, a, NoFaults, false), l, b, NoFaults, false) == Finalize(w, l, a + b, NoFaults, false)
  {
    var lease := w.leases[l];
    var known := KnownIds(lease);
    var left := FinalizedLease(w.accounts, known * a, l, lease, NoFaults, false);
    assert a + b != {};
    assert KnownIds(left) == known;
    assert known * a + known * b == known * (a + b);
    TwoReturnsOfAccounts(w.accounts, known * a, known * b, l, lease, left);
    TwoReturnsOfLease(w.accounts, known * a, known * b, l, lease);
  }

  function FinalizeBatches(w: World, l: LeaseId, batches: seq<set<Id>>): World {
    if batches == [] then w else Finalize(FinalizeBatches(w, l, batches[..|batches| - 1]), l, batches[|batches| - 1], NoFaults, false)
  }

  function Union(batches: seq<set<Id>>): set<Id> {
    if batches == [] then {} else Union(batches[..|batches| - 1]) + batches[|batches| - 1]
  }

  /** Returning accounts batch by batch, in any order and with repetitions, has the effect of returning their union. */
  lemma {:induction false} BatchesAreOneReturn(w: World, l: LeaseId, batches: seq<set<Id>>)
    requires l in w.leases && LeaseOk(w.leases[l])
    requires batches != [] && forall i | 0 <= i < |batches| :: batches[i] != {}
    ensures FinalizeBatches(w, l, batches) == Finalize(w, l, Union(batches), NoFaults, false) && Union(batches) != {}
  {
    var init, last := batches[..|batches| - 1], batches[|batches| - 1];
    if init == [] {
      assert Union(batches) == last;
    } else {
      BatchesAreOneReturn(w, l, init);
      TwoReturnsAreOne(w, l, Union(init), last);
    }
  }

  /** A return of everything ends the lease exactly when each outstanding account is gone, still carries its marker or
      cannot be read; only an account that was removed and added again is none of these. */
  lemma LeaseEndsExactlyWhen(w: World, l: LeaseId, faults: Faults)
    requires l in w.leases
    ensures Finalize(w, l, {}, faults, false).leases[l].state == Returned
       <==> forall id <- w.leases[l].accountIds :: Finalizes(w.accounts, id, l, faults)
  {
    var left := Outstanding(w.accounts, Targets(w.leases[l], {}), l, w.leases[l], faults);
    if !(forall id <- w.leases[l].accountIds :: Finalizes(w.accounts, id, l, faults)) {
      var id :| id in w.leases[l].accountIds && !Finalizes(w.accounts, id, l, faults);
      assert id in left;
    } else {
      assert left == {};
    }
  }

  // ---- The service and the repository ----

  class OwnerSharing {
    var accounts: map<Id, Account>
    var leases: map<LeaseId, Lease>
    var pending: Option<Pending>

    constructor (accounts: map<Id, Account>)
      ensures Contents() == World(accounts, map[], None)
    {
      this.accounts, leases, pending := accounts, map[], None;
    }

    function Contents(): World
      reads this
    {
      World(accounts, leases, pending)
    }

    method HideAccounts(ids: set<Id>)
      modifies `accounts
      ensures accounts == OnAll(old(accounts), ids, Hide)
    {
      if ids <= accounts.Keys {
        accounts := map id | id in accounts ::
          if id in ids && !accounts[id].virtual then accounts[id].(flags := Flags(true, false)) else accounts[id];
      }
    }

    method UnhideAccounts(ids: set<Id>)
      modifies `accounts
      ensures accounts == OnAll(old(accounts), ids, Unhide)
    {
      if ids <= accounts.Keys {
        accounts := map id | id in accounts ::
          if id in ids && !accounts[id].virtual && (accounts[id].flags.hidden || !accounts[id].flags.pool)
          then accounts[id].(flags := Flags(false, accounts[id].marker == None))
          else accounts[id];
      }
    }

    method SetBalancePoolMembership(id: Id, enabled: bool) returns (ok: bool)
      modifies `accounts
      ensures ok == (id in old(accounts) && !(enabled && old(accounts)[id].marker.Some?))
      ensures accounts == if id in old(accounts) then old(accounts)[id := SetPool(old(accounts)[id], enabled)] else old(accounts)
    {
      if id !in accounts || (enabled && accounts[id].marker.Some?) {
        assert id in accounts ==> accounts[id := accounts[id]] == accounts;
        return false;
      }
      var a := accounts[id];
      accounts := accounts[id := a.(flags := a.flags.(pool := enabled && !a.flags.hidden && !a.virtual))];
      return true;
    }

    method RestoreOwnerAccountState(lease: Lease, id: Id, faults: Faults)
      requires id in accounts && accounts[id].marker == None
      modifies `accounts
      ensures accounts == old(accounts)[id := Restored(old(accounts)[id], CapturedOf(lease, id), id, faults)]
    {
      if id !in lease.captured {
        assert accounts[id := accounts[id]] == accounts;
        return;
      }
      var previous := lease.captured[id];
      assert accounts == accounts[id := accounts[id]];
      if previous.hidden {
        if id !in faults.notHidden {
          HideAccounts({id});
        }
        return;
      }
      if id !in faults.notShown {
        UnhideAccounts({id});
      }
      if id !in faults.notPooled {
        var _ := SetBalancePoolMembership(id, previous.pool);
      }
    }

    /** The body of the loop over the targets. */
    method FinalizeAccount(l: LeaseId, lease: Lease, id: Id, faults: Faults) returns (crossed: bool)
      modifies `accounts
      ensures crossed == Finalizes(old(accounts), id, l, faults)
      ensures accounts == if HeldBy(old(accounts), id, l) && id !in faults.notRead
                          then old(accounts)[id := Restored(old(accounts)[id], CapturedOf(lease, id), id, faults)] else old(accounts)
    {
      if id !in accounts || id in faults.notRead {
        return true;
      }
      if accounts[id].marker != Some(l) {
        return false;
      }
      accounts := accounts[id := accounts[id].(marker := None)];
      RestoreOwnerAccountState(lease, id, faults);
      return true;
    }

    method FinalizeOutgoingAccounts(l: LeaseId, returned: set<Id>, faults: Faults, failed: bool) returns (changed: bool)
      requires l in leases
      modifies this
      ensures Contents() == Finalize(old(Contents()), l, returned, faults, failed)
    {
      var lease := leases[l];
      var known := lease.accountIds + lease.captured.Keys + lease.acks;
      var targets := if returned != {} then known * returned else known;
      var todo, finalized := targets, {};
      while todo != {}
        invariant todo <= targets
        invariant accounts == FinalizedAccounts(old(accounts), targets - todo, l, lease, faults)
        invariant finalized == CrossedOff(old(accounts), targets - todo, l, faults)
        invariant leases == old(leases) && pending == old(pending)
        decreases todo
      {
        var id :| id in todo;
        FinalizeOne(old(accounts), targets - todo, l, lease, faults, id);
        CrossOffOne(old(accounts), targets - todo, l, faults, id);
        assert targets - (todo - {id}) == targets - todo + {id};
        todo := todo - {id};
        var crossed := FinalizeAccount(l, lease, id, faults);
        if crossed {
          finalized := finalized + {id};
        }
      }
      assert targets - todo == targets;
      var left := lease.accountIds - finalized;
      var state := if failed then Failed else if left == {} then Returned else Shared;
      changed := finalized != {} || lease.state != state;
      assert left == Outstanding(old(accounts), targets, l, lease, faults);
      leases := leases[l := lease.(accountIds := left, state := state)];
    }

    method BeginShareAccounts(l: LeaseId, ids: seq<Id>, setting: Setting) returns (ok: bool)
      modifies this
      ensures ok == (CanShare(old(Contents()), l, ids) && Permits(setting, ids))
      ensures Contents() == Step(old(Contents()), Begin(l, ids, setting))
    {
      ok := CanShare(Contents(), l, ids) && Permits(setting, ids);
      if ok {
        var captured := map id | id in IdSet(ids) && id in accounts :: accounts[id].flags;
        pending := Some(Pending(l, ids, captured, false));
      }
    }

    /** The step between the read and the transfer request. */
    method RemoveFromBalancePool() returns (ok: bool)
      requires pending.Some? && !pending.value.withdrawn
      modifies this
      ensures Contents() == Withdraw(old(Contents()))
      ensures ok == (IdSet(old(pending).value.ids) <= old(accounts).Keys) && ok == pending.Some?
    {
      var ids := IdSet(pending.value.ids);
      ok := ids <= accounts.Keys;
      if !ok {
        pending := None;
        return;
      }
      accounts := map id | id in accounts ::
        if id in ids && accounts[id].flags.pool then accounts[id].(flags := accounts[id].flags.(pool := false)) else accounts[id];
      pending := Some(pending.value.(withdrawn := true));
    }

    /** The relay took the transfer: the lease is kept first, then each account is marked, then all are hidden. */
    method AcceptShareAccounts()
      requires InTransfer(Contents())
      modifies this
      ensures Contents() == AcceptShare(old(Contents()))
    {
      var p := pending.value;
      pending := None;
      leases := leases[p.lease := Lease(IdSet(p.ids), p.captured, {}, Shared)];
      var i := 0;
      while i < |p.ids| && p.ids[i] in accounts
        invariant 0 <= i <= |p.ids|
        invariant accounts.Keys == old(accounts).Keys
        invariant forall j | 0 <= j < i :: p.ids[j] in accounts
        invariant MarkAll(accounts, p.ids[i..], p.lease) == MarkAll(old(accounts), p.ids, p.lease)
        invariant leases == old(leases)[p.lease := Lease(IdSet(p.ids), p.captured, {}, Shared)] && pending == None
      {
        accounts := accounts[p.ids[i] := accounts[p.ids[i]].(marker := Some(p.lease))];
        assert p.ids[i..][1..] == p.ids[i + 1..];
        i := i + 1;
      }
      if i == |p.ids| {
        HideAccounts(IdSet(p.ids));
      } else {
        assert p.ids[i] in IdSet(p.ids);
      }
    }

    method RejectShareAccounts()
      requires InTransfer(Contents())
      modifies this
      ensures Contents() == RejectShare(old(Contents()))
    {
      var captured := pending.value.captured;
      pending := None;
      var todo := captured.Keys;
      while todo != {}
        invariant todo <= captured.Keys
        invariant accounts == map id | id in old(accounts) ::
                    if id in captured.Keys - todo then SetPool(old(accounts)[id], captured[id].pool) else old(accounts)[id]
        invariant leases == old(leases) && pending == None
        decreases todo
      {
        var id :| id in todo;
        var _ := SetBalancePoolMembership(id, captured[id].pool);
        todo := todo - {id};
      }
    }
  }

  lemma FinalizeOne(accounts: map<Id, Account>, done: set<Id>, l: LeaseId, lease: Lease, faults: Faults, id: Id)
    requires id !in done
    ensures var before := FinalizedAccounts(accounts, done, l, lease, faults);
            && (id in before <==> id in accounts) && (id in accounts ==> before[id] == accounts[id])
            && FinalizedAccounts(accounts, done + {id}, l, lease, faults) ==
                 if HeldBy(accounts, id, l) && id !in faults.notRead then before[id := Restored(accounts[id], CapturedOf(lease, id), id, faults)]
                 else before
  {
  }
}
