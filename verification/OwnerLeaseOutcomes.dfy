/** What the owner's operations and the steps of a lease do to each account and lease, in plain terms
    (src/sharing/accountSharingService.ts and src/storage/accounts.ts). */
module OwnerLeaseOutcomes {
  import opened AccountIds
  import opened OwnerLease
  import opened Wrappers

  // ---- The owner's operations ----

  /** Hiding and showing leave virtual accounts and markers alone; a hidden account is out of the pool, and a shown one is
      in it unless it is shared. One that is visible and pooled already stays so even while it is shared. */
  lemma VisibilityOutcome(a: Account)
    ensures Hide(a).marker == a.marker && Unhide(a).marker == a.marker && Hide(a).virtual == a.virtual && Unhide(a).virtual == a.virtual
    ensures a.virtual ==> Hide(a).flags == a.flags && Unhide(a).flags == a.flags
    ensures !a.virtual ==> Hide(a).flags.hidden && !Hide(a).flags.pool
    ensures !a.virtual ==> !Unhide(a).flags.hidden && (Unhide(a).flags.pool <==> a.marker == None || (!a.flags.hidden && a.flags.pool))
  {
  }

  /** A shared account cannot join the pool; a hidden or virtual one does not; any other one joins or leaves as asked. */
  lemma MembershipOutcome(a: Account, enabled: bool)
    ensures SetPool(a, enabled).marker == a.marker && SetPool(a, enabled).virtual == a.virtual
    ensures SetPool(a, enabled).flags.hidden == a.flags.hidden
    ensures enabled && a.marker.Some? ==> SetPool(a, enabled).flags.pool == a.flags.pool
    ensures enabled && a.marker == None ==> (SetPool(a, enabled).flags.pool <==> !a.flags.hidden && !a.virtual)
    ensures !enabled ==> !SetPool(a, enabled).flags.pool
    ensures LeavePool(a).marker == a.marker && LeavePool(a).virtual == a.virtual
    ensures LeavePool(a).flags.hidden == a.flags.hidden && !LeavePool(a).flags.pool
  {
  }

  /** An operation on a selection changes exactly the selected accounts, and none when one of them is missing. */
  lemma SelectionOutcome(accounts: map<Id, Account>, ids: set<Id>, f: Account -> Account, id: Id)
    requires id in accounts
    ensures OnAll(accounts, ids, f).Keys == accounts.Keys
    ensures OnAll(accounts, ids, f)[id] == if id in ids && (forall other :: other in ids ==> other in accounts) then f(accounts[id]) else accounts[id]
  {
    if forall other :: other in ids ==> other in accounts {
      assert ids <= accounts.Keys;
    }
  }

  /** May join the pool: visible, with credentials of its own, and not shared. */
  predicate MayJoin(a: Account) {
    !a.flags.hidden && !a.virtual && a.marker == None
  }

  /** Replacing the pool is refused when a target is missing or fewer than two may join it; otherwise exactly the targets
      that may join it are in it. */
  lemma ReplacePoolOutcome(accounts: map<Id, Account>, targets: set<Id>, id: Id)
    requires id in accounts
    ensures var joining := set other | other in targets && other in accounts && MayJoin(accounts[other]);
            var accepted := targets <= accounts.Keys && |joining| >= 2;
            && ReplacePool(accounts, targets).Keys == accounts.Keys
            && (!accepted ==> ReplacePool(accounts, targets) == accounts)
            && (accepted ==> ReplacePool(accounts, targets)[id] == accounts[id].(flags := Flags(accounts[id].flags.hidden, id in joining)))
  {
    assert (set other | other in targets && other in accounts && Eligible(accounts[other]))
        == (set other | other in targets && other in accounts && MayJoin(accounts[other]));
  }

  // ---- Restoring ----

  /** An account without captured flags only loses its marker. A hidden one is hidden again. Any other one is shown, which
      also puts it into the pool, and then gets its membership back as far as it is visible; a step that fails is left
      out. */
  lemma RestoredOutcome(a: Account, captured: Option<Flags>, id: Id, faults: Faults)
    requires Sane(a) && !a.virtual
    ensures var (r, shows, pools) := (Restored(a, captured, id, faults), id !in faults.notShown, id !in faults.notPooled);
            && r.marker == None && !r.virtual
            && (captured == None ==> r.flags == a.flags)
            && (captured.Some? && captured.value.hidden ==> r.flags == if id in faults.notHidden then a.flags else Flags(true, false))
            && (captured.Some? && !captured.value.hidden ==>
                  && r.flags.hidden == (a.flags.hidden && !shows)
                  && r.flags.pool == if pools then captured.value.pool && !r.flags.hidden else shows || a.flags.pool)
  {
  }

  // ---- Finalising a lease ----

  /** The lease named the account at some time, and the return is for all of its accounts or for this one. */
  predicate Concerned(lease: Lease, returned: set<Id>, id: Id) {
    (id in lease.accountIds || id in lease.captured || id in lease.acks) && (returned == {} || id in returned)
  }

  /** Finalising restores exactly the accounts concerned that carry the lease's marker and can be read. */
  lemma FinalizeRestores(w: World, l: LeaseId, returned: set<Id>, faults: Faults, failed: bool, id: Id)
    requires l in w.leases && id in w.accounts
    ensures var (lease, after) := (w.leases[l], Finalize(w, l, returned, faults, failed));
            && after.accounts.Keys == w.accounts.Keys && after.pending == w.pending
            && after.accounts[id] ==
                 if Concerned(lease, returned, id) && w.accounts[id].marker == Some(l) && id !in faults.notRead
                 then Restored(w.accounts[id], if id in lease.captured then Some(lease.captured[id]) else None, id, faults)
                 else w.accounts[id]
  {
  }

  /** An account stays outstanding exactly when the return is not for it, or it can be read and carries no marker of the
      lease. The lease keeps what it captured; it is failed when asked to, and otherwise returned when nothing is
      outstanding. No other lease changes. */
  lemma FinalizeCrossesOff(w: World, l: LeaseId, returned: set<Id>, faults: Faults, failed: bool, id: Id)
    requires l in w.leases
    ensures var (lease, after) := (w.leases[l], Finalize(w, l, returned, faults, failed));
            && l in after.leases && after.leases == w.leases[l := after.leases[l]]
            && (id in after.leases[l].accountIds <==>
                  id in lease.accountIds
                  && !((returned == {} || id in returned)
                       && (id !in w.accounts || id in faults.notRead || w.accounts[id].marker == Some(l))))
            && after.leases[l].captured == lease.captured && after.leases[l].acks == lease.acks
            && (after.leases[l].state == Failed <==> failed)
            && (after.leases[l].state == Returned <==> !failed && after.leases[l].accountIds == {})
  {
  }

  /** A return is taken only for accounts the lease named; they are then remembered for confirmation as well. */
  lemma ReturnOutcome(w: World, l: LeaseId, returned: set<Id>, faults: Faults)
    requires l in w.leases
    ensures var (lease, after) := (w.leases[l], Step(w, Return(l, returned, faults)));
            if returned != {} && forall id :: id in returned ==> id in lease.accountIds || id in lease.captured || id in lease.acks
            then && l in after.leases && after.leases[l].acks == lease.acks + returned
                 && after.accounts == Finalize(w, l, returned, faults, false).accounts
                 && after.leases[l].accountIds == Finalize(w, l, returned, faults, false).leases[l].accountIds
                 && after.leases[l].state == Finalize(w, l, returned, faults, false).leases[l].state
            else after == w
  {
    if forall id :: id in returned ==> id in w.leases[l].accountIds || id in w.leases[l].captured || id in w.leases[l].acks {
      assert returned <= KnownIds(w.leases[l]);
    }
  }

  /** A failed transfer fails its lease. Unless the receiver got the accounts, everything is restored first. */
  lemma FailedOutcome(w: World, l: LeaseId, withEnvelopes: bool, faults: Faults)
    requires l in w.leases
    ensures var after := Step(w, TransferFailed(l, withEnvelopes, faults));
            && l in after.leases && after.leases[l].state == Failed && after.leases[l].captured == w.leases[l].captured
            && after.leases[l].acks == w.leases[l].acks
            && (withEnvelopes ==> after.accounts == w.accounts && after.leases[l].accountIds == w.leases[l].accountIds)
            && (!withEnvelopes ==> after.accounts == Finalize(w, l, {}, faults, false).accounts
                                   && after.leases[l].accountIds == Finalize(w, l, {}, faults, false).leases[l].accountIds)
  {
  }

  /** A share cancelled because it was never confirmed fails its lease and restores everything. */
  lemma CancelledOutcome(w: World, l: LeaseId, faults: Faults, id: Id)
    requires l in w.leases
    ensures var after := Step(w, Cancelled(l, faults));
            && l in after.leases && after.leases[l].state == Failed && after.leases[l].captured == w.leases[l].captured
            && after.accounts == Finalize(w, l, {}, faults, true).accounts
            && (id in after.leases[l].accountIds ==>
                  id in w.leases[l].accountIds && id in w.accounts && id !in faults.notRead && w.accounts[id].marker != Some(l))
  {
  }

  /** A confirmation only forgets what it confirms. */
  lemma ConfirmOutcome(w: World, l: LeaseId, confirmed: set<Id>, id: Id)
    requires l in w.leases
    ensures var after := Step(w, Confirm(l, confirmed));
            && l in after.leases && after == w.(leases := w.leases[l := after.leases[l]])
            && (id in after.leases[l].acks <==> id in w.leases[l].acks && id !in confirmed)
            && after.leases[l].accountIds == w.leases[l].accountIds && after.leases[l].captured == w.leases[l].captured
            && after.leases[l].state == w.leases[l].state
  {
  }

  // ---- Sharing ----

  /** A share begins exactly when no other one is on its way, its lease is new, it names one to fifty different saved
      accounts with credentials that are not shared, the peer is trusted, and none of the accounts is synchronised or
      cannot be switched away from. It captures the accounts' flags and changes nothing else. */
  lemma ShareBeginsExactlyWhen(w: World, l: LeaseId, ids: seq<Id>, setting: Setting)
    ensures var after := Step(w, Begin(l, ids, setting));
            if w.pending == None && l !in w.leases && 1 <= |ids| <= 50
               && (forall i, j :: 0 <= i < j < |ids| ==> ids[i] != ids[j])
               && (forall i :: 0 <= i < |ids| ==>
                     ids[i] in w.accounts && !w.accounts[ids[i]].virtual && w.accounts[ids[i]].marker == None)
               && setting.trusted && (forall i :: 0 <= i < |ids| ==> ids[i] !in setting.synced && ids[i] !in setting.stuck)
            then && after == w.(pending := after.pending) && after.pending.Some? && after.pending.value.lease == l
                 && after.pending.value.ids == ids && !after.pending.value.withdrawn
                 && (forall id :: id in after.pending.value.captured <==> id in ids)
                 && (forall id :: id in ids ==> after.pending.value.captured[id] == w.accounts[id].flags)
            else after == w
  {
    if forall i :: 0 <= i < |ids| ==> ids[i] in w.accounts && !w.accounts[ids[i]].virtual && w.accounts[ids[i]].marker == None {
      assert forall id <- ids :: id in w.accounts && !w.accounts[id].virtual && w.accounts[id].marker == None;
    }
    if forall i :: 0 <= i < |ids| ==> ids[i] !in setting.synced && ids[i] !in setting.stuck {
      assert forall id <- ids :: id !in setting.synced && id !in setting.stuck;
    }
  }

  /** The accounts of a share leave the pool together, or the share ends when one of them was removed. */
  lemma WithdrawOutcome(w: World, id: Id)
    requires w.pending.Some? && !w.pending.value.withdrawn && id in w.accounts
    ensures var after := Step(w, Withdrawn);
            if forall other :: other in w.pending.value.ids ==> other in w.accounts
            then && after.pending == Some(w.pending.value.(withdrawn := true)) && after.leases == w.leases && after.accounts.Keys == w.accounts.Keys
                 && after.accounts[id] == (if id in w.pending.value.ids then w.accounts[id].(flags := Flags(w.accounts[id].flags.hidden, false))
                                           else w.accounts[id])
            else after == w.(pending := None)
  {
    var ids := w.pending.value.ids;
    if forall other :: other in ids ==> other in w.accounts {
      assert IdSet(ids) <= w.accounts.Keys;
    } else {
      var other :| other in ids && other !in w.accounts;
      assert other in IdSet(ids);
    }
  }

  /** An accepted share becomes a lease over its accounts with their captured flags. Accounts of no share are left alone,
      and when one was removed meanwhile none is hidden. */
  lemma AcceptOutcome(w: World, id: Id)
    requires InTransfer(w) && id in w.accounts
    ensures var (p, after) := (w.pending.value, Step(w, Accepted));
            && after.pending == None && after.leases == w.leases[p.lease := Lease(IdSet(p.ids), p.captured, {}, Shared)]
            && after.accounts.Keys == w.accounts.Keys && (id !in p.ids ==> after.accounts[id] == w.accounts[id])
            && ((exists other :: other in p.ids && other !in w.accounts) ==> after.accounts[id].flags == w.accounts[id].flags)
  {
    var p := w.pending.value;
    MarkAllMarks(w.accounts, p.ids, p.lease);
    if other :| other in p.ids && other !in w.accounts {
      assert other in IdSet(p.ids);
    }
    assert id in IdSet(p.ids) <==> id in p.ids;
  }

  /** Accounts are marked in turn, up to the first that was removed. */
  lemma {:induction false} MarkedUpToMissing(accounts: map<Id, Account>, ids: seq<Id>, l: LeaseId, i: nat)
    requires Distinct(ids) && i < |ids| && ids[i] in accounts
    ensures ids[i] in MarkAll(accounts, ids, l)
    ensures MarkAll(accounts, ids, l)[ids[i]]
         == if forall j :: 0 <= j < i ==> ids[j] in accounts then accounts[ids[i]].(marker := Some(l)) else accounts[ids[i]]
  {
    MarkAllMarks(accounts, ids, l);
    if ids[0] in accounts {
      var marked := accounts[ids[0] := accounts[ids[0]].(marker := Some(l))];
      MarkAllMarks(marked, ids[1..], l);
      if i == 0 {
        assert ids[0] !in ids[1..];
      } else {
        MarkedUpToMissing(marked, ids[1..], l, i - 1);
        assert (forall j :: 0 <= j < i ==> ids[j] in accounts) <==> (forall j :: 0 <= j < i - 1 ==> ids[1..][j] in marked);
      }
    }
  }

  /** A share that is not accepted gives back pool membership only, to accounts that are neither hidden nor shared by now. */
  lemma RejectOutcome(w: World, id: Id)
    requires InTransfer(w) && id in w.accounts
    ensures var (captured, after) := (w.pending.value.captured, Step(w, Rejected));
            && after.pending == None && after.leases == w.leases && after.accounts.Keys == w.accounts.Keys
            && (id !in captured ==> after.accounts[id] == w.accounts[id])
            && after.accounts[id] == w.accounts[id].(flags := Flags(w.accounts[id].flags.hidden, after.accounts[id].flags.pool))
            && (id in captured && !captured[id].pool ==> !after.accounts[id].flags.pool)
            && (id in captured && captured[id].pool && w.accounts[id].marker == None ==>
                  (after.accounts[id].flags.pool <==> !w.accounts[id].flags.hidden && !w.accounts[id].virtual))
  {
  }

  /** Adding an account never replaces one, and removing one touches no other. */
  lemma OwnerKeepsOthers(w: World, id: Id, account: Account, other: Id)
    requires other in w.accounts
    ensures var after := Step(w, OwnerAdds(id, account)); other in after.accounts && after.accounts[other] == w.accounts[other]
    ensures other != id ==> var after := Step(w, OwnerRemoves(id)); other in after.accounts && after.accounts[other] == w.accounts[other]
    ensures id !in Step(w, OwnerRemoves(id)).accounts
  {
  }
}
