# Codex accounts manager: verified model

The extension manages several OAuth accounts for Codex. It shares accounts between devices, keeps their credentials
fresh from several editor windows at once, and accounts for the tokens each account used. This project models the parts
of it that keep state or do exact accounting, and proves what those parts promise.

The model has one module per component:

| component | modules |
|---|---|
| Credential synchronisation between a primary and a follower device | `CredentialSync`, `CredentialSyncProtocol`, `CredentialSyncSteps`, `CredentialSyncFollower` |
| The owner's side of a sharing lease | `OwnerLease`, `OwnerLeaseOutcomes` |
| Token refresh across processes, and caches guarded by generations | `TokenStore`, `TokenRefresh`, `TokenRefreshOutcomes`, `GenerationGuard`, `GenerationOutcomes` |
| Token usage of local sessions | `UsageTotals`, `TokenHighWater`, `SubagentClassifier`, `SubagentRules`, `UsageTables`, `UsageLedger`, `UsageLedgerRows`, `UsageScan`, `SessionReading`, `SnapshotMerge`, `UsageCoverage`, `UsageCacheRules`, `LifetimeWindows`, `LifetimeMerges` |
| The index of saved accounts | `AccountIds`, `AccountIndex`, `AccountOutcomes` |
| The canonical serialiser, the request table, the process tree | `StableJson`, `StableJsonText`, `HotSwitchBridge`, `HotSwitchFates`, `ProcessTree` |

Two styles meet in each module. Classes and methods follow the code: fields and local variables that are updated step by
step. Each method is proved against a function of the old state, and the theorems are lemmas about those functions, over
every run or every input. Protocols are transition systems in which every `await` is a step boundary; replies can be lost,
requests delivered late or repeatedly, and any number of other steps can happen in between.

The second module of a component (`CredentialSyncSteps`, `TokenRefreshOutcomes`, `HotSwitchFates` and so on) says what each
single step does, on the raw fields and with the constants written out, so that the functions the theorems are about are
fixed by more than each other.

`dafny verify dfyconfig.toml` checks everything.

## What the theorems say

* **Credential sync.** In every run versions count up from 1, each names one snapshot, a pending update is newer than
  what is recorded unless its save failed, and an active relationship without a pending update is exactly what the relay
  holds. Once the export stops changing, one publish and one poll make primary, relay and follower agree,
  and a publish that ends without asking the relay, because a listing showed nothing new, leaves the current export there.
* **Leases.** Whatever happens between reading an account for a share and getting it back, its visibility and pool flags
  end as they were read, unless a step of the restore fails. Order, batching and repetition of returns do not matter.
* **Token refresh.** With an exclusive lease a refresh token whose rotation was saved is never presented again unless a
  replacement brings it back, and the stored pair always descends from the latest replacement. A run in which the lease
  expires shows the lease is needed. Whatever an operation returns is what it read last, and under the lease it is never
  a spent pair. Within a process, callers share at most one operation per generation.
* **Usage.** The one-pass subagent classifier equals a two-pass specification on every event list. Emitted deltas never
  exceed the high-water mark. All tables of a scan agree with each other and with the observations. From the files to the
  grand total, no more is counted than the final marks, and exactly the final counters when these are coherent. Everything
  recorded is the usage of one line of one file, under the model that was named last before it. Merging
  keeps the tables in agreement and is idempotent.
* **Account index.** The flags, the two pointers and the status bar agree after every operation.
* **Small cores.** The serialiser's text is the same exactly for values equal up to key order. Every bridge request
  is settled by the first event that decides its fate: with the reply that is read, and without one as uncertain or failed. The process-tree loop returns exactly the descendants.

Some claims that sound plausible are false of the code. For each of these the project says exactly when it holds:

* A pending update is newer than the recorded version: exactly when no local save fails right after a stored write
  (`CredentialSyncProtocol.PendingIsNewerExactlyWhen`). The next answer read repairs the record (`NextFetchAdopts`).
* A rotated refresh token is never stored again: exactly when no replacement brings one back
  (`TokenRefresh.StoreStaysUnspentExactlyWhen`). Then, and only then, one can go out again while the lease is free
  (`SpentIsPresentedExactlyWhen`); `RestoredPairReplays` is such a run.
* A returned account carries no marker: exactly when it could be read (`OwnerLease.LeavesStrayExactlyWhen`). It has the
  flags it was read with: exactly when the steps of the restore that fail do not matter (`EndsAsCaptured`).
* Repeating a record counts nothing: exactly when it has a cumulative total or no usage
  (`TokenHighWater.DuplicateIsSilentExactlyWhen`).
* Merging a lifetime window never lowers a total: except exactly when no entry lies near the candidate and its own key
  holds a larger total (`LifetimeWindows.LowersExactlyWhen`); `DriftOverwrites` shows how drifting reset times reach that.
* The claimed coverage is true after a scan: exactly when the scan adjoins the earlier claim or is as long as the retention
  period (`UsageCoverage.CoveredExactlyWhen`); `ShortRangesLeaveGap` is a run in which it is neither.
* With a daily range at every scan the claimed coverage stays true: exactly when no other process writes a cache file
  during a scan whose claim the rows in memory do not match (`UsageCoverage.RunIsCoveredExactlyWhen`). Such a file's claim
  is extended while its rows are lost (`SlippedClaimLosesRows`).
* Saving tokens without activating keeps the index consistent: exactly for other accounts than the current one, whose flag
  is cleared while the pointer stays (`AccountIndex.UpsertInactiveKeepsInvExactlyWhen`).
* The serialiser tells different values apart: exactly up to key order and up to reading what cannot be printed as null
  (`StableJson.TextIsCanonical`); `MissingReadsAsNull` is the smallest case.
* Nothing is sent once the bridge is disposed: exactly when no request was still connecting at that moment
  (`HotSwitchBridge.SentAfterDisposalExactlyWhen`); `SentAfterDisposal` is a run in which one was.

The configured five-minute cap on retries is never reached, because the exponent is cut first
(`CredentialSync.BackoffBounds`).

## Model

| member | source | states |
|---|---|---|
| `CredentialSync.Primary.Begin` | src/sharing/accountSharingService.ts:1570-1620 | the code before the first request: what is kept of the record, and whether to finish, fail, create or fetch; what that means is `BeginOfActive` and `BeginOfNew` |
| `CredentialSync.Primary.OnCreated` | src/sharing/accountSharingService.ts:1594-1599 | a created relationship becomes active with the pending fingerprint and no pending update |
| `CredentialSync.Primary.OnFetched` | src/sharing/accountSharingService.ts:1621-1662 | reconciling with the relay's record, superseding a stale pending update, the local saves between them that may fail, and deciding whether to publish |
| `CredentialSync.Primary.OnUpdated` | src/sharing/accountSharingService.ts:1675-1678 | a stored update is adopted and no longer pending |
| `CredentialSync.Primary.ScheduleRetry` | src/sharing/accountSharingService.ts:1721-1730 | the same update with one more attempt, due within 80 to 120 percent of the back-off |
| `CredentialSync.BackoffBounds` | src/sharing/accountSharingService.ts:1725-1727 | the back-off is between one second and 256 seconds, so the configured cap of 300 seconds is never reached |
| `CredentialSync.BackoffDoubles` | src/sharing/accountSharingService.ts:1725-1727 | the back-off starts at a second and doubles with every attempt up to the eighth |
| `CredentialSync.Stripped` | src/sharing/accountSharingService.ts:3021-3040 | account by account, the export without its refresh tokens, under the account id that goes with the tokens |
| `CredentialSyncProtocol.InitialInv` | src/sharing/accountSharingService.ts:630-676 | a new relationship satisfies the protocol's invariant |
| `CredentialSyncProtocol.BeginKeepsInv` | src/sharing/accountSharingService.ts:1570-1620 | starting to publish keeps the invariant, whatever the listing showed |
| `CredentialSyncProtocol.DeliverKeepsInv` | src/sharing/accountSharingService.ts:1583-1602 | a request delivered at any time, even after the primary gave up on it or again, keeps the invariant |
| `CredentialSyncProtocol.FetchedKeepsInv` | src/sharing/accountSharingService.ts:1621-1662 | reconciling, superseding and issuing the next version keep the invariant |
| `CredentialSyncProtocol.ReceiveKeepsInv` | src/sharing/accountSharingService.ts:1584-1682 | taking any reply keeps the invariant, also when the local save after it fails and the update is put back |
| `CredentialSyncProtocol.AcknowledgeKeepsInv` | src/sharing/accountSharingService.ts:1820-1827 | an acknowledgement that is lost, or confirmed, keeps the invariant |
| `CredentialSyncProtocol.StepKeepsInv` | src/sharing/accountSharingService.ts:1565-1730 | every step of primary, relay, follower or wire keeps the invariant |
| `CredentialSyncProtocol.EveryRunIsSafe` | src/sharing/accountSharingService.ts:1565-1730 | in every run versions are 1, 2, 3 and so on and name one snapshot each; a pending update is newer than recorded, or is exactly what the relay holds; an active sync without pending is what the relay holds; the follower never acknowledges more than it applied and holds no refresh token |
| `CredentialSyncProtocol.PendingIsNewerExactlyWhen` | src/sharing/accountSharingService.ts:1594-1602 | a pending update is newer than recorded all along a run exactly when no local save fails right after a stored write |
| `CredentialSyncProtocol.NextFetchAdopts` | src/sharing/accountSharingService.ts:1626-1632 | after such a failed save the next answer read adopts the stored update |
| `CredentialSyncProtocol.RunGrows` | src/sharing/accountSharingService.ts:1014-1051 | continuing a run never takes back an issued update, a version or an acknowledgement |
| `CredentialSyncProtocol.NewestCarriesLast` | src/sharing/accountSharingService.ts:1626-1639 | a relay record as new as the last issued update carries that very update |
| `CredentialSyncProtocol.HandleAdvances` | src/sharing/accountSharingService.ts:1618-1674 | the relay only moves to a strictly newer issued version, and an accepted write is what it then holds |
| `CredentialSyncProtocol.ApplyInstallsVersion` | src/sharing/accountSharingService.ts:1025-1045 | a successful apply, in whatever order accounts are written, leaves the follower at the applied version with exactly its tokens, without refresh tokens |
| `CredentialSyncProtocol.CaughtUpHolds` | src/sharing/accountSharingService.ts:1017-1050 | a follower at the relay's version holds the relay's snapshot, even if an earlier apply failed half way |
| `CredentialSyncProtocol.PublishAgrees` | src/sharing/accountSharingService.ts:1565-1683 | one publish in which everything arrives, with a listing or without, leaves the relay with the current export at the recorded version |
| `CredentialSyncProtocol.PollAgreesStepwise` | src/sharing/accountSharingService.ts:1017-1050 | one poll brings the follower to the relay's version and tokens, acknowledged |
| `CredentialSyncProtocol.Converges` | src/sharing/accountSharingService.ts:1565-1827 | once the export stops changing, one publish, with a listing or without, and one poll make primary, relay and follower agree |
| `CredentialSyncProtocol.CreationActivates` | src/sharing/accountSharingService.ts:1575-1599 | a first publish in which everything arrives activates the relationship at version 1 with the snapshot it was created with |
| `CredentialSyncProtocol.BeginOfActive` | src/sharing/accountSharingService.ts:1606-1620 | an active relationship does nothing exactly when an active listing shows the version the relay holds, nothing is pending and the export is the recorded one; otherwise it asks the relay |
| `CredentialSyncProtocol.FinishedPublishIsCurrent` | src/sharing/accountSharingService.ts:1606-1617 | whatever the listing showed and however old it is, a publish that ends without a request leaves the current export at the relay at the recorded version |
| `CredentialSyncSteps.FirstUpdateNamesExport` | src/sharing/accountSharingService.ts:630-676 | a new relationship names version 1, its own event and exactly the given accounts without refresh tokens |
| `CredentialSyncSteps.IncompleteChangesNothing` | src/sharing/accountSharingService.ts:1570-1573 | an export that could not be read completely is never published |
| `CredentialSyncSteps.BeginOfNew` | src/sharing/accountSharingService.ts:1575-1593 | a new relationship sends its first update exactly when it is due |
| `CredentialSyncSteps.ReadOutcome` | src/sharing/accountSharingService.ts:1621-1662 | only a stopped relationship is cleared; a read fails exactly when a save fails or a changed export may not be published, ends quietly only with the export recorded or waiting, and sends only the due update of the export |
| `CredentialSyncSteps.AdoptOutcome` | src/sharing/accountSharingService.ts:1626-1639 | reconciling any record with any answer: its own event is taken over, a newer version drops a pending update that is not newer still, anything else changes nothing |
| `CredentialSyncSteps.ReconciledRecord` | src/sharing/accountSharingService.ts:1626-1639 | an update stops being pending exactly when the answer carries it, and then its snapshot is the recorded one; an older answer leaves it pending |
| `CredentialSyncSteps.NewUpdateNamesExport` | src/sharing/accountSharingService.ts:1641-1719 | an update is named only for a changed export, and it is exactly that export without refresh tokens, under the next version and an event of its own |
| `CredentialSyncSteps.FinishedReadIsCurrent` | src/sharing/accountSharingService.ts:1660-1662 | a read that ends the publish with nothing pending leaves the current export at the relay at the recorded version |
| `CredentialSyncSteps.StepSendsDue` | src/sharing/accountSharingService.ts:1580-1674 | every write put on the wire is the pending update, no earlier than it is due |
| `CredentialSyncSteps.WriteOutcome` | src/sharing/accountSharingService.ts:1675-1682 | a stored write is recorded with its version and fingerprint; when the save after it fails the same update is put back for one more attempt |
| `CredentialSyncSteps.GiveUpOutcome` | src/sharing/accountSharingService.ts:1679-1730 | giving up on a write keeps the same update pending with one more attempt, giving up on a read changes nothing |
| `CredentialSyncSteps.RelayAnswers` | src/sharing/accountSharingService.ts:1618-1674 | what the relay is taken to do: a repeat is answered with what is stored, a newer version replaces it, anything else is refused |
| `CredentialSyncSteps.ProcessOutcome` | src/sharing/accountSharingService.ts:1017-1050 | an answer the follower read is processed once: applied, recorded and acknowledged next; or not applied and nothing recorded; or, when older, at most acknowledged again |
| `CredentialSyncSteps.StoppedStays` | src/sharing/accountSharingService.ts:1621-1625 | a stopped relationship stays stopped and keeps its snapshot |
| `CredentialSyncSteps.ClearedExactlyWhen` | src/sharing/accountSharingService.ts:1621-1625 | the primary is cleared exactly by reading that the relationship was stopped, and then sends nothing any more |
| `CredentialSyncSteps.AcknowledgementOutcome` | src/sharing/accountSharingService.ts:1820-1827 | the relay records a delivered acknowledgement, the follower only an answered one, and neither goes back |
| `CredentialSyncSteps.RunAcknowledgesInOrder` | src/sharing/accountSharingService.ts:1020-1050 | in every run the relay knows every acknowledgement the follower counts on, and none of a version the follower has not applied |
| `CredentialSyncFollower.SyncFollower.ApplySnapshot` | src/sharing/accountSharingService.ts:1733-1796 | a conflict writes nothing; otherwise known accounts are updated up to the first that belongs to another relationship, and then new ones are imported; it succeeds exactly when all are written |
| `CredentialSyncFollower.SyncFollower.UpdateKnown` | src/sharing/accountSharingService.ts:1757-1782 | accounts the follower has are updated in turn up to the first that belongs to another relationship |
| `CredentialSyncFollower.SyncFollower.ImportNew` | src/sharing/accountSharingService.ts:1784-1794 | new accounts are imported in turn as far as the import manages |
| `CredentialSyncFollower.OrderIsComplete` | src/sharing/accountSharingService.ts:1752-1794 | known accounts first and new ones afterwards is every account of the snapshot once and no other |
| `CredentialSyncFollower.WritesStopWhere` | src/sharing/accountSharingService.ts:1741-1796 | writing stops before the first account on a conflict, at the first known account that belongs to another relationship, or where the import fails |
| `CredentialSyncFollower.WritesAllExactlyWhen` | src/sharing/accountSharingService.ts:1741-1796 | everything is written exactly without a conflict, without a known account of another relationship, and when the import manages all new ones |
| `CredentialSyncFollower.SyncFollower.Poll` | src/sharing/accountSharingService.ts:1017-1050 | an older record is only re-acknowledged, a newer one is applied and recorded, a failed apply changes neither version nor acknowledgement |
| `CredentialSyncFollower.SyncFollower.OnAcknowledged` | src/sharing/accountSharingService.ts:1820-1827 | the confirmed version is kept unless a newer one was confirmed already |
| `OwnerLease.OwnerSharing.BeginShareAccounts` | src/sharing/accountSharingService.ts:697-729 | a share is begun only with a trusted peer and for existing, unshared accounts with credentials that are not synchronised and can be switched away from; their flags are captured |
| `OwnerLease.OwnerSharing.RemoveFromBalancePool` | src/storage/accounts.ts:1511-1533 | in a later step all of them leave the pool, or the share ends when one was removed |
| `OwnerLease.OwnerSharing.AcceptShareAccounts` | src/sharing/accountSharingService.ts:760-784 | the lease is kept, the accounts are marked in turn and then hidden together |
| `OwnerLease.OwnerSharing.RejectShareAccounts` | src/sharing/accountSharingService.ts:753-758 | a failed transfer restores pool membership |
| `OwnerLease.OwnerSharing.FinalizeOutgoingAccounts` | src/sharing/accountSharingService.ts:2395-2430 | targets that carry the lease's marker are restored as far as no step fails, missing and unreadable ones are crossed off, others are left alone; the lease state follows |
| `OwnerLease.OwnerSharing.RestoreOwnerAccountState` | src/sharing/accountSharingService.ts:2432-2443 | the captured visibility and pool flags are put back; hiding, showing and pooling may each fail without stopping the rest |
| `OwnerLease.OwnerSharing.HideAccounts` | src/storage/accounts.ts:1615-1642 | all selected accounts are hidden and out of the pool, or none when one is missing |
| `OwnerLease.OwnerSharing.UnhideAccounts` | src/storage/accounts.ts:1648-1687 | all selected accounts are shown and in the pool unless shared out, or none when one is missing; one that is visible and pooled already is left alone |
| `OwnerLease.OwnerSharing.SetBalancePoolMembership` | src/storage/accounts.ts:1491-1509 | refused for a shared-out account, otherwise membership without hidden or virtual accounts |
| `OwnerLease.RestoresExactlyWhen` | src/sharing/accountSharingService.ts:2432-2443 | a restore gives back the captured flags exactly when they were not both hidden and in the pool and the steps that fail do not matter |
| `OwnerLease.StepKeepsInv` | src/sharing/accountSharingService.ts:697-784 | sharing, returning, failing and every owner action keep markers, leases and captured flags consistent |
| `OwnerLease.RunKeepsInv` | src/sharing/accountSharingService.ts:2418-2430 | in every run a lease that has not failed is returned exactly when none of its accounts is outstanding |
| `OwnerLease.EndsAsCaptured` | src/sharing/accountSharingService.ts:2395-2443 | after any events since it was read for the share, a returned account is not outstanding, has no marker exactly when it could be read, and then has the flags it was read with exactly when the steps that fail do not matter |
| `OwnerLease.LeavesStrayExactlyWhen` | src/sharing/accountSharingService.ts:2406-2411 | finalising leaves a marker without an outstanding account exactly when it cannot read a target that still carries the marker |
| `OwnerLease.RunLeavesNoStray` | src/sharing/accountSharingService.ts:2395-2430 | in every run whose reads succeed no account of a returned lease carries its marker |
| `OwnerLease.RejectUndoesBegin` | src/sharing/accountSharingService.ts:712-758 | a share that fails after the accounts were withdrawn leaves everything as it was |
| `OwnerLease.AcceptedAreWithdrawn` | src/sharing/accountSharingService.ts:780-783 | an accepted share leaves its accounts marked, hidden and out of the pool |
| `OwnerLease.SharedStaysOutOfPool` | src/storage/accounts.ts:1491-1509 | no event puts an account back into the pool while it is shared |
| `OwnerLease.TwoReturnsAreOne` | src/sharing/accountSharingService.ts:2395-2430 | two partial returns have the effect of one return of both |
| `OwnerLease.BatchesAreOneReturn` | src/sharing/accountSharingService.ts:2264-2309 | any batching and repetition of partial returns has the effect of one return of their union |
| `OwnerLease.LeaseEndsExactlyWhen` | src/sharing/accountSharingService.ts:2395-2430 | a return of everything ends the lease exactly when each outstanding account is gone, still carries its marker or cannot be read |
| `OwnerLeaseOutcomes.ShareBeginsExactlyWhen` | src/sharing/accountSharingService.ts:697-729 | a share begins exactly for one to fifty different saved, unshared accounts with credentials, a trusted peer and accounts that are neither synchronised nor stuck; it captures their flags and changes nothing else |
| `OwnerLeaseOutcomes.WithdrawOutcome` | src/storage/accounts.ts:1511-1533 | the accounts of a share leave the pool together, or the share ends |
| `OwnerLeaseOutcomes.AcceptOutcome` | src/sharing/accountSharingService.ts:760-784 | an accepted share becomes a lease over its accounts with their captured flags; when one was removed meanwhile none is hidden |
| `OwnerLeaseOutcomes.MarkedUpToMissing` | src/sharing/accountSharingService.ts:779-781 | accounts are marked in turn up to the first that was removed |
| `OwnerLeaseOutcomes.RejectOutcome` | src/sharing/accountSharingService.ts:753-758 | a failed share gives back pool membership only, and only to accounts that may have it |
| `OwnerLeaseOutcomes.FinalizeRestores` | src/sharing/accountSharingService.ts:2395-2417 | finalising restores exactly the accounts concerned that carry the marker and can be read |
| `OwnerLeaseOutcomes.FinalizeCrossesOff` | src/sharing/accountSharingService.ts:2412-2430 | an account stays outstanding exactly when the return is not for it or it can be read without the marker; the state follows, and no other lease changes |
| `OwnerLeaseOutcomes.RestoredOutcome` | src/sharing/accountSharingService.ts:2432-2443 | what a restore does to each flag, step by step, when some steps fail |
| `OwnerLeaseOutcomes.ReturnOutcome` | src/sharing/accountSharingService.ts:2264-2309 | a return is taken only for accounts the lease named, and they are remembered for confirmation |
| `OwnerLeaseOutcomes.FailedOutcome` | src/sharing/accountSharingService.ts:2204-2209 | a failed transfer fails its lease and restores everything unless the receiver got the accounts |
| `OwnerLeaseOutcomes.CancelledOutcome` | src/sharing/accountSharingService.ts:2375-2394 | a share cancelled because it was never confirmed fails its lease and restores everything |
| `OwnerLeaseOutcomes.ConfirmOutcome` | src/sharing/accountSharingService.ts:2311-2324 | a confirmation only forgets what it confirms |
| `OwnerLeaseOutcomes.VisibilityOutcome` | src/storage/accounts.ts:1615-1687 | hidden accounts are out of the pool, shown ones in it unless shared; virtual accounts and markers are left alone |
| `OwnerLeaseOutcomes.MembershipOutcome` | src/storage/accounts.ts:1491-1509 | a shared account cannot join the pool, a hidden or virtual one does not, any other joins or leaves as asked |
| `OwnerLeaseOutcomes.SelectionOutcome` | src/storage/accounts.ts:1615-1642 | an operation on a selection changes exactly the selected accounts, and none when one is missing |
| `OwnerLeaseOutcomes.OwnerKeepsOthers` | src/storage/accountMutations.ts:114-130 | adding an account never replaces one, and removing one touches no other |
| `OwnerLeaseOutcomes.ReplacePoolOutcome` | src/storage/accounts.ts:1451-1489 | replacing the pool is refused when a target is missing or fewer than two may join; otherwise exactly the targets that may join are in it |
| `TokenStore.SecretStore.UpdateTokens` | src/storage/accounts.ts:697-724 | the write under the lease: dropped when the expected pair is no longer stored, otherwise the normalised pair |
| `TokenStore.CompareAndSetIsGuarded` | src/storage/accounts.ts:697-724 | a write that changes anything takes effect exactly when the expected pair is stored |
| `TokenStore.CompareAndSetStores` | src/storage/accounts.ts:697-724 | a write stores its pair exactly when nothing is expected or the stored pair agrees with the expected one; a follower keeps no refresh token, and the account id falls back to the account's own |
| `TokenStore.FirstWriteWins` | src/storage/accounts.ts:697-724 | of any number of writers that expect the stored pair only the first is stored, as long as it brings another pair |
| `TokenRefresh.StepKeepsInv` | src/auth/tokenRefreshCoordinator.ts:165-279 | every step of every operation and every replacement, by whatever pair, keeps the protocol's invariant while the lease is exclusive |
| `TokenRefresh.SaveKeepsInv` | src/auth/tokenRefreshCoordinator.ts:246-253 | the save keeps the invariant: neither the stored pair nor any working pair holds a spent refresh token |
| `TokenRefresh.NeverPresentedAgain` | src/auth/tokenRefreshCoordinator.ts:165-279 | a refresh token whose rotation was received and saved is never presented to the provider again, unless a replacement brings it back |
| `TokenRefresh.StoreStaysUnspentExactlyWhen` | src/storage/accounts.ts:1074-1087 | the stored refresh token is unspent all along a run exactly when no replacement brings a spent one back |
| `TokenRefresh.SpentIsPresentedExactlyWhen` | src/auth/tokenRefreshCoordinator.ts:200-243 | whenever the lease is free, some continuation presents a spent token exactly when the stored one is spent |
| `TokenRefresh.RestoredPairReplays` | src/storage/accounts.ts:536-551 | a run in which restoring a rotated pair makes its token go out again |
| `TokenRefresh.StoreDescendsFromLatestReplacement` | src/storage/accounts.ts:697-724 | the stored pair is always the latest replacement or was rotated from a pair equal to it, even if leases expire and if a pair is replaced by itself or by an earlier one |
| `TokenRefresh.OlderRefreshesNeverOverwrite` | src/storage/accounts.ts:1070-1087 | a replacement that no answered refresh started from is only overwritten by a refresh answered later |
| `TokenRefresh.SaveTakesEffectOnlyOnItsOwnPair` | src/auth/tokenRefreshCoordinator.ts:246-253 | a save changes the store exactly when the pair it was computed from is still there, and then the stored pair can be refreshed again |
| `TokenRefresh.SupersededReplyIsDropped` | src/auth/tokenRefreshCoordinator.ts:242-245 | a reply that arrives after the process saw a replacement stores nothing and hands back what is stored |
| `TokenRefresh.OneOperationPerGeneration` | src/auth/tokenRefreshCoordinator.ts:133-163 | a process runs at most one operation per generation, and callers join one that was started after the last invalidation in their process |
| `TokenRefresh.ExpiredLeaseReplays` | src/auth/tokenRefreshCoordinator.ts:200-253 | if the lease may expire while held, a saved token is presented again: the exclusive lease is needed |
| `TokenRefreshOutcomes.ReturnsWhatItReadLast` | src/auth/tokenRefreshCoordinator.ts:165-279 | in every run, with exclusive leases or without, the pair an operation returns is the one it read last |
| `TokenRefreshOutcomes.ReturnedPairIsUnspent` | src/auth/tokenRefreshCoordinator.ts:200-279 | in every clean run with an exclusive lease, an operation that went for the lease, or finds its credentials replaced, never returns a pair with a spent refresh token |
| `TokenRefreshOutcomes.DecisionsFollowOneRule` | src/auth/tokenRefreshCoordinator.ts:176-237 | before the lease, without it and under it: a pair that needs no refresh, and was changed if one is forced, is returned; otherwise it is renewed if possible; otherwise a valid access token may do |
| `TokenRefreshOutcomes.LostReplyOutcome` | src/auth/tokenRefreshCoordinator.ts:254-269 | a refused or lost request falls back, reconciles a reused token, or fails |
| `TokenRefreshOutcomes.ReconcilingOutcome` | src/auth/tokenRefreshCoordinator.ts:270-275 | reconciling returns what is stored exactly when it is another pair than the refused one |
| `TokenRefreshOutcomes.SupersededHandsBackStored` | src/auth/tokenRefreshCoordinator.ts:177-257 | an operation whose process replaced the credentials stops at its next step, gives up the lease and hands back what is stored |
| `TokenRefreshOutcomes.RotationOutcome` | src/auth/tokenRefreshCoordinator.ts:239-242 | a token goes out only from the holder of the lease, and the answer keeps it when it names no new one |
| `TokenRefreshOutcomes.WantedReplyIsSaved` | src/auth/tokenRefreshCoordinator.ts:246-250 | a reply that is still wanted is saved with its own tokens, under its account id or else the old pair's |
| `TokenRefreshOutcomes.ReplacementSupersedes` | src/auth/tokenRefreshCoordinator.ts:53-62 | a replacement supersedes every operation its process started and leaves other processes and the store alone |
| `TokenRefreshOutcomes.ReplacementIsStored` | src/storage/accounts.ts:1074-1087 | a replacement ends with exactly its tokens stored |
| `TokenRefreshOutcomes.CallsShareOneOperation` | src/auth/tokenRefreshCoordinator.ts:133-163 | a call joins the operation in flight or starts a current one with its own options |
| `TokenRefreshOutcomes.FinishedIsNotJoined` | src/auth/tokenRefreshCoordinator.ts:145-160 | a finished operation is not joined any more, and clearing it leaves a later one alone |
| `GenerationGuard.QuotaService.RefreshQuota` | src/services/quota.ts:82-107 | nothing for accounts without a quota; otherwise prune, then a cache hit, a shared task or a new one started at the current generation |
| `GenerationGuard.QuotaService.PruneQuotaCache` | src/services/quota.ts:706-713 | exactly the entries younger than the time limit stay |
| `GenerationGuard.QuotaService.OnUsage` | src/services/quota.ts:163-168 | a result is cached only at the generation its task started with |
| `GenerationGuard.QuotaService.Guard` | src/services/quota.ts:180-182 | the stale mark compares the captured with the current generation |
| `GenerationGuard.QuotaService.ClearInFlight` | src/services/quota.ts:184-191 | a finishing task removes the in-flight entry only if it is its own |
| `GenerationGuard.QuotaService.ClearQuotaCacheForAccount` | src/services/quota.ts:720-724 | a new generation, without cached result and in-flight entry |
| `GenerationGuard.RefreshCoordinator.EnsureFreshTokens` | src/auth/tokenRefreshCoordinator.ts:133-163 | join the task in flight for the key or start one at its generation |
| `GenerationGuard.RefreshCoordinator.InvalidateFreshAccountTokenRefresh` | src/auth/tokenRefreshCoordinator.ts:53-62 | a new generation for the account's key, and no task in flight |
| `GenerationGuard.EntriesAreCurrent` | src/services/quota.ts:90-191 | in every interleaving each in-flight and each cached entry was started at its key's current generation |
| `GenerationGuard.FinishingSparesNewerEntries` | src/services/quota.ts:184-191 | a finishing task never removes a newer task's entry |
| `GenerationGuard.GenerationCountsInvalidations` | src/services/quota.ts:720-728 | a key's generation is the number of its invalidations |
| `GenerationGuard.StaleExactlyWhenSuperseded` | src/services/quota.ts:180-182 | a result is marked stale exactly when its key was invalidated between start and completion |
| `GenerationOutcomes.RefreshOutcome` | src/services/quota.ts:82-107 | an unforced call gets a result cached less than 30 seconds ago, otherwise joins the task in flight, otherwise starts one; older results are dropped and nothing else changes |
| `GenerationOutcomes.HitIsFresh` | src/services/quota.ts:82-95 | in every interleaving a cached result that is handed out was loaded less than 30 seconds ago by a task for its key that was not superseded |
| `GenerationOutcomes.FinishBodyOutcome` | src/services/quota.ts:163-168 | a result is cached exactly when its key was not invalidated since its task started |
| `GenerationOutcomes.InvalidateOutcome` | src/services/quota.ts:720-728 | an invalidated key loses its cached result and its task in flight; other keys keep theirs |
| `GenerationOutcomes.TaskAdvances` | src/services/quota.ts:107-191 | a task runs, then its result is loaded, then it settles as stale exactly when its key is at another generation |
| `GenerationOutcomes.CleanupOutcome` | src/services/quota.ts:184-191 | a finished task takes exactly its own entry out |
| `TokenHighWater.StepAccounts` | src/services/localUsageAnalytics.ts:1737-1809 | outside resets the mark never falls, and an emitted total is exactly its rise |
| `TokenHighWater.GrowthEmitsExactlyWhen` | src/services/localUsageAnalytics.ts:1778-1785 | growth emits a delta exactly when the record grows coherently from a complete mark or the per-turn record accounts for it |
| `TokenHighWater.GrowthEmits` | src/services/localUsageAnalytics.ts:1778-1785 | growth emits the five differences when the record grows coherently from a complete mark, and otherwise exactly the five counters of the per-turn record |
| `TokenHighWater.GrowthMarks` | src/services/localUsageAnalytics.ts:1787-1806 | after growth the mark shows the complete record, or a complete mark plus the per-turn record, or only a total that is never subtracted from again |
| `TokenHighWater.RepetitionIsSilent` | src/services/localUsageAnalytics.ts:1770-1772 | a record that repeats the mark's total changes nothing |
| `TokenHighWater.PerTurnRecordIsAdded` | src/services/localUsageAnalytics.ts:1744-1755 | a payload without a cumulative counter emits its per-turn record and raises all five counters of the mark by it |
| `TokenHighWater.NothingReported` | src/services/localUsageAnalytics.ts:1744-1747 | a payload without any usage changes nothing |
| `TokenHighWater.EmittedAccountsForRises` | src/services/localUsageAnalytics.ts:1737-1809 | over every run, resets included, emitted totals plus silent growth are the rises between resets plus the per-turn records of the resets |
| `TokenHighWater.SegmentNeverExceedsItsRise` | src/services/localUsageAnalytics.ts:1737-1809 | between two resets no more is emitted than the mark rises by |
| `TokenHighWater.DeltasAccountForTheMark` | src/services/localUsageAnalytics.ts:1737-1809 | without resets, emitted totals plus silent growth make up the final mark |
| `TokenHighWater.DeltasNeverExceedTheMark` | src/services/localUsageAnalytics.ts:1737-1809 | without resets the emitted totals never exceed the final mark, and reach it exactly when every growing step emitted |
| `TokenHighWater.NoResetsExactlyWhen` | src/services/localUsageAnalytics.ts:1757-1772 | a stream of cumulative records has no resets exactly when the reported total never falls |
| `TokenHighWater.CoherentStreamIsExact` | src/services/localUsageAnalytics.ts:1856-1887 | when each complete report repeats the one before or grows coherently from it, the deltas sum to the five counters of the last report |
| `TokenHighWater.DuplicateIsSilent` | src/services/localUsageAnalytics.ts:1757-1809 | an adjacent duplicate of any cumulative snapshot emits nothing and changes nothing |
| `TokenHighWater.DuplicateIsSilentExactlyWhen` | src/services/localUsageAnalytics.ts:1744-1809 | repeating any record changes nothing exactly when it has a cumulative total or no usage at all |
| `TokenHighWater.PerTurnRecordCountsTwice` | src/services/localUsageAnalytics.ts:1744-1755 | a repeated record without a cumulative counter is counted again |
| `TokenHighWater.ResetRestarts` | src/services/localUsageAnalytics.ts:1757-1772 | after a reset the mark restarts at the reported counters, or at the total alone, and only the per-turn record is emitted |
| `SubagentClassifier.OnePassIsTwoPass` | src/services/localUsageAnalytics.ts:690-826 | on every list of marks the one-pass classifier records what the two-pass specification keeps: bursts whole or not at all, nothing before a trigger, only what follows the boundary when unopened |
| `SubagentClassifier.OnePassIsTwoPassWhenCut` | src/services/localUsageAnalytics.ts:828-833 | when reading a file fails, what was recorded until then is what the specification keeps of a cut file |
| `SubagentClassifier.CutKeepsPrefix` | src/services/localUsageAnalytics.ts:811-833 | a failure to read on only loses what would have been recorded last |
| `SubagentClassifier.KeptDropsOneBlock` | src/services/localUsageAnalytics.ts:690-826 | classification removes one contiguous block: order is kept and nothing is recorded twice |
| `SubagentClassifier.FirstOpening` | src/services/localUsageAnalytics.ts:705-801 | the first mark that opens a spawned session, and none before it does |
| `SubagentClassifier.FirstBoundary` | src/services/localUsageAnalytics.ts:717-728 | the first task_started then turn_context boundary, and none before it |
| `SubagentClassifier.ScanSession` | src/services/localUsageAnalytics.ts:592-833 | the event loop over one file records exactly what the specification keeps of its marks, complete or cut |
| `SubagentClassifier.SessionScan.OnSessionMeta` | src/services/localUsageAnalytics.ts:690-703 | only the first session record decides whether the session was spawned |
| `SubagentClassifier.SessionScan.OnTrigger` | src/services/localUsageAnalytics.ts:705-715 | a trigger opens the session and drops what was buffered |
| `SubagentClassifier.SessionScan.OnUsage` | src/services/localUsageAnalytics.ts:776-808 | one usage event: buffered in the startup window, dropped with a dense burst, opening the session, or recorded |
| `SubagentClassifier.SessionScan.Finish` | src/services/localUsageAnalytics.ts:811-826 | at the end of the file buffered usage is recorded when it turned out to be the child's own |
| `SubagentRules.OwnSessionKeepsAll` | src/services/localUsageAnalytics.ts:690-703 | a session that was not spawned keeps all its usage |
| `SubagentRules.OpenedKeeps` | src/services/localUsageAnalytics.ts:705-808 | a spawned session that opens keeps everything from there on, and what came between unless a trigger opened it or that is a burst of 16 or more |
| `SubagentRules.UnopenedKeeps` | src/services/localUsageAnalytics.ts:811-826 | one that never opens and never starts a task keeps its usage when there are fewer than 16 |
| `SubagentRules.StartedKeeps` | src/services/localUsageAnalytics.ts:717-728 | one that started a task without opening keeps what follows the first turn after that |
| `SubagentRules.CutUnopenedKeeps` | src/services/localUsageAnalytics.ts:828-833 | when reading fails before it opens, nothing after the spawn is kept |
| `SessionReading.MarksAreLines` | src/services/localUsageAnalytics.ts:690-775 | the marks are read off the lines in order: each comes from a line of its own and says what it says, a usage under the model named last before it, and every other line cannot affect usage |
| `SessionReading.RecordedComesFromLines` | src/services/localUsageAnalytics.ts:586-847 | everything a scan records is the usage of one line, with its time, its windows, what its counters emitted there and the model named last before it, in order and no line twice |
| `SessionReading.UnscannedCountsNowhere` | src/services/localUsageAnalytics.ts:751-762 | a time that is not scanned is in the future, or nothing at that time counts towards any row |
| `SessionReading.ScannedLiesIn` | src/services/localUsageAnalytics.ts:751-762 | a time that is scanned lies in a scanned period and not in the future |
| `UsageLedger.Ledger.RecordUsage` | src/services/localUsageAnalytics.ts:606-665 | one observation is entered into every table it belongs to |
| `UsageLedger.Ledger.RecordAccountUsage` | src/services/localUsageAnalytics.ts:613-633 | attributed usage is credited to each quota window and once to the lifetime window |
| `UsageLedger.Ledger.RecordShortUsage` | src/services/localUsageAnalytics.ts:635-644 | recent usage enters its existing 3-hour bucket, and its bucket-by-model row in any case |
| `UsageLedger.Ledger.RecordLocalUsage` | src/services/localUsageAnalytics.ts:646-664 | usage on an allowed date enters total, day, model and day-by-model rows together |
| `UsageLedger.AddAccountTokenUsage` | src/services/localUsageAnalytics.ts:1494-1526 | each named quota window is created or raised, with its model row, count and last observation |
| `UsageLedger.RecordAdds` | src/services/localUsageAnalytics.ts:606-665 | an observation is added to each row it belongs to, as often as it belongs there, and to no other |
| `UsageLedger.RowsAreSlices` | src/services/localUsageAnalytics.ts:606-665 | every row of every table shows exactly the sum of its slice of the observations |
| `UsageLedger.CountsAreSlices` | src/services/localUsageAnalytics.ts:657-664 | the event counts of the scan and of each day count exactly their observations |
| `UsageLedger.WindowCountsAreSlices` | src/services/localUsageAnalytics.ts:1507-1525 | each account window counts exactly the observations credited to it |
| `UsageLedger.SelectedIsPrimary` | src/services/localUsageAnalytics.ts:1440-1444 | the window of the lifetime table is the first hourly one, or else the first |
| `UsageLedgerRows.AttributedIsCounted` | src/services/localUsageAnalytics.ts:613-633 | the scan counts as attributed exactly the observations of some account, recent enough and with a quota window |
| `UsageLedgerRows.BucketCountsAreSlices` | src/services/localUsageAnalytics.ts:635-641 | each 3-hour bucket counts exactly its observations |
| `UsageLedgerRows.WindowsAreFiled` | src/services/localUsageAnalytics.ts:1494-1526 | in both account tables a window is listed exactly when something counts towards it, under its own key, with as many events as count and the time of the latest |
| `UsageLedgerRows.ListedExactlyWhen` | src/services/localUsageAnalytics.ts:1643-1729 | a model, day-by-model or bucket-by-model row is listed exactly when an observation counts towards it |
| `UsageLedger.RecordKeepsBalance` | src/services/localUsageAnalytics.ts:606-665 | recording keeps all tables in agreement, from any state in which they agree |
| `UsageLedger.BooksBalance` | src/services/localUsageAnalytics.ts:1643-1729 | after any observations the total equals the sums of day, model and day-by-model rows, day and model rows equal their cells, counts agree, and account windows equal their model rows, in all five components |
| `UsageLedger.Scan` | src/services/localUsageAnalytics.ts:606-665 | the books of a whole scan balance and each row is its slice |
| `UsageScan.ScanLocalUsage` | src/services/localUsageAnalytics.ts:586-847 | over all files, read to their end or not, the books balance and hold what the classifier keeps of each file, attributed by file and time |
| `UsageScan.KeptIsEmitted` | src/services/localUsageAnalytics.ts:745-826 | whatever the classifier drops, a file contributes no more than its counters emitted |
| `UsageScan.NeverCountsMoreThanTheMarks` | src/services/localUsageAnalytics.ts:586-847 | for any sessions, any scanned period and wherever reading fails, the grand total never exceeds the final marks of the files, unless a counter goes backwards |
| `UsageScan.CountsExactlyTheCounters` | src/services/localUsageAnalytics.ts:586-847 | for sessions of their own with coherent counters inside the scanned dates the grand total is exactly the sum of the final counters, in all five components |
| `UsageTables.RowsAndCellsHaveOneSum` | src/services/localUsageAnalytics.ts:1115-1120 | when each row is the sum of its cells, rows and cells have the same sum |
| `UsageTables.ModelsAndCellsHaveOneSum` | src/services/localUsageAnalytics.ts:1122-1130 | the same for model rows |
| `UsageTables.SumOfAddedTables` | src/services/localUsageAnalytics.ts:1285-1292 | adding one table to another adds their sums |
| `SnapshotMerge.MergeLocalUsageSnapshots` | src/services/localUsageAnalytics.ts:976-1082 | the merge replaces scanned dates and buckets, keeps retained cached ones and recomputes totals; a completely empty scan replaces everything |
| `SnapshotMerge.SumUsageRows` | src/services/localUsageAnalytics.ts:1115-1120 | the total and event count of the retained rows |
| `SnapshotMerge.AggregateUsageModels` | src/services/localUsageAnalytics.ts:1122-1130 | one row per model that has cells, holding their sum |
| `SnapshotMerge.MergeIsConsistent` | src/services/localUsageAnalytics.ts:976-1082 | if day rows equal their cells before, they do after, and totals, model rows and event count equal the sums of the retained rows |
| `SnapshotMerge.ScannedReplacesCached` | src/services/localUsageAnalytics.ts:1003-1020 | a scanned date shows what was scanned, any other retained date what was cached, and nothing else appears |
| `SnapshotMerge.ScannedBucketsReplaceCached` | src/services/localUsageAnalytics.ts:1022-1050 | the same for 3-hour buckets and their model rows |
| `SnapshotMerge.MergeIsIdempotent` | src/services/localUsageAnalytics.ts:976-1082 | merging the same scan again at the same time changes nothing |
| `SnapshotMerge.ScansMatchCells` | src/services/localUsageAnalytics.ts:839-862 | every scan's tables meet the condition under which merging is consistent |
| `SnapshotMerge.RunStaysConsistent` | src/services/localUsageAnalytics.ts:398-424 | the cached snapshot stays consistent over any run of merges |
| `UsageCacheRules.RetainedExactlyWhen` | src/services/localUsageAnalytics.ts:1132-1140 | the last 370 dates, today included, are retained |
| `UsageCacheRules.FirstMergeShows` | src/services/localUsageAnalytics.ts:1003-1058 | a first merge shows the retained part of the scan |
| `UsageCacheRules.EmptyScanClears` | src/services/localUsageAnalytics.ts:982-1001 | a scan that found nothing at all leaves nothing of the cached snapshot |
| `UsageCacheRules.DayModelRowComesFrom` | src/services/localUsageAnalytics.ts:1012-1020 | a day-by-model row comes from the scan, or was cached for a date that was not scanned; either way it is retained |
| `UsageCacheRules.BucketModelRowComesFrom` | src/services/localUsageAnalytics.ts:1039-1050 | a bucket-by-model row comes from the scan, or was cached for a retained bucket that was not scanned |
| `UsageCoverage.UsageService.ScanAndPersist` | src/services/localUsageAnalytics.ts:398-424 | rows are merged with those in memory, then the cache file is read, then nothing is kept if what is in memory is newer than the merge, and otherwise the merge and the extended claim |
| `UsageCoverage.UsageService.SyncSnapshotFromCache` | src/services/localUsageAnalytics.ts:301-321 | the cache file replaces what is in memory exactly when it was calculated later |
| `UsageCoverage.RequiredIsEarliest` | src/services/localUsageAnalytics.ts:2074-2092 | the required start is the earliest among the enabled daily ranges, and exists exactly when one is enabled |
| `UsageCoverage.CoveredExactlyWhen` | src/services/localUsageAnalytics.ts:1084-1104 | after a scan every retained date of the claimed interval has a row exactly when the scan adjoins the earlier claim or spans the retention period |
| `UsageCoverage.ExtendedCoveredExactlyWhen` | src/services/localUsageAnalytics.ts:1084-1104 | extending a claim by a scan keeps it true exactly when the rows in memory before the scan are those of the claim |
| `UsageCoverage.DailyRangeAdjoins` | src/services/localUsageAnalytics.ts:513-526 | with a daily range enabled a scan always reaches back to the earlier claim |
| `UsageCoverage.RequiredDatesHaveRows` | src/services/localUsageAnalytics.ts:513-526 | after a merge every date from a required start to today has a row, whichever claim is kept with it |
| `UsageCoverage.TurnCoveredExactlyWhen` | src/services/localUsageAnalytics.ts:398-424 | one scan or one reading of the cache file keeps the claim true unless a file slips in during the scan whose claim the rows in memory do not match |
| `UsageCoverage.RunIsCoveredExactlyWhen` | src/services/localUsageAnalytics.ts:398-424 | with a daily range at every scan, dates that never go back and true claims in the files read, the claim is true all along a run exactly when no file slips in during a scan whose claim the rows in memory do not match |
| `UsageCoverage.RunIsCovered` | src/services/localUsageAnalytics.ts:1084-1104 | under the same hypotheses, if no such file slips in, the claim holds after the run |
| `UsageCoverage.UndisturbedRunIsCovered` | src/services/localUsageAnalytics.ts:373-396 | in particular when no other process writes the cache file during a scan |
| `UsageCoverage.SlippedClaimLosesRows` | src/services/localUsageAnalytics.ts:408-420 | a scan during which a file with a true claim is written, and after which that claim is false |
| `UsageCoverage.ShortRangesLeaveGap` | src/services/localUsageAnalytics.ts:513-526 | with only short ranges the claim can bridge days that were never scanned |
| `UsageCacheRules.RangesStart` | src/services/localUsageAnalytics.ts:2074-2110 | the daily ranges start 7 and 14 days back, on the Monday six weeks before this week's, and on the first of the month six months before |
| `UsageCacheRules.ScanReachesBack` | src/services/localUsageAnalytics.ts:513-526 | a scan reads back exactly to the first required date, to the last claimed one or for four days, whichever the claim leaves open, and further only by the default period |
| `UsageCacheRules.ShortScanReachesBack` | src/services/localUsageAnalytics.ts:525-526 | without a daily range a scan reads four days, or the default period |
| `UsageCacheRules.ClaimSpans` | src/services/localUsageAnalytics.ts:1084-1104 | a scan makes rows for its dates, and the claim spans from the earlier start to the later end |
| `UsageCacheRules.SyncTakesLater` | src/services/localUsageAnalytics.ts:301-321 | the cache file is taken exactly when it was calculated later |
| `UsageCacheRules.ScanAgainstFile` | src/services/localUsageAnalytics.ts:398-424 | a scan that ends after the file was calculated keeps its own rows and extends the file's claim; one that ends before gives way to the file |
| `UsageCacheRules.ScanWithoutFile` | src/services/localUsageAnalytics.ts:408-424 | without a later file a scan gives way only to what was calculated after it |
| `LifetimeWindows.AccountWindows.Merge` | src/services/localUsageAnalytics.ts:1235-1262 | a window replaces or keeps the first near entry, or is set under its own key |
| `LifetimeWindows.MergeSnapshots` | src/services/localUsageAnalytics.ts:1192-1215 | saved and scanned windows are merged in order into an empty map |
| `LifetimeWindows.LowersExactlyWhen` | src/services/localUsageAnalytics.ts:1235-1262 | a merge lowers the account total exactly when no entry is near and the candidate's own key holds a larger one |
| `LifetimeWindows.MergedHoldsLargest` | src/services/localUsageAnalytics.ts:1192-1262 | with clusters there is one entry per cluster, holding the largest total seen there |
| `LifetimeWindows.MergedSeesLatest` | src/services/localUsageAnalytics.ts:1256-1261 | with clusters each entry shows the latest observation of its cluster |
| `LifetimeWindows.OrderDoesNotMatter` | src/services/localUsageAnalytics.ts:1192-1215 | with clusters the account total depends on which windows were merged, not on order or repetition |
| `LifetimeWindows.MergingAgainChangesNothing` | src/services/localUsageAnalytics.ts:1192-1215 | with clusters, merging saved windows with windows already merged changes neither total nor number |
| `LifetimeWindows.NeverLowers` | src/services/localUsageAnalytics.ts:1192-1215 | with clusters, merging more windows never lowers the account total |
| `LifetimeWindows.DriftOverwrites` | src/services/localUsageAnalytics.ts:1246-1254 | without clusters a drifting reset can reuse a key and lower the total |
| `LifetimeWindows.MergedWindowsAreConsistent` | src/services/localUsageAnalytics.ts:1256-1261 | merging keeps every window equal to the sum of its model rows, clusters or not |
| `LifetimeWindows.AggregateLifetime` | src/services/localUsageAnalytics.ts:1273-1296 | totals, model rows, number of windows and last observation over all windows |
| `LifetimeWindows.AggregateIsConsistent` | src/services/localUsageAnalytics.ts:1273-1296 | the aggregate equals the sum of its model rows |
| `LifetimeWindows.AggregateHasTotal` | src/services/localUsageAnalytics.ts:1273-1296 | the aggregate's total is the account total of the entries |
| `LifetimeMerges.NearExactlyWhen` | src/services/localUsageAnalytics.ts:1246-1254 | reset times of one kind at most a minute apart are the same window |
| `LifetimeMerges.NearMergeOutcome` | src/services/localUsageAnalytics.ts:1256-1261 | a candidate near an entry keeps the entry's key and place; the larger window stays, the candidate when they are equal, seen when the later one was |
| `LifetimeMerges.NewMergeOutcome` | src/services/localUsageAnalytics.ts:1246-1254 | a candidate near no entry is added under its own key, in place of an entry that happens to have it |
| `LifetimeMerges.HeldWasMerged` | src/services/localUsageAnalytics.ts:1192-1262 | clusters or not, every window that is held was merged |
| `LifetimeMerges.AggregateAddsUsage` | src/services/localUsageAnalytics.ts:1273-1296 | the aggregate adds up all windows in all components |
| `LifetimeMerges.AggregateAddsModels` | src/services/localUsageAnalytics.ts:1285-1292 | it adds up each model's rows and lists exactly the models of the windows |
| `LifetimeMerges.AggregateSeesLatest` | src/services/localUsageAnalytics.ts:1273-1296 | it was last observed when the latest of its windows was |
| `AccountIndex.AccountsIndex.MarkActiveAccount` | src/storage/accountsIndex.ts:8-16 | both pointers and both flags name the account |
| `AccountIndex.AccountsIndex.SyncActiveAccountState` | src/storage/accountsIndex.ts:18-49 | pointers and flags follow the auth file unless a virtual provider owns the route; the result tells whether anything changed |
| `AccountIndex.AccountsIndex.SetActivity` | src/storage/accountsIndex.ts:34-49 | both flags of every record follow the account, and the result tells whether any changed |
| `AccountIndex.AccountsIndex.ReconcileStatusBarSelections` | src/storage/accountMetadata.ts:105-140 | the active account is hidden, extras are trimmed to the two newest, the previous one is shown when there is room |
| `AccountIndex.AccountsIndex.SwitchActiveAccount` | src/storage/accountMutations.ts:99-112 | an existing account with credentials becomes active and selections are reconciled; others are refused |
| `AccountIndex.AccountsIndex.SyncActiveAccountFromAuthFile` | src/storage/accounts.ts:1872-1889 | following the auth file keeps the index consistent |
| `AccountIndex.AccountsIndex.RemoveAccountFromIndex` | src/storage/accountMutations.ts:114-130 | removal clears the pointers that named the account and falls back to the OAuth account as provider |
| `AccountIndex.AccountsIndex.SetVisibility` | src/storage/accountMutations.ts:132-160 | a third extra is refused without a change |
| `AccountIndex.AccountsIndex.SwitchProviderRoute` | src/storage/accounts.ts:937-962 | the provider pointer and flags move without touching the OAuth account; a missing account and one without a stored route are refused |
| `AccountIndex.AccountsIndex.UpsertVirtualAccount` | src/storage/accounts.ts:892-934 | an incomplete route and an identifier of an OAuth account are refused; otherwise the record is replaced, keeping its selection and provider flag |
| `AccountIndex.AccountsIndex.UpsertFromTokens` | src/storage/accounts.ts:1032-1067 | a record is replaced; an activating one keeps a manually selected provider route |
| `AccountIndex.SwitchRepairs` | src/storage/accountMutations.ts:99-112 | activating an existing account re-establishes the whole invariant from any flags, pointers and selections |
| `AccountIndex.SwitchSelections` | src/storage/accountMetadata.ts:105-140 | the new account is hidden, other extras stay, the previous account is shown exactly when fewer than two are left |
| `AccountIndex.ShowTakesEffectExactlyWhen` | src/storage/accountMutations.ts:132-160 | showing takes effect exactly when the account is not active and was shown already or finds room |
| `AccountIndex.TrimKeepsNewest` | src/storage/accountMetadata.ts:115-123 | no dropped extra is newer than a kept one |
| `AccountIndex.ReconcileFits` | src/storage/accountMetadata.ts:105-140 | after reconciling, the active account is not shown and at most two others are, whatever was shown before |
| `AccountIndex.SyncKeepsInv` | src/storage/accountsIndex.ts:18-49 | following the auth file keeps the invariant, also when it names no saved account |
| `AccountIndex.RemoveKeepsInv` | src/storage/accountMutations.ts:114-130 | removal keeps the invariant and removes the account |
| `AccountIndex.ProviderKeepsInv` | src/storage/accounts.ts:937-962 | switching the provider route keeps the invariant |
| `AccountIndex.UpsertVirtualKeepsInv` | src/storage/accounts.ts:892-934 | saving a virtual account keeps the invariant |
| `AccountIndex.UpsertActiveKeepsInv` | src/storage/accounts.ts:1032-1067 | an activating save keeps the invariant |
| `AccountIndex.UpsertInactiveKeepsInvExactlyWhen` | src/storage/accountMetadata.ts:197 | a non-activating save keeps the invariant exactly when it is not for the current account |
| `AccountIndex.RunKeepsInv` | src/storage/accountsIndex.ts:8-49 | in every run flags, pointers and status bar agree after each operation |
| `AccountOutcomes.SwitchOutcome` | src/storage/accountMutations.ts:99-112 | activating a saved account with credentials moves both pointers to it, and every record stays what it is |
| `AccountOutcomes.SyncIsSwitch` | src/storage/accounts.ts:1872-1889 | following the auth file to another saved account is activating it |
| `AccountOutcomes.SyncOutcome` | src/storage/accountsIndex.ts:18-49 | a selected provider is left alone, the active account stays active, and an unknown or missing one leaves none active |
| `AccountOutcomes.RemoveOutcome` | src/storage/accountMutations.ts:114-130 | removal clears exactly the pointers that named the account and leaves every other record as it is |
| `AccountOutcomes.ProviderOutcome` | src/storage/accounts.ts:937-962 | selecting a virtual provider with a route moves only the provider pointer, selecting none leads back to the active account, anything else changes nothing |
| `AccountOutcomes.SaveVirtualOutcome` | src/storage/accounts.ts:892-934 | a saved route's record is the route's, selected as before; every other record and every pointer stays |
| `AccountOutcomes.SaveInactiveOutcome` | src/storage/accountMetadata.ts:166-218 | saving without activating replaces the account's record and nothing else |
| `AccountOutcomes.SaveActivePointers` | src/storage/accounts.ts:1032-1067 | saving and activating moves the current pointer; a selected virtual provider stays selected |
| `AccountOutcomes.SaveActiveOutcome` | src/storage/accounts.ts:1032-1067 | every other record stays what it is, and the saved one is not shown |
| `AccountOutcomes.ShowOutcome` | src/storage/accountMutations.ts:132-160 | a change of visibility moves no pointer, and a third extra changes nothing |
| `AccountOutcomes.RecencyIsStable` | src/storage/accountMetadata.ts:115-123 | accounts updated at the same time keep their order |
| `AccountOutcomes.TrimKeepsTwo` | src/storage/accountMetadata.ts:115-123 | of more than two extras exactly two stay |
| `StableJson.TextIsCanonical` | src/sharing/crypto.ts:186-198 | two values print the same text exactly when they are equal up to key order, with unprintable values read as null |
| `StableJson.Readable` | src/sharing/crypto.ts:186-198 | unique readability: a text followed by a comma, a closing bracket or the end has one reading and ends at one place |
| `StableJson.EquivPrintsSame` | src/sharing/crypto.ts:193-197 | values equal up to key order print the same text |
| `StableJson.StringReadsBack` | src/sharing/crypto.ts:188 | quoting a string can be undone: escapes, surrogate pairs and lone surrogates |
| `StableJson.NumberIsReadable` | src/sharing/crypto.ts:188 | integers print differently and end where they end |
| `StableJson.SortedKeysSorted` | src/sharing/crypto.ts:194-195 | keys are sorted by code units |
| `StableJson.SortedIsUnique` | src/sharing/crypto.ts:194-195 | sorted keys are determined by the set of keys |
| `StableJson.MissingReadsAsNull` | src/sharing/crypto.ts:187-189 | a missing and a null property cannot be told apart |
| `StableJsonText.LiteralTexts` | src/sharing/crypto.ts:187-197 | the texts of null, true, false, the empty array and the empty record |
| `StableJsonText.ArrayText` | src/sharing/crypto.ts:190-192 | an array is its items in order, separated by commas, in brackets |
| `StableJsonText.ObjectText` | src/sharing/crypto.ts:193-197 | a record is its quoted keys and values, separated by commas, in braces, each key once and by ascending code units |
| `StableJsonText.LessExactlyWhen` | src/sharing/crypto.ts:194 | a key comes first when it begins the other, or has the smaller code unit where they first differ |
| `StableJsonText.NumberText` | src/sharing/crypto.ts:188 | an integer is written in decimal without leading zeros |
| `StableJsonText.UnitText` | src/sharing/crypto.ts:188 | how each code unit is escaped |
| `StableJsonText.StringText` | src/sharing/crypto.ts:188 | a string stands in quotes, and a pair of surrogates stays as it is |
| `HotSwitchBridge.Bridge.Send` | src/codex/hotSwitchBridge.ts:416-446 | a new identifier, a table entry and an armed timer |
| `HotSwitchBridge.Bridge.OnTimeout` | src/codex/hotSwitchBridge.ts:420-436 | the entry is removed and settled, and a mutation is cancelled on its own open socket |
| `HotSwitchBridge.Bridge.HandleLine` | src/codex/hotSwitchBridge.ts:509-526 | a reply settles its pending request; other messages leave the table alone |
| `HotSwitchBridge.Bridge.OnData` | src/codex/hotSwitchBridge.ts:485-496 | all complete lines are handled and the rest is kept |
| `HotSwitchBridge.Bridge.RejectAll` | src/codex/hotSwitchBridge.ts:698-708 | every pending request is settled, mutations as uncertain, and the table is empty |
| `HotSwitchBridge.Bridge.OnClose` | src/codex/hotSwitchBridge.ts:497-503 | the buffer and the table are cleared |
| `HotSwitchBridge.Bridge.DisposeBridge` | src/codex/hotSwitchBridge.ts:400-409 | the first disposal clears the table, later ones do nothing |
| `HotSwitchBridge.RequestIdsAreInjective` | src/codex/hotSwitchBridge.ts:417 | request identifiers never repeat |
| `HotSwitchBridge.EachSettlesOnce` | src/codex/hotSwitchBridge.ts:411-446 | in every interleaving a sent request settles at most once, and the table and the timers are exactly the sent and unsettled ones |
| `HotSwitchBridge.UnansweredMutationIsUncertain` | src/codex/hotSwitchBridge.ts:698-715 | an unanswered mutation settles only as uncertain, and success or failure is claimed only on a reply that says so |
| `HotSwitchBridge.RunKeepsCancels` | src/codex/hotSwitchBridge.ts:420-436 | a cancellation is written only for a mutation that timed out and is uncertain |
| `HotSwitchBridge.SentAfterDisposalExactlyWhen` | src/codex/hotSwitchBridge.ts:400-417 | after any run that ends with a disposal, some continuation sends a request exactly when one was still connecting at that moment |
| `HotSwitchBridge.SentAfterDisposal` | src/codex/hotSwitchBridge.ts:411-417 | a run in which a switch is sent after the disposal |
| `HotSwitchBridge.RunLeavesNoLine` | src/codex/hotSwitchBridge.ts:485-496 | between events the buffer never holds a complete line |
| `HotSwitchBridge.ChunkingDoesNotMatter` | src/codex/hotSwitchBridge.ts:485-496 | from a buffer without a complete line, any way of cutting a text into chunks has the effect of the whole text |
| `HotSwitchBridge.ChunkingDoesNotMatterInAnyRun` | src/codex/hotSwitchBridge.ts:485-496 | at any point of any run a text has the same effect however it is cut into chunks |
| `HotSwitchBridge.WrittenLinesAreRead` | src/codex/hotSwitchBridge.ts:485-496 | lines written with either line end are read back unchanged |
| `HotSwitchFates.StepFate` | src/codex/hotSwitchBridge.ts:411-526 | every event settles a request in the table with exactly its fate - the reply read, uncertain for one of the three mutations, failed otherwise - or leaves it in the table |
| `HotSwitchFates.FirstFateSettles` | src/codex/hotSwitchBridge.ts:411-526 | in every run the first event with a fate for a request settles it for good with that outcome |
| `HotSwitchFates.WithoutFateStays` | src/codex/hotSwitchBridge.ts:411-526 | without such an event the request is still in the table |
| `HotSwitchFates.LostHadNoReply` | src/codex/hotSwitchBridge.ts:698-715 | a request that ends as uncertain or failed had no reply read while it was in the table |
| `HotSwitchFates.TimeoutCancelsExactlyWhen` | src/codex/hotSwitchBridge.ts:420-430 | a fired timer cancels its request exactly when that changes the runtime and its own socket is still open |
| `HotSwitchFates.ProceedSends` | src/codex/hotSwitchBridge.ts:416-444 | a connected request is sent under a new identifier on its own socket, and only it stops waiting |
| `HotSwitchFates.WaitingOutcome` | src/codex/hotSwitchBridge.ts:411-416 | a request waits for a connection unless the bridge is disposed |
| `HotSwitchFates.ClosingOutcome` | src/codex/hotSwitchBridge.ts:400-409 | a closed socket is forgotten with its partial line; a disposal closes the socket in use |
| `HotSwitchFates.RestFollowsLastNewline` | src/codex/hotSwitchBridge.ts:485-496 | what stays in the buffer is what follows the last newline |
| `HotSwitchFates.LineOutcome` | src/codex/hotSwitchBridge.ts:489-493 | a line is read without one carriage return at its end, and empty lines are skipped |
| `HotSwitchFates.RequestIdSpells` | src/codex/hotSwitchBridge.ts:417 | the identifier of the n-th request is "manager:" and n in decimal |
| `ProcessTree.DiscoverCurrentWindowProcessIds` | src/sessions/sessionLocks.ts:168-205 | for every finite parent map, cycles included, the loop ends with exactly the processes whose parent chain reaches the root; an unlisted root gives no answer |
| `ProcessTree.ClosedSetHoldsDescendants` | src/sessions/sessionLocks.ts:176-184 | a set with the root that is closed under children holds every descendant |

## Left out

* The relay server, the shared-file lease and the coordinator of index writes are environment assumptions: the relay
  replaces a snapshot only by a strictly newer version, and leases are exclusive unless a step says they expire.
* HTTP, sockets, files, prompts and configuration appear only as outcomes: success, error or a lost reply.
* Cryptography: envelopes are opaque records, and a fingerprint is the multiset of credentials it digests.
* Restarts of a device between saving its state and acting on it, and the credential-sync lease of the primary, which is
  taken as exclusive; tokens that exist only as a caller's fallback, when nothing is stored.
* TokenRefresh.StepRotate: the provider answers with tokens that were not in circulation before, apart from the refresh
  token it was asked with; follower accounts, which never refresh, return before the coordinator and are not modelled.
* The mirror of accounts to a second tool, and token rewrites outside the coordinator (shared-account import, quota update).
* CredentialSyncFollower.SyncFollower.ApplySnapshot: which accounts conflict (same email or provider account, another
  relationship) is an input; the marker of the relationship and the pool membership of imported accounts are not modelled.
* CredentialSync.Stripped: the profile fields of an exported account (email, plan, organisation) are not modelled.
* OwnerLease.OwnerSharing.BeginShareAccounts: one share is in progress at a time; trust, credential synchronisation and
  the step that switches away from an active account are inputs.
* OwnerLease.OwnerSharing.FinalizeOutgoingAccounts: a return is one step, and removing a marker succeeds; a failure there
  ends the return in the source.
* Incoming leases, their expiry and the return of received accounts.
* SubagentClassifier.ScanSession: the parsing of lines is left out, so a file is a list of events as far as it was read.
* UsageScan.ScanLocalUsage: the attribution of a request to an account is a function of the file and the time.
* The order of rows within a table, kept by the source for display; tables are maps here.
* UsageCoverage.UsageService.ScanAndPersist: a scan begins and ends on one date; the first day of a month is an input
  bounded by the calendar; writing the cache file succeeds.
* Time zones: dates and 3-hour buckets are integers given with each observation.
* StableJson.TextIsCanonical: fractions and integers beyond 2^53, big integers and objects that are not plain records are
  not part of the value type.
* Seeding lifetime windows from an older cache format, and looking up one account window for display.
* AccountIndex.AccountsIndex.UpsertVirtualAccount: the fields of a route are given trimmed, and display names are left out.
* Hidden accounts that may not be activated, and the saving of tokens that accompanies activation.
* HotSwitchBridge.Bridge.HandleLine: requests from the runtime to the manager are not answered here, since they do not
  touch the request table.
* User-interface state, announcements, languages, tags, quota parsing, profile parsing and session locks other than the
  process tree: plumbing or checks of single branches.
