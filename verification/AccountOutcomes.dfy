/** What each operation on the index does to the pointers and to every record, in the states the repository can reach
    (src/storage/accountsIndex.ts, accountMutations.ts, accountMetadata.ts and accounts.ts). */
module AccountOutcomes {
  import opened AccountIds
  import opened AccountIndex
  import opened Wrappers

  /** The same record apart from its flags, its selection and its time. */
  predicate SameIdentity(a: Account, b: Account) {
    a.id == b.id && a.virtual == b.virtual && a.gateway == b.gateway
  }

  /** The pointers name this account, and it is also the provider. */
  predicate NamedBoth(ix: Index, id: Option<Id>) {
    ix.current == id && ix.provider == id && ix.route == ChatGpt
  }

  lemma UpdateOutcome(accounts: seq<Account>, id: Id, shown: bool, at: Option<int>, i: nat)
    requires DistinctIds(accounts) && i < |accounts|
    ensures |Update(accounts, id, shown, at)| == |accounts|
    ensures Update(accounts, id, shown, at)[i]
         == if accounts[i].id != id then accounts[i]
            else accounts[i].(shown := shown, updatedAt := if at.Some? then at.value else accounts[i].updatedAt)
  {
  }

  lemma UpdateKeepsDistinct(accounts: seq<Account>, id: Id, shown: bool, at: Option<int>)
    requires DistinctIds(accounts)
    ensures DistinctIds(Update(accounts, id, shown, at))
  {
  }

  /** Reconciling touches the time of no record but the previous account's, and hides the next one. */
  lemma ReconcileOutcome(accounts: seq<Account>, next: Id, previous: Option<Id>, now: int, i: nat)
    requires DistinctIds(accounts) && i < |accounts|
    ensures |Reconcile(accounts, next, previous, now)| == |accounts|
    ensures var after := Reconcile(accounts, next, previous, now)[i];
            && after == accounts[i].(shown := after.shown, updatedAt := after.updatedAt)
            && after.updatedAt == (if previous == Some(accounts[i].id) && accounts[i].id != next then now else accounts[i].updatedAt)
            && (accounts[i].id == next ==> !after.shown)
            && (after.shown ==> accounts[i].shown || previous == Some(accounts[i].id))
  {
    var hidden := Update(accounts, next, false, None);
    UpdateOutcome(accounts, next, false, None, i);
    UpdateKeepsDistinct(accounts, next, false, None);
    var trimmed := TrimExtras(hidden, next);
    TrimOutcome(hidden, next, i);
    if previous.Some? && previous != Some(next) {
      UpdateOutcome(trimmed, previous.value, |Extras(trimmed, Some(next))| < 2, Some(now), i);
    }
  }

  lemma TrimOutcome(accounts: seq<Account>, next: Id, i: nat)
    requires DistinctIds(accounts) && i < |accounts|
    ensures |TrimExtras(accounts, next)| == |accounts| && DistinctIds(TrimExtras(accounts, next))
    ensures var after := TrimExtras(accounts, next)[i];
            after == accounts[i].(shown := after.shown) && (after.shown ==> accounts[i].shown)
  {
  }

  /** Activating a saved account with credentials moves both pointers to it; every record stays what it is, and only the
      account that was active before is marked as updated. Anything else is refused without a change. */
  lemma SwitchOutcome(ix: Index, id: Id, now: int, i: nat)
    requires Inv(ix) && i < |ix.accounts|
    ensures !Has(ix.accounts, id) || VirtualId(id) ==> Switch(ix, id, now) == ix
    ensures Has(ix.accounts, id) && !VirtualId(id) ==>
              var after := Switch(ix, id, now);
              && NamedBoth(after, Some(id)) && |after.accounts| == |ix.accounts| && SameIdentity(after.accounts[i], ix.accounts[i])
              && after.accounts[i].updatedAt
                 == (if ix.current == Some(ix.accounts[i].id) && ix.current != Some(id) then now else ix.accounts[i].updatedAt)
  {
    if Has(ix.accounts, id) && !VirtualId(id) {
      var marked := MarkActive(ix, id);
      SameIds(ix.accounts, marked.accounts);
      ReconcileOutcome(marked.accounts, id, ix.current, now, i);
    }
  }

  /** Following the auth file is activating the account it names, as long as the ChatGPT route is selected and another
      account is active. */
  lemma SyncIsSwitch(ix: Index, id: Id, now: int)
    requires Inv(ix) && ix.route == ChatGpt && Has(ix.accounts, id) && !VirtualId(id) && ix.current != Some(id)
    ensures SyncFromAuthFile(ix, Some(id), now) == Switch(ix, id, now)
  {
  }

  /** A selected provider is left alone; an auth file that names the active account changes nothing; and one that names no
      saved account leaves none active, every record as it is. */
  lemma SyncOutcome(ix: Index, derived: Option<Id>, now: int, i: nat)
    requires Inv(ix) && i < |ix.accounts|
    ensures ix.route == Sub2Api || (derived.Some? && ix.current == derived) ==> SyncFromAuthFile(ix, derived, now) == ix
    ensures ix.route == ChatGpt && (derived == None || !Has(ix.accounts, derived.value)) ==>
              var after := SyncFromAuthFile(ix, derived, now);
              && NamedBoth(after, None) && |after.accounts| == |ix.accounts| && SameIdentity(after.accounts[i], ix.accounts[i])
              && (derived == None || ix.current != Some(ix.accounts[i].id) ==>
                    after.accounts[i].updatedAt == ix.accounts[i].updatedAt)
              && (derived == None ==> after.accounts[i].shown == ix.accounts[i].shown)
  {
    var synced := SyncActive(ix, derived);
    SameIds(ix.accounts, synced.accounts);
    if ix.route == ChatGpt && derived.Some? && ix.current == derived {
      assert synced.accounts == ix.accounts;
    } else if ix.route == ChatGpt && derived.Some? {
      ReconcileOutcome(synced.accounts, derived.value, ix.current, now, i);
    }
  }

  /** Removing an account leaves every other record as it is, apart from the provider flag; a pointer that named it is
      cleared, and a provider route that led to it falls back to the active account. */
  lemma RemoveOutcome(ix: Index, id: Id, other: Account)
    requires Inv(ix)
    ensures var after := Remove(ix, id);
            && after.current == (if ix.current == Some(id) then None else ix.current)
            && (ix.provider == Some(id) ==> after.route == ChatGpt && after.provider == after.current)
            && (ix.provider != Some(id) ==> after.route == ix.route && after.provider == ix.provider)
            && !Has(after.accounts, id)
            && (other in ix.accounts && other.id != id ==>
                  other.(providerActive := after.provider == Some(other.id)) in after.accounts)
  {
    var rest, after := Without(ix.accounts, id), Remove(ix, id);
    RemoveKeepsInv(ix, id);
    WithoutKeeps(ix.accounts, id);
    if other in ix.accounts && other.id != id {
      assert other in rest;
      var k :| 0 <= k < |rest| && rest[k] == other;
      var j :| 0 <= j < |ix.accounts| && ix.accounts[j] == other;
      assert after.accounts[k] == other.(providerActive := after.provider == Some(other.id));
    }
  }

  /** Selecting a saved virtual provider with a route moves only the provider pointer; selecting none leads back to the
      active account; anything else changes nothing. Records keep everything but the provider flag. */
  lemma ProviderOutcome(ix: Index, id: Option<Id>, i: nat)
    requires Inv(ix) && i < |ix.accounts|
    ensures var after := SwitchProvider(ix, id);
            && after.current == ix.current && |after.accounts| == |ix.accounts|
            && after.accounts[i] == ix.accounts[i].(providerActive := after.provider == Some(ix.accounts[i].id))
            && (id == None ==> after.route == ChatGpt && after.provider == ix.current)
            && (id == Some(ix.accounts[i].id) && ix.accounts[i].virtual && ix.accounts[i].gateway.Some? ==>
                  after.route == Sub2Api && after.provider == id)
            && (id == Some(ix.accounts[i].id) && !(ix.accounts[i].virtual && ix.accounts[i].gateway.Some?) ==> after == ix)
            && (id.Some? && !Has(ix.accounts, id.value) ==> after == ix)
  {
    if id.Some? {
      var k := IndexOf(ix.accounts, id.value);
      if ix.accounts[i].id == id.value {
        assert k == i;
      }
    }
  }

  /** Saving a virtual provider refuses an incomplete route and an identifier that belongs to an OAuth account. Otherwise
      its record is the route's, stays selected as it was, and every other record and pointer stays. */
  lemma SaveVirtualOutcome(ix: Index, g: Gateway, now: int, other: Account)
    requires Inv(ix)
    ensures g.integrationId == "" || g.baseUrl == "" || g.model == "" || g.credentialRef == "" ==> UpsertVirtual(ix, g, now) == ix
    ensures g.integrationId != "" && g.baseUrl != "" && g.model != "" && g.credentialRef != "" ==>
              var after := UpsertVirtual(ix, g, now);
              && after.current == ix.current && after.route == ix.route && after.provider == ix.provider
              && (other.id != "virtual:" + g.integrationId ==> (other in after.accounts <==> other in ix.accounts))
              && |after.accounts| > 0
              && var saved := after.accounts[|after.accounts| - 1];
                 && saved.id == "virtual:" + g.integrationId && saved.virtual && saved.gateway == Some(g) && saved.updatedAt == now
                 && (other in ix.accounts && other.id == saved.id ==> saved.shown == other.shown)
                 && (!Has(ix.accounts, saved.id) ==> !saved.shown)
  {
    var id := GatewayId(g);
    WithoutKeeps(ix.accounts, id);
    if other in ix.accounts && other.id == id {
      var k :| 0 <= k < |ix.accounts| && ix.accounts[k] == other;
      assert IndexOf(ix.accounts, id) == k;
    }
  }

  /** Saving an account without activating it replaces its record and nothing else. */
  lemma SaveInactiveOutcome(ix: Index, id: Id, now: int, other: Account)
    requires Inv(ix)
    ensures var after := UpsertInactive(ix, id, now);
            && after.current == ix.current && after.route == ix.route && after.provider == ix.provider && |after.accounts| > 0
            && (other.id != id ==> (other in after.accounts <==> other in ix.accounts))
            && var saved := after.accounts[|after.accounts| - 1];
               && saved.id == id && !saved.virtual && saved.gateway == None && saved.updatedAt == now
               && !saved.isActive && !saved.providerActive
               && (other in ix.accounts && other.id == id ==> saved.shown == other.shown)
               && (!Has(ix.accounts, id) ==> !saved.shown)
  {
    WithoutKeeps(ix.accounts, id);
    if other in ix.accounts && other.id == id {
      var k :| 0 <= k < |ix.accounts| && ix.accounts[k] == other;
      assert IndexOf(ix.accounts, id) == k;
    }
  }

  /** Saving and activating an account moves the current pointer to it; a selected virtual provider stays selected, and
      otherwise the provider follows ... */
  lemma SaveActivePointers(ix: Index, id: Id, now: int)
    ensures var after := UpsertActive(ix, id, now);
            && after.current == Some(id)
            && (ix.route == Sub2Api ==> after.route == Sub2Api && after.provider == ix.provider)
            && (ix.route == ChatGpt ==> after.route == ChatGpt && after.provider == Some(id))
  {
  }

  lemma ReplacedShape(ix: Index, id: Id, now: int, replaced: seq<Account>)
    requires Inv(ix) && !VirtualId(id) && replaced == Replaced(ix, id, true, now)
    ensures DistinctIds(replaced) && |replaced| == |Without(ix.accounts, id)| + 1
    ensures forall i :: 0 <= i < |replaced| - 1 ==> replaced[i] == Without(ix.accounts, id)[i] && replaced[i] in ix.accounts
    ensures var saved := replaced[|replaced| - 1];
            saved.id == id && !saved.virtual && saved.gateway == None && saved.updatedAt == now
  {
    var rest := Without(ix.accounts, id);
    WithoutShape(ix.accounts, id, [replaced[|rest|]]);
    WithoutKeeps(ix.accounts, id);
    forall i | 0 <= i < |rest|
      ensures rest[i] in ix.accounts
    {
      assert rest[i] in rest;
    }
  }

  lemma FlagsKeepRecords(accounts: seq<Account>, flagged: seq<Account>)
    requires |flagged| == |accounts| && DistinctIds(accounts)
    requires forall i :: 0 <= i < |accounts| ==>
               flagged[i] == accounts[i].(isActive := flagged[i].isActive, providerActive := flagged[i].providerActive)
    ensures DistinctIds(flagged)
    ensures forall i :: 0 <= i < |accounts| ==>
              SameIdentity(accounts[i], flagged[i]) && flagged[i].updatedAt == accounts[i].updatedAt
  {
  }

  /** The records just before the selections are reconciled. */
  function BeforeReconciling(ix: Index, id: Id, now: int): (accounts: seq<Account>)
    ensures UpsertActive(ix, id, now).accounts == Reconcile(accounts, id, ix.current, now)
  {
    var marked := SetProvider(SetActive(Replaced(ix, id, true, now), Some(id)), Some(id));
    if ix.route == Sub2Api then SetProvider(marked, ix.provider) else marked
  }

  /** ... every other record stays what it is, and the saved one is not shown. */
  lemma SaveActiveOutcome(ix: Index, id: Id, now: int, i: nat)
    requires Inv(ix) && !VirtualId(id) && i <= |Without(ix.accounts, id)|
    ensures var (rest, after) := (Without(ix.accounts, id), UpsertActive(ix, id, now).accounts);
            && |after| == |rest| + 1
            && (i < |rest| ==> rest[i] in ix.accounts && SameIdentity(rest[i], after[i]))
            && (i == |rest| ==> after[i].id == id && !after[i].virtual && after[i].gateway == None && !after[i].shown)
            && (i == |rest| ==> after[i].updatedAt == now)
  {
    var replaced, before := Replaced(ix, id, true, now), BeforeReconciling(ix, id, now);
    ReplacedShape(ix, id, now, replaced);
    FlagsKeepRecords(replaced, before);
    ReconcileOutcome(before, id, ix.current, now, i);
  }

  /** A change of visibility moves no pointer; a record it applies to is marked as updated, and a third extra changes
      nothing. */
  lemma ShowOutcome(ix: Index, id: Id, visible: bool, now: int, i: nat)
    requires Inv(ix) && i < |ix.accounts|
    ensures var after := SetStatusBarVisibility(ix, id, visible, now);
            && after.current == ix.current && after.route == ix.route && after.provider == ix.provider
            && |after.accounts| == |ix.accounts|
            && (ix.accounts[i].id == id && (!visible || ix.current == Some(id) || |Extras(ix.accounts, ix.current)| < 2) ==>
                  after.accounts[i] == ix.accounts[i].(shown := after.accounts[i].shown, updatedAt := now))
            && (visible && ix.current != Some(id) && |Extras(ix.accounts, ix.current)| >= 2 ==> after == ix)
  {
    InactiveAreExtras(ix.accounts, ix.current);
    if ix.accounts[i].id == id {
      assert IndexOf(ix.accounts, id) == i;
    }
  }

  // ---- Trimming ----

  /** The accounts updated at a time, in their order. */
  function UpdatedAt(accounts: seq<Account>, time: int): seq<Account> {
    if accounts == [] then []
    else (if accounts[0].updatedAt == time then [accounts[0]] else []) + UpdatedAt(accounts[1..], time)
  }

  lemma {:induction false} InsertIsStable(a: Account, sorted: seq<Account>, time: int)
    requires NewestFirst(sorted)
    ensures UpdatedAt(InsertByRecency(a, sorted), time) == UpdatedAt([a] + sorted, time)
  {
    if sorted == [] || a.updatedAt >= sorted[0].updatedAt {
    } else {
      InsertIsStable(a, sorted[1..], time);
      assert ([a] + sorted)[1..] == sorted && ([a] + sorted[1..])[1..] == sorted[1..];
      var rest := InsertByRecency(a, sorted[1..]);
      assert ([sorted[0]] + rest)[1..] == rest;
    }
  }

  /** Accounts updated at the same time keep their order. */
  lemma {:induction false} RecencyIsStable(accounts: seq<Account>, time: int)
    ensures UpdatedAt(ByRecency(accounts), time) == UpdatedAt(accounts, time)
  {
    if accounts == [] {
    } else {
      RecencyIsStable(accounts[1..], time);
      RecencySorts(accounts[1..]);
      InsertIsStable(accounts[0], ByRecency(accounts[1..]), time);
      assert ([accounts[0]] + ByRecency(accounts[1..]))[1..] == ByRecency(accounts[1..]);
    }
  }

  lemma {:induction false} SameElementsSameIds(a: seq<Account>, b: seq<Account>)
    requires multiset(a) == multiset(b) && DistinctIds(a)
    ensures DistinctIds(b)
  {
    forall i, j | 0 <= i < j < |b|
      ensures b[i].id != b[j].id
    {
      if b[i].id == b[j].id {
        assert b[i] in multiset(b) && b[j] in multiset(b);
        assert b[i] in a && b[j] in a;
        assert b[i] == b[j];
        assert b == b[..j] + [b[j]] + b[j + 1..] && b[i] in b[..j];
        assert multiset(b)[b[i]] >= 2;
        OnceInDistinct(a, b[i]);
      }
    }
  }

  lemma {:induction false} OnceInDistinct(accounts: seq<Account>, a: Account)
    requires DistinctIds(accounts)
    ensures multiset(accounts)[a] <= 1
  {
    if accounts == [] {
    } else {
      OnceInDistinct(accounts[1..], a);
      assert accounts == [accounts[0]] + accounts[1..];
      if accounts[0] == a {
        assert a !in accounts[1..];
      }
    }
  }

  /** The two extras updated last survive trimming. */
  lemma RecentSurvive(accounts: seq<Account>, next: Id, k: nat)
    requires DistinctIds(accounts) && |Extras(accounts, Some(next))| > 2 && k < 2
    ensures var sorted := ByRecency(Extras(accounts, Some(next)));
            |sorted| > 2 && sorted[k] in Extras(TrimExtras(accounts, next), Some(next))
  {
    var extras := Extras(accounts, Some(next));
    var sorted := ByRecency(extras);
    RecencyKeepsElements(extras);
    ExtrasElements(accounts, Some(next));
    SameElementsSameIds(extras, sorted);
    RecentAreExtras(accounts, Some(next), k);
    var i :| 0 <= i < |accounts| && accounts[i] == sorted[k];
    assert sorted[k].id !in Ids(sorted[2..]);
    assert TrimExtras(accounts, next)[i] == accounts[i];
    ExtrasElements(TrimExtras(accounts, next), Some(next));
    assert accounts[i] in TrimExtras(accounts, next);
  }

  lemma AtLeastTwo(accounts: seq<Account>, a: Account, b: Account)
    requires a in accounts && b in accounts && a.id != b.id
    ensures |accounts| >= 2
  {
    var i :| 0 <= i < |accounts| && accounts[i] == a;
    var j :| 0 <= j < |accounts| && accounts[j] == b;
    assert i != j;
  }

  lemma SortedDiffer(accounts: seq<Account>, next: Id)
    requires DistinctIds(accounts) && |Extras(accounts, Some(next))| > 2
    ensures var sorted := ByRecency(Extras(accounts, Some(next))); |sorted| > 2 && sorted[0].id != sorted[1].id
  {
    ExtrasElements(accounts, Some(next));
    RecencyKeepsElements(Extras(accounts, Some(next)));
    SameElementsSameIds(Extras(accounts, Some(next)), ByRecency(Extras(accounts, Some(next))));
  }

  /** Of more than two extras, exactly two stay. */
  lemma TrimKeepsTwo(accounts: seq<Account>, next: Id)
    requires DistinctIds(accounts) && |Extras(accounts, Some(next))| > 2
    ensures |Extras(TrimExtras(accounts, next), Some(next))| == 2
  {
    var sorted := ByRecency(Extras(accounts, Some(next)));
    SortedDiffer(accounts, next);
    RecentSurvive(accounts, next, 0);
    RecentSurvive(accounts, next, 1);
    AtLeastTwo(Extras(TrimExtras(accounts, next), Some(next)), sorted[0], sorted[1]);
    TrimFits(accounts, next);
  }
}
