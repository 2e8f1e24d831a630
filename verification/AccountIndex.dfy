/** The index of saved accounts: two pointers, a provider route, and flags on the records that repeat what the pointers
    say (src/storage/accountsIndex.ts, accountMutations.ts, accountMetadata.ts and accounts.ts). */
module AccountIndex {
  import opened AccountIds
  import opened Wrappers

  const MAX_EXTRAS := 2

  datatype Route = ChatGpt | Sub2Api

  /** The downstream route of a virtual provider, its fields trimmed. */
  datatype Gateway = Gateway(integrationId: string, baseUrl: string, model: string, credentialRef: string)

  datatype Account = Account(id: Id, virtual: bool, gateway: Option<Gateway>, isActive: bool, providerActive: bool, shown: bool, updatedAt: int)

  datatype Index = Index(current: Option<Id>, route: Route, provider: Option<Id>, accounts: seq<Account>)

  // ---- Looking at the records ----

  predicate Has(accounts: seq<Account>, id: Id) {
    exists i :: 0 <= i < |accounts| && accounts[i].id == id
  }

  function IndexOf(accounts: seq<Account>, id: Id): (i: nat)
    ensures i <= |accounts|
    ensures i < |accounts| ==> accounts[i].id == id
    ensures forall j | 0 <= j < i :: accounts[j].id != id
  {
    if accounts == [] || accounts[0].id == id then 0 else IndexOf(accounts[1..], id) + 1
  }

  /** Shown next to the active account in the status bar. */
  predicate Extra(a: Account, active: Option<Id>) {
    a.shown && active != Some(a.id)
  }

  function Extras(accounts: seq<Account>, active: Option<Id>): seq<Account> {
    if accounts == [] then []
    else (if Extra(accounts[0], active) then [accounts[0]] else []) + Extras(accounts[1..], active)
  }

  // ---- The operations ----

  function SetActive(accounts: seq<Account>, current: Option<Id>): (r: seq<Account>)
    ensures |r| == |accounts|
    ensures forall i | 0 <= i < |r| :: r[i] == accounts[i].(isActive := current == Some(accounts[i].id))
  {
    seq(|accounts|, i requires 0 <= i < |accounts| => accounts[i].(isActive := current == Some(accounts[i].id)))
  }

  function SetProvider(accounts: seq<Account>, provider: Option<Id>): (r: seq<Account>)
    ensures |r| == |accounts|
    ensures forall i | 0 <= i < |r| :: r[i] == accounts[i].(providerActive := provider == Some(accounts[i].id))
  {
    seq(|accounts|, i requires 0 <= i < |accounts| => accounts[i].(providerActive := provider == Some(accounts[i].id)))
  }

  /** Changes the record with this identifier, if there is one. */
  function Update(accounts: seq<Account>, id: Id, shown: bool, updatedAt: Option<int>): seq<Account> {
    var i := IndexOf(accounts, id);
    if i == |accounts| then accounts
    else
      accounts[i := accounts[i].(shown := shown, updatedAt := if updatedAt.Some? then updatedAt.value else accounts[i].updatedAt)]
  }

  /** A stable insertion sort by time of update, newest first. */
  function InsertByRecency(a: Account, sorted: seq<Account>): seq<Account> {
    if sorted == [] || a.updatedAt >= sorted[0].updatedAt then [a] + sorted
    else [sorted[0]] + InsertByRecency(a, sorted[1..])
  }

  function ByRecency(accounts: seq<Account>): seq<Account> {
    if accounts == [] then [] else InsertByRecency(accounts[0], ByRecency(accounts[1..]))
  }

  function Ids(accounts: seq<Account>): set<Id> {
    set a <- accounts :: a.id
  }

  function HideExtras(accounts: seq<Account>, dropped: set<Id>): (r: seq<Account>)
    ensures |r| == |accounts|
    ensures forall i | 0 <= i < |r| ::
              r[i] == if accounts[i].id in dropped then accounts[i].(shown := false) else accounts[i]
  {
    seq(|accounts|, i requires 0 <= i < |accounts| =>
      if accounts[i].id in dropped then accounts[i].(shown := false) else accounts[i])
  }

  /** Only the two most recently updated extras stay. */
  function TrimExtras(accounts: seq<Account>, next: Id): seq<Account> {
    var extras := Extras(accounts, Some(next));
    if |extras| <= MAX_EXTRAS then accounts
    else
      RecencyKeepsElements(extras);
      HideExtras(accounts, Ids(ByRecency(extras)[MAX_EXTRAS..]))
  }

  function Reconcile(accounts: seq<Account>, next: Id, previous: Option<Id>, now: int): seq<Account> {
    var trimmed := TrimExtras(Update(accounts, next, false, None), next);
    if previous == None || previous == Some(next) then trimmed
    else Update(trimmed, previous.value, |Extras(trimmed, Some(next))| < MAX_EXTRAS, Some(now))
  }

  function MarkActive(ix: Index, id: Id): Index {
    Index(Some(id), ChatGpt, Some(id), SetProvider(SetActive(ix.accounts, Some(id)), Some(id)))
  }

  function SyncActive(ix: Index, id: Option<Id>): Index {
    if ix.route == Sub2Api then ix
    else
      var current := if id.Some? && Has(ix.accounts, id.value) then id else None;
      Index(current, ChatGpt, current, SetProvider(SetActive(ix.accounts, current), current))
  }

  /** The auth file names an account, or none. */
  function SyncFromAuthFile(ix: Index, derived: Option<Id>, now: int): Index {
    var synced := SyncActive(ix, derived);
    if ix.route == Sub2Api || derived == None || ix.current == derived then synced
    else synced.(accounts := Reconcile(synced.accounts, derived.value, ix.current, now))
  }

  /** Activating is refused for a missing or virtual account. */
  function Switch(ix: Index, id: Id, now: int): Index {
    var i := IndexOf(ix.accounts, id);
    if i == |ix.accounts| || ix.accounts[i].virtual then ix
    else
      var marked := MarkActive(ix, id);
      marked.(accounts := Reconcile(marked.accounts, id, ix.current, now))
  }

  function Without(accounts: seq<Account>, id: Id): seq<Account> {
    if accounts == [] then []
    else (if accounts[0].id == id then [] else [accounts[0]]) + Without(accounts[1..], id)
  }

  function Remove(ix: Index, id: Id): Index {
    var accounts := Without(ix.accounts, id);
    var current := if ix.current == Some(id) then None else ix.current;
    if ix.provider == Some(id) then Index(current, ChatGpt, current, SetProvider(accounts, current))
    else ix.(current := current, accounts := accounts)
  }

  /** Showing a third extra is an error that changes nothing. */
  function SetStatusBarVisibility(ix: Index, id: Id, visible: bool, now: int): Index {
    var i := IndexOf(ix.accounts, id);
    if i == |ix.accounts| then ix
    else if ix.accounts[i].isActive then ix.(accounts := Update(ix.accounts, id, false, Some(now)))
    else if visible && |ShownInactive(ix.accounts)| >= MAX_EXTRAS then ix
    else ix.(accounts := Update(ix.accounts, id, visible, Some(now)))
  }

  function ShownInactive(accounts: seq<Account>): seq<Account> {
    if accounts == [] then []
    else (if !accounts[0].isActive && accounts[0].shown then [accounts[0]] else []) + ShownInactive(accounts[1..])
  }

  function SwitchProvider(ix: Index, id: Option<Id>): Index {
    if id == None then Index(ix.current, ChatGpt, ix.current, SetProvider(ix.accounts, ix.current))
    else
      var i := IndexOf(ix.accounts, id.value);
      if i == |ix.accounts| || !ix.accounts[i].virtual || ix.accounts[i].gateway == None then ix
      else Index(ix.current, Sub2Api, id, SetProvider(ix.accounts, id))
  }

  function ShownBefore(accounts: seq<Account>, id: Id): bool {
    var i := IndexOf(accounts, id);
    i < |accounts| && accounts[i].shown
  }

  function GatewayId(g: Gateway): (id: Id)
    ensures VirtualId(id)
  {
    "virtual:" + g.integrationId
  }

  predicate Complete(g: Gateway) {
    g.integrationId != "" && g.baseUrl != "" && g.model != "" && g.credentialRef != ""
  }

  function VirtualRecord(ix: Index, g: Gateway, now: int): Account {
    var id := GatewayId(g);
    Account(id, true, Some(g), false, ix.route == Sub2Api && ix.provider == Some(id), ShownBefore(ix.accounts, id), now)
  }

  /** An incomplete route is refused, and so is one whose identifier belongs to an OAuth account. */
  function UpsertVirtual(ix: Index, g: Gateway, now: int): Index {
    var i := IndexOf(ix.accounts, GatewayId(g));
    if !Complete(g) || (i < |ix.accounts| && !ix.accounts[i].virtual) then ix
    else ix.(accounts := Without(ix.accounts, GatewayId(g)) + [VirtualRecord(ix, g, now)])
  }

  /** A record rebuilt from tokens carries only the activity it was asked for; the provider flag is left out. */
  function Replaced(ix: Index, id: Id, forceActive: bool, now: int): seq<Account> {
    Without(ix.accounts, id) + [Account(id, false, None, forceActive, false, ShownBefore(ix.accounts, id), now)]
  }

  function UpsertInactive(ix: Index, id: Id, now: int): Index {
    ix.(accounts := Replaced(ix, id, false, now))
  }

  /** Restoring an identity does not displace a manually selected virtual provider. */
  function UpsertActive(ix: Index, id: Id, now: int): Index {
    var marked := MarkActive(ix.(accounts := Replaced(ix, id, true, now)), id);
    var routed := if ix.route == Sub2Api
                  then Index(marked.current, Sub2Api, ix.provider, SetProvider(marked.accounts, ix.provider))
                  else marked;
    routed.(accounts := Reconcile(routed.accounts, id, ix.current, now))
  }

  // ---- Invariant ----

  predicate DistinctIds(accounts: seq<Account>) {
    forall i, j :: 0 <= i < j < |accounts| ==> accounts[i].id != accounts[j].id
  }

  predicate KindsMatch(accounts: seq<Account>) {
    forall i | 0 <= i < |accounts| :: accounts[i].virtual == VirtualId(accounts[i].id)
  }

  /** The flags hold exactly for the accounts that the pointers name. */
  predicate FlagsMatch(ix: Index) {
    forall i | 0 <= i < |ix.accounts| ::
      && ix.accounts[i].isActive == (ix.current == Some(ix.accounts[i].id))
      && ix.accounts[i].providerActive == (ix.provider == Some(ix.accounts[i].id))
  }

  /** The pointers name existing accounts of the right kind, or nothing. */
  predicate PointersMatch(ix: Index) {
    && (ix.current.Some? ==> Has(ix.accounts, ix.current.value) && !VirtualId(ix.current.value))
    && (ix.provider.Some? ==> Has(ix.accounts, ix.provider.value))
    && (ix.route == ChatGpt ==> ix.provider == ix.current)
    && (ix.route == Sub2Api ==> ix.provider.Some? && VirtualId(ix.provider.value))
  }

  /** The active account is not an extra, and at most two others are shown. */
  predicate ExtrasFit(accounts: seq<Account>, active: Option<Id>) {
    && |Extras(accounts, active)| <= MAX_EXTRAS
    && forall i | 0 <= i < |accounts| :: active == Some(accounts[i].id) ==> !accounts[i].shown
  }

  predicate Inv(ix: Index) {
    DistinctIds(ix.accounts) && KindsMatch(ix.accounts) && FlagsMatch(ix) && PointersMatch(ix) && ExtrasFit(ix.accounts, ix.current)
  }

  // ---- Sorting by recency ----

  lemma {:induction false} InsertKeepsElements(a: Account, sorted: seq<Account>)
    ensures |InsertByRecency(a, sorted)| == |sorted| + 1
    ensures multiset(InsertByRecency(a, sorted)) == multiset(sorted) + multiset{a}
  {
    if sorted == [] || a.updatedAt >= sorted[0].updatedAt {
    } else {
      InsertKeepsElements(a, sorted[1..]);
      assert sorted == [sorted[0]] + sorted[1..];
    }
  }

  lemma {:induction false} RecencyKeepsElements(accounts: seq<Account>)
    ensures |ByRecency(accounts)| == |accounts|
    ensures multiset(ByRecency(accounts)) == multiset(accounts)
  {
    if accounts == [] {
    } else {
      RecencyKeepsElements(accounts[1..]);
      InsertKeepsElements(accounts[0], ByRecency(accounts[1..]));
      assert accounts == [accounts[0]] + accounts[1..];
    }
  }

  predicate NewestFirst(accounts: seq<Account>) {
    forall i, j :: 0 <= i < j < |accounts| ==> accounts[i].updatedAt >= accounts[j].updatedAt
  }

  lemma {:induction false} InsertKeepsNewestFirst(a: Account, sorted: seq<Account>)
    requires NewestFirst(sorted)
    ensures NewestFirst(InsertByRecency(a, sorted))
  {
    if sorted == [] || a.updatedAt >= sorted[0].updatedAt {
    } else {
      var rest := InsertByRecency(a, sorted[1..]);
      InsertKeepsNewestFirst(a, sorted[1..]);
      InsertKeepsElements(a, sorted[1..]);
      forall j | 0 <= j < |rest|
        ensures sorted[0].updatedAt >= rest[j].updatedAt
      {
        assert rest[j] in multiset(rest);
        assert rest[j] == a || rest[j] in sorted[1..];
      }
    }
  }

  lemma {:induction false} RecencySorts(accounts: seq<Account>)
    ensures NewestFirst(ByRecency(accounts))
  {
    if accounts == [] {
    } else {
      RecencySorts(accounts[1..]);
      InsertKeepsNewestFirst(accounts[0], ByRecency(accounts[1..]));
    }
  }

  // ---- Extras ----

  lemma {:induction false} ExtrasElements(accounts: seq<Account>, active: Option<Id>)
    ensures forall a :: a in Extras(accounts, active) <==> a in accounts && Extra(a, active)
    ensures DistinctIds(accounts) ==> DistinctIds(Extras(accounts, active))
  {
    if accounts == [] {
    } else {
      var rest := Extras(accounts[1..], active);
      ExtrasElements(accounts[1..], active);
      assert accounts == [accounts[0]] + accounts[1..];
      if DistinctIds(accounts) {
        forall j | 0 <= j < |rest|
          ensures rest[j].id != accounts[0].id
        {
          assert rest[j] in accounts[1..];
        }
      }
    }
  }

  /** When every extra of `b` stands where `a` has one, except perhaps one, `b` has at most one more. */
  lemma {:induction false} ExtrasBound(a: seq<Account>, x: Option<Id>, b: seq<Account>, y: Option<Id>, k: nat)
    requires |a| == |b| && k <= |b|
    requires forall i | 0 <= i < |b| && i != k :: Extra(b[i], y) ==> Extra(a[i], x)
    ensures |Extras(b, y)| <= |Extras(a, x)| + if k < |b| && Extra(b[k], y) && !Extra(a[k], x) then 1 else 0
  {
    if a == [] {
    } else if k == 0 {
      ExtrasBound(a[1..], x, b[1..], y, |b| - 1);
    } else {
      ExtrasBound(a[1..], x, b[1..], y, k - 1);
    }
  }

  predicate SameButShown(a: seq<Account>, b: seq<Account>) {
    |a| == |b| && forall i | 0 <= i < |a| :: b[i] == a[i].(shown := b[i].shown, updatedAt := b[i].updatedAt)
  }

  lemma UpdateChanges(accounts: seq<Account>, id: Id, shown: bool, at: Option<int>, active: Option<Id>)
    requires DistinctIds(accounts)
    ensures SameButShown(accounts, Update(accounts, id, shown, at))
    ensures forall i | 0 <= i < |accounts| ::
              if accounts[i].id == id then Update(accounts, id, shown, at)[i].shown == shown
              else Update(accounts, id, shown, at)[i] == accounts[i]
    ensures |Extras(Update(accounts, id, shown, at), active)| <= |Extras(accounts, active)| + if shown then 1 else 0
  {
    ExtrasBound(accounts, active, Update(accounts, id, shown, at), active, IndexOf(accounts, id));
  }

  lemma {:induction false} DistinctIdsCount(accounts: seq<Account>)
    requires DistinctIds(accounts)
    ensures |Ids(accounts)| == |accounts|
  {
    if accounts == [] {
    } else {
      DistinctIdsCount(accounts[1..]);
      assert accounts == [accounts[0]] + accounts[1..];
      assert Ids(accounts) == {accounts[0].id} + Ids(accounts[1..]);
    }
  }

  lemma {:induction false} SubsetIsNoLarger<T>(a: set<T>, b: set<T>)
    requires a <= b
    ensures |a| <= |b|
    decreases |a|
  {
    if x :| x in a {
      SubsetIsNoLarger(a - {x}, b - {x});
    }
  }

  lemma TwoIds(extras: seq<Account>, a: Id, b: Id)
    requires DistinctIds(extras)
    requires forall i | 0 <= i < |extras| :: extras[i].id == a || extras[i].id == b
    ensures |extras| <= 2
  {
    DistinctIdsCount(extras);
    SubsetIsNoLarger(Ids(extras), {a, b});
  }

  /** Where an extra stands among the extras sorted by recency. */
  lemma PlaceByRecency(accounts: seq<Account>, active: Option<Id>, a: Account) returns (j: nat)
    requires a in accounts && Extra(a, active)
    ensures var sorted := ByRecency(Extras(accounts, active)); j < |sorted| && sorted[j] == a
  {
    var extras := Extras(accounts, active);
    ExtrasElements(accounts, active);
    RecencyKeepsElements(extras);
    assert a in multiset(extras);
    assert a in ByRecency(extras);
    j :| 0 <= j < |ByRecency(extras)| && ByRecency(extras)[j] == a;
  }

  lemma RecentAreExtras(accounts: seq<Account>, active: Option<Id>, j: nat)
    requires j < |ByRecency(Extras(accounts, active))|
    ensures ByRecency(Extras(accounts, active))[j] in accounts && Extra(ByRecency(Extras(accounts, active))[j], active)
  {
    var extras := Extras(accounts, active);
    ExtrasElements(accounts, active);
    RecencyKeepsElements(extras);
    assert ByRecency(extras)[j] in multiset(ByRecency(extras));
  }

  /** A shown extra that trimming keeps is among the two most recent, and one it drops is not. */
  lemma TrimDecides(accounts: seq<Account>, next: Id, i: nat, j: nat)
    requires DistinctIds(accounts) && i < |accounts| && Extra(accounts[i], Some(next))
    requires |Extras(accounts, Some(next))| > MAX_EXTRAS
    requires j < |ByRecency(Extras(accounts, Some(next)))| && ByRecency(Extras(accounts, Some(next)))[j] == accounts[i]
    ensures TrimExtras(accounts, next)[i].shown ==> j < MAX_EXTRAS
    ensures !TrimExtras(accounts, next)[i].shown ==> exists k :: MAX_EXTRAS <= k < |ByRecency(Extras(accounts, Some(next)))|
                                                        && ByRecency(Extras(accounts, Some(next)))[k].id == accounts[i].id
  {
    var sorted := ByRecency(Extras(accounts, Some(next)));
    RecencyKeepsElements(Extras(accounts, Some(next)));
    var late := sorted[MAX_EXTRAS..];
    if j >= MAX_EXTRAS {
      assert late[j - MAX_EXTRAS] == accounts[i] && accounts[i] in late;
    }
    if !TrimExtras(accounts, next)[i].shown {
      var d :| d in late && d.id == accounts[i].id;
      var k :| 0 <= k < |late| && late[k] == d;
      assert sorted[MAX_EXTRAS + k].id == accounts[i].id;
    }
  }

  lemma KeptIsRecent(accounts: seq<Account>, next: Id, kept: Account)
    requires DistinctIds(accounts)
    requires |Extras(accounts, Some(next))| > MAX_EXTRAS
    requires kept in TrimExtras(accounts, next) && Extra(kept, Some(next))
    ensures var sorted := ByRecency(Extras(accounts, Some(next)));
            |sorted| > MAX_EXTRAS && (kept.id == sorted[0].id || kept.id == sorted[1].id)
  {
    var trimmed := TrimExtras(accounts, next);
    RecencyKeepsElements(Extras(accounts, Some(next)));
    var i :| 0 <= i < |trimmed| && trimmed[i] == kept;
    assert accounts[i] in accounts;
    var j := PlaceByRecency(accounts, Some(next), accounts[i]);
    TrimDecides(accounts, next, i, j);
  }

  lemma TrimFits(accounts: seq<Account>, next: Id)
    requires DistinctIds(accounts)
    requires |Extras(accounts, Some(next))| > MAX_EXTRAS
    ensures |Extras(TrimExtras(accounts, next), Some(next))| <= MAX_EXTRAS
  {
    var trimmed, sorted := TrimExtras(accounts, next), ByRecency(Extras(accounts, Some(next)));
    var extras := Extras(trimmed, Some(next));
    RecencyKeepsElements(Extras(accounts, Some(next)));
    ExtrasElements(trimmed, Some(next));
    forall k | 0 <= k < |extras|
      ensures extras[k].id == sorted[0].id || extras[k].id == sorted[1].id
    {
      assert extras[k] in extras;
      KeptIsRecent(accounts, next, extras[k]);
    }
    TwoIds(extras, sorted[0].id, sorted[1].id);
  }

  lemma TrimChanges(accounts: seq<Account>, next: Id)
    requires DistinctIds(accounts)
    ensures SameButShown(accounts, TrimExtras(accounts, next))
    ensures |Extras(TrimExtras(accounts, next), Some(next))| <= MAX_EXTRAS
    ensures forall i | 0 <= i < |accounts| :: TrimExtras(accounts, next)[i].shown ==> accounts[i].shown
  {
    if |Extras(accounts, Some(next))| > MAX_EXTRAS {
      TrimFits(accounts, next);
    }
  }

  /** Trimming keeps the most recently updated extras: no dropped one is newer than a kept one. */
  lemma TrimKeepsNewest(accounts: seq<Account>, next: Id, kept: nat, dropped: nat)
    requires DistinctIds(accounts) && kept < |accounts| && dropped < |accounts|
    requires Extra(accounts[kept], Some(next)) && TrimExtras(accounts, next)[kept].shown
    requires Extra(accounts[dropped], Some(next)) && !TrimExtras(accounts, next)[dropped].shown
    ensures accounts[kept].updatedAt >= accounts[dropped].updatedAt
  {
    var sorted := ByRecency(Extras(accounts, Some(next)));
    RecencySorts(Extras(accounts, Some(next)));
    assert accounts[kept] in accounts && accounts[dropped] in accounts;
    var i := PlaceByRecency(accounts, Some(next), accounts[kept]);
    var j := PlaceByRecency(accounts, Some(next), accounts[dropped]);
    TrimDecides(accounts, next, kept, i);
    TrimDecides(accounts, next, dropped, j);
    var k :| MAX_EXTRAS <= k < |sorted| && sorted[k].id == accounts[dropped].id;
    RecentAreExtras(accounts, Some(next), k);
    var d :| 0 <= d < |accounts| && accounts[d] == sorted[k];
    assert d == dropped;
  }

  lemma ReconcileFits(accounts: seq<Account>, next: Id, previous: Option<Id>, now: int)
    requires DistinctIds(accounts)
    ensures SameButShown(accounts, Reconcile(accounts, next, previous, now))
    ensures ExtrasFit(Reconcile(accounts, next, previous, now), Some(next))
  {
    var hidden := Update(accounts, next, false, None);
    UpdateChanges(accounts, next, false, None, Some(next));
    var trimmed := TrimExtras(hidden, next);
    TrimChanges(hidden, next);
    if previous.Some? && previous != Some(next) {
      UpdateChanges(trimmed, previous.value, |Extras(trimmed, Some(next))| < MAX_EXTRAS, Some(now), Some(next));
    }
  }

  // ---- Every operation keeps the invariant ----

  lemma SameIds(a: seq<Account>, b: seq<Account>)
    requires |a| == |b| && forall i | 0 <= i < |a| :: a[i].id == b[i].id && a[i].virtual == b[i].virtual
    ensures DistinctIds(a) ==> DistinctIds(b)
    ensures KindsMatch(a) ==> KindsMatch(b)
    ensures forall id :: Has(a, id) <==> Has(b, id)
  {
    forall id
      ensures Has(a, id) <==> Has(b, id)
    {
      if Has(a, id) {
        var i :| 0 <= i < |a| && a[i].id == id;
        assert b[i].id == id;
      }
      if Has(b, id) {
        var i :| 0 <= i < |b| && b[i].id == id;
        assert a[i].id == id;
      }
    }
  }

  /** Reconciling repairs the status bar, whatever was shown before. */
  lemma ReconcileKeepsInv(ix: Index, next: Id, previous: Option<Id>, now: int)
    requires DistinctIds(ix.accounts) && KindsMatch(ix.accounts) && FlagsMatch(ix) && PointersMatch(ix)
    requires ix.current == Some(next) || (ix.current == None && !Has(ix.accounts, next))
    ensures Inv(ix.(accounts := Reconcile(ix.accounts, next, previous, now)))
  {
    var reconciled := Reconcile(ix.accounts, next, previous, now);
    ReconcileFits(ix.accounts, next, previous, now);
    SameIds(ix.accounts, reconciled);
    if ix.current == None {
      assert forall i | 0 <= i < |reconciled| :: ix.accounts[i].id != next;
      ExtrasBound(reconciled, Some(next), reconciled, None, |reconciled|);
    }
  }

  /** Activating an existing account re-establishes the whole invariant, from any flags, pointers and selections. */
  lemma SwitchRepairs(ix: Index, id: Id, now: int)
    requires DistinctIds(ix.accounts) && KindsMatch(ix.accounts)
    requires Has(ix.accounts, id) && !VirtualId(id)
    ensures Inv(Switch(ix, id, now))
    ensures Switch(ix, id, now).current == Some(id)
  {
    var marked := MarkActive(ix, id);
    SameIds(ix.accounts, marked.accounts);
    ReconcileKeepsInv(marked, id, ix.current, now);
  }

  lemma SwitchKeepsInv(ix: Index, id: Id, now: int)
    requires Inv(ix)
    ensures Inv(Switch(ix, id, now))
  {
    var i := IndexOf(ix.accounts, id);
    if i < |ix.accounts| && !ix.accounts[i].virtual {
      SwitchRepairs(ix, id, now);
    }
  }

  lemma SyncKeepsInv(ix: Index, derived: Option<Id>, now: int)
    requires Inv(ix)
    requires derived.Some? ==> !VirtualId(derived.value)
    ensures Inv(SyncFromAuthFile(ix, derived, now))
  {
    if ix.route == ChatGpt {
      var synced := SyncActive(ix, derived);
      SameIds(ix.accounts, synced.accounts);
      if derived.Some? && ix.current != derived {
        ReconcileKeepsInv(synced, derived.value, ix.current, now);
      } else {
        ActiveNotExtra(ix.accounts, ix.current);
        ExtrasBound(ix.accounts, ix.current, synced.accounts, synced.current, |ix.accounts|);
      }
    }
  }

  /** The active account is not shown, so excluding it or not makes no difference. */
  lemma ActiveNotExtra(accounts: seq<Account>, active: Option<Id>)
    requires ExtrasFit(accounts, active)
    ensures forall i | 0 <= i < |accounts| :: Extra(accounts[i], active) <==> accounts[i].shown
  {
  }

  lemma {:induction false} WithoutKeeps(accounts: seq<Account>, id: Id)
    ensures forall a :: a in Without(accounts, id) <==> a in accounts && a.id != id
    ensures DistinctIds(accounts) ==> DistinctIds(Without(accounts, id))
  {
    if accounts == [] {
    } else {
      var rest := Without(accounts[1..], id);
      WithoutKeeps(accounts[1..], id);
      assert accounts == [accounts[0]] + accounts[1..];
      if DistinctIds(accounts) {
        forall j | 0 <= j < |rest|
          ensures rest[j].id != accounts[0].id
        {
          assert rest[j] in accounts[1..];
        }
      }
    }
  }

  lemma {:induction false} ExtrasWithout(accounts: seq<Account>, id: Id, active: Option<Id>)
    requires DistinctIds(accounts)
    ensures |Extras(Without(accounts, id), active)|
         == |Extras(accounts, active)| - if ShownBefore(accounts, id) && active != Some(id) then 1 else 0
  {
    if accounts == [] {
    } else if accounts[0].id == id {
      NothingWithout(accounts[1..], id);
      assert Without(accounts, id) == accounts[1..];
      assert IndexOf(accounts, id) == 0;
    } else {
      ExtrasWithout(accounts[1..], id, active);
      ExtrasConcat([accounts[0]], Without(accounts[1..], id), active);
    }
  }

  lemma {:induction false} NothingWithout(accounts: seq<Account>, id: Id)
    requires forall i | 0 <= i < |accounts| :: accounts[i].id != id
    ensures Without(accounts, id) == accounts
  {
    if accounts == [] {
    } else {
      NothingWithout(accounts[1..], id);
    }
  }

  function OneExtra(a: Account, active: Option<Id>): seq<Account> {
    if Extra(a, active) then [a] else []
  }

  lemma ExtrasHead(a: Account, accounts: seq<Account>, active: Option<Id>)
    ensures Extras([a] + accounts, active) == OneExtra(a, active) + Extras(accounts, active)
  {
    assert ([a] + accounts)[1..] == accounts;
  }

  lemma {:induction false} ExtrasConcat(a: seq<Account>, b: seq<Account>, active: Option<Id>)
    ensures Extras(a + b, active) == Extras(a, active) + Extras(b, active)
  {
    if a == [] {
      assert a + b == b;
    } else {
      ExtrasConcat(a[1..], b, active);
      assert a == [a[0]] + a[1..] && a + b == [a[0]] + (a[1..] + b);
      ExtrasOfThree(a[0], a[1..], b, active);
    }
  }

  lemma ExtrasOfThree(head: Account, tail: seq<Account>, b: seq<Account>, active: Option<Id>)
    requires Extras(tail + b, active) == Extras(tail, active) + Extras(b, active)
    ensures Extras([head] + (tail + b), active) == Extras([head] + tail, active) + Extras(b, active)
  {
    ExtrasHead(head, tail + b, active);
    ExtrasHead(head, tail, active);
  }

  lemma WithoutHas(accounts: seq<Account>, id: Id, appended: seq<Account>, other: Id)
    requires |appended| <= 1 && forall i | 0 <= i < |appended| :: appended[i].id == id
    ensures var r := Without(accounts, id) + appended;
            Has(r, other) <==> (Has(accounts, other) && other != id) || (other == id && appended != [])
  {
    var rest := Without(accounts, id);
    var r := rest + appended;
    WithoutKeeps(accounts, id);
    if Has(accounts, other) && other != id {
      var i :| 0 <= i < |accounts| && accounts[i].id == other;
      assert accounts[i] in rest;
      var j :| 0 <= j < |rest| && rest[j] == accounts[i];
      assert r[j].id == other;
    }
    if appended != [] {
      assert r[|rest|].id == id;
    }
    if Has(r, other) {
      var i :| 0 <= i < |r| && r[i].id == other;
      if i < |rest| {
        assert rest[i] in rest && rest[i] in accounts;
      }
    }
  }

  /** What holds of the records after one is taken out, and perhaps a new one for the same identifier is appended. */
  lemma WithoutShape(accounts: seq<Account>, id: Id, appended: seq<Account>)
    requires DistinctIds(accounts) && KindsMatch(accounts)
    requires |appended| <= 1 && forall i | 0 <= i < |appended| :: appended[i].id == id && appended[i].virtual == VirtualId(id)
    ensures var r := Without(accounts, id) + appended;
            && DistinctIds(r) && KindsMatch(r)
            && (forall i | 0 <= i < |r| :: r[i] in appended || (r[i] in accounts && r[i].id != id))
            && (forall other :: Has(r, other) <==> (Has(accounts, other) && other != id) || (other == id && appended != []))
  {
    var rest := Without(accounts, id);
    WithoutKeeps(accounts, id);
    forall i | 0 <= i < |rest|
      ensures rest[i] in accounts && rest[i].id != id && rest[i].virtual == VirtualId(rest[i].id)
    {
      assert rest[i] in rest;
    }
    forall other
      ensures Has(rest + appended, other) <==> (Has(accounts, other) && other != id) || (other == id && appended != [])
    {
      WithoutHas(accounts, id, appended, other);
    }
  }

  /** The records that remain keep their flags, and the status bar still fits. */
  lemma RemainingFlags(ix: Index, id: Id)
    requires Inv(ix)
    ensures var rest := Without(ix.accounts, id);
            && DistinctIds(rest) && KindsMatch(rest) && ExtrasFit(rest, ix.current)
            && (forall other :: Has(rest, other) <==> Has(ix.accounts, other) && other != id)
            && forall i | 0 <= i < |rest| ::
                 rest[i].id != id && rest[i].isActive == (ix.current == Some(rest[i].id))
                 && rest[i].providerActive == (ix.provider == Some(rest[i].id))
  {
    var rest := Without(ix.accounts, id);
    WithoutShape(ix.accounts, id, []);
    assert rest + [] == rest;
    ExtrasWithout(ix.accounts, id, ix.current);
  }

  lemma RemoveKeepsInv(ix: Index, id: Id)
    requires Inv(ix)
    ensures Inv(Remove(ix, id)) && !Has(Remove(ix, id).accounts, id)
  {
    var rest, after := Without(ix.accounts, id), Remove(ix, id);
    RemainingFlags(ix, id);
    SameIds(rest, after.accounts);
    ExtrasBound(rest, ix.current, after.accounts, after.current, |rest|);
  }

  lemma ShowKeepsInv(ix: Index, id: Id, visible: bool, now: int)
    requires Inv(ix)
    ensures Inv(SetStatusBarVisibility(ix, id, visible, now))
  {
    var i := IndexOf(ix.accounts, id);
    if i < |ix.accounts| {
      InactiveAreExtras(ix.accounts, ix.current);
      var shown := visible && !ix.accounts[i].isActive;
      UpdateChanges(ix.accounts, id, shown, Some(now), ix.current);
      SameIds(ix.accounts, Update(ix.accounts, id, shown, Some(now)));
    }
  }

  lemma {:induction false} InactiveAreExtras(accounts: seq<Account>, active: Option<Id>)
    requires forall i | 0 <= i < |accounts| :: accounts[i].isActive == (active == Some(accounts[i].id))
    ensures ShownInactive(accounts) == Extras(accounts, active)
  {
    if accounts == [] {
    } else {
      InactiveAreExtras(accounts[1..], active);
    }
  }

  lemma ProviderKeepsInv(ix: Index, id: Option<Id>)
    requires Inv(ix)
    ensures Inv(SwitchProvider(ix, id))
  {
    var after := SwitchProvider(ix, id);
    SameIds(ix.accounts, after.accounts);
    ExtrasBound(ix.accounts, ix.current, after.accounts, ix.current, |ix.accounts|);
  }

  lemma AppendedExtras(accounts: seq<Account>, id: Id, account: Account, active: Option<Id>)
    requires DistinctIds(accounts) && account.id == id && account.shown == ShownBefore(accounts, id)
    ensures |Extras(Without(accounts, id) + [account], active)| == |Extras(accounts, active)|
  {
    ExtrasWithout(accounts, id, active);
    ExtrasConcat(Without(accounts, id), [account], active);
  }

  lemma UpsertVirtualKeepsInv(ix: Index, g: Gateway, now: int)
    requires Inv(ix)
    ensures Inv(UpsertVirtual(ix, g, now))
  {
    var id := GatewayId(g);
    var i := IndexOf(ix.accounts, id);
    if i == |ix.accounts| || ix.accounts[i].virtual {
      var account := VirtualRecord(ix, g, now);
      WithoutShape(ix.accounts, id, [account]);
      AppendedExtras(ix.accounts, id, account, ix.current);
      AppendedFlags(ix, id, account);
    }
  }

  /** Records other than the replaced one keep their flags. */
  lemma AppendedFlags(ix: Index, id: Id, account: Account)
    requires Inv(ix) && account.id == id && account.virtual == VirtualId(id)
    ensures var r := Without(ix.accounts, id) + [account];
            forall i | 0 <= i < |r| && r[i].id != id ::
              && r[i].isActive == (ix.current == Some(r[i].id)) && r[i].providerActive == (ix.provider == Some(r[i].id))
              && (ix.current == Some(r[i].id) ==> !r[i].shown)
    ensures var r := Without(ix.accounts, id) + [account];
            forall i | 0 <= i < |r| && r[i].id == id :: r[i] == account
  {
    WithoutShape(ix.accounts, id, [account]);
  }

  lemma UpsertActiveKeepsInv(ix: Index, id: Id, now: int)
    requires Inv(ix) && !VirtualId(id)
    ensures Inv(UpsertActive(ix, id, now))
  {
    var replaced := Replaced(ix, id, true, now);
    var account := replaced[|replaced| - 1];
    WithoutShape(ix.accounts, id, [account]);
    var marked := MarkActive(ix.(accounts := replaced), id);
    var routed := if ix.route == Sub2Api
                  then Index(marked.current, Sub2Api, ix.provider, SetProvider(marked.accounts, ix.provider))
                  else marked;
    SameIds(replaced, routed.accounts);
    ReconcileKeepsInv(routed, id, ix.current, now);
  }

  /** A non-activating upsert keeps the invariant exactly when it is not for the current account: it clears the flag
      of the record, but not the pointer that names it. */
  lemma UpsertInactiveKeepsInvExactlyWhen(ix: Index, id: Id, now: int)
    requires Inv(ix) && !VirtualId(id)
    ensures Inv(UpsertInactive(ix, id, now)) <==> ix.current != Some(id)
  {
    var r := Replaced(ix, id, false, now);
    var account := r[|r| - 1];
    WithoutShape(ix.accounts, id, [account]);
    AppendedExtras(ix.accounts, id, account, ix.current);
    AppendedFlags(ix, id, account);
    assert r[|r| - 1].id == id;
  }

  // ---- What happens to the selections ----

  lemma SameExtras(a: seq<Account>, b: seq<Account>, active: Option<Id>)
    requires |a| == |b| && forall i | 0 <= i < |a| :: Extra(a[i], active) <==> Extra(b[i], active)
    ensures |Extras(a, active)| == |Extras(b, active)|
  {
    ExtrasBound(a, active, b, active, |b|);
    ExtrasBound(b, active, a, active, |a|);
  }

  lemma SwitchUpdates(ix: Index, id: Id, hidden: seq<Account>)
    requires Inv(ix) && Has(ix.accounts, id) && !VirtualId(id) && ix.current != Some(id)
    requires hidden == Update(MarkActive(ix, id).accounts, id, false, None)
    ensures DistinctIds(hidden) && |hidden| == |ix.accounts|
    ensures forall i | 0 <= i < |hidden| ::
              hidden[i].id == ix.accounts[i].id && hidden[i].shown == (ix.accounts[i].shown && hidden[i].id != id)
    ensures |Extras(hidden, Some(id))| == |Extras(ix.accounts, Some(id))| <= MAX_EXTRAS
  {
    var marked := MarkActive(ix, id).accounts;
    SameIds(ix.accounts, marked);
    UpdateChanges(marked, id, false, None, Some(id));
    SameIds(marked, hidden);
    SameExtras(ix.accounts, hidden, Some(id));
    ExtrasBound(ix.accounts, ix.current, ix.accounts, Some(id), |ix.accounts|);
  }

  lemma SwitchIs(ix: Index, id: Id, now: int, hidden: seq<Account>)
    requires Inv(ix) && Has(ix.accounts, id) && !VirtualId(id) && ix.current != Some(id)
    requires hidden == Update(MarkActive(ix, id).accounts, id, false, None) && |Extras(hidden, Some(id))| <= MAX_EXTRAS
    ensures Switch(ix, id, now).accounts
         == if ix.current == None then hidden
            else Update(hidden, ix.current.value, |Extras(hidden, Some(id))| < MAX_EXTRAS, Some(now))
  {
    assert TrimExtras(hidden, id) == hidden;
  }

  /** Activating another account hides it, keeps every other extra, and shows the account that was active before
      exactly when fewer than two extras are left. */
  lemma SwitchSelections(ix: Index, id: Id, now: int, i: nat)
    requires Inv(ix) && Has(ix.accounts, id) && !VirtualId(id) && ix.current != Some(id) && i < |ix.accounts|
    ensures var after := Switch(ix, id, now).accounts;
            && |after| == |ix.accounts| && after[i].id == ix.accounts[i].id
            && after[i].shown == (if after[i].id == id then false
                                  else if ix.current == Some(after[i].id) then |Extras(ix.accounts, Some(id))| < MAX_EXTRAS
                                  else ix.accounts[i].shown)
  {
    var hidden := Update(MarkActive(ix, id).accounts, id, false, None);
    SwitchUpdates(ix, id, hidden);
    SwitchIs(ix, id, now, hidden);
    if ix.current.Some? {
      UpdateChanges(hidden, ix.current.value, |Extras(ix.accounts, Some(id))| < MAX_EXTRAS, Some(now), Some(id));
    }
  }

  /** Asking to show an account takes effect exactly when it is not active and was shown already or finds room; asking
      to hide it always does. No other account is touched. */
  lemma ShowTakesEffectExactlyWhen(ix: Index, id: Id, visible: bool, now: int, i: nat)
    requires Inv(ix) && i < |ix.accounts|
    ensures var after := SetStatusBarVisibility(ix, id, visible, now).accounts;
            && |after| == |ix.accounts|
            && (ix.accounts[i].id != id ==> after[i] == ix.accounts[i])
            && (ix.accounts[i].id == id ==>
                  after[i].shown == (visible && ix.current != Some(id)
                                     && (ix.accounts[i].shown || |Extras(ix.accounts, ix.current)| < MAX_EXTRAS)))
  {
    InactiveAreExtras(ix.accounts, ix.current);
    if ix.accounts[i].id == id {
      assert IndexOf(ix.accounts, id) == i;
    }
  }

  // ---- Runs ----

  datatype Operation =
    | Activate(id: Id)
    | SyncAuth(derived: Option<Id>)
    | SelectProvider(provider: Option<Id>)
    | SaveVirtual(gateway: Gateway)
    | SaveActive(id: Id)
    | SaveInactive(id: Id)
    | Delete(id: Id)
    | ShowInStatusBar(id: Id, visible: bool)

  /** OAuth identifiers are not of the virtual form, and a credential import that does not activate is for another
      account than the current one. */
  predicate Allowed(ix: Index, op: Operation) {
    match op
    case SyncAuth(derived) => derived.Some? ==> !VirtualId(derived.value)
    case SaveActive(id) => !VirtualId(id)
    case SaveInactive(id) => !VirtualId(id) && ix.current != Some(id)
    case _ => true
  }

  function Apply(ix: Index, op: Operation, now: int): Index
    requires Allowed(ix, op)
  {
    match op
    case Activate(id) => Switch(ix, id, now)
    case SyncAuth(derived) => SyncFromAuthFile(ix, derived, now)
    case SelectProvider(provider) => SwitchProvider(ix, provider)
    case SaveVirtual(gateway) => UpsertVirtual(ix, gateway, now)
    case SaveActive(id) => UpsertActive(ix, id, now)
    case SaveInactive(id) => UpsertInactive(ix, id, now)
    case Delete(id) => Remove(ix, id)
    case ShowInStatusBar(id, visible) => SetStatusBarVisibility(ix, id, visible, now)
  }

  lemma ApplyKeepsInv(ix: Index, op: Operation, now: int)
    requires Inv(ix) && Allowed(ix, op)
    ensures Inv(Apply(ix, op, now))
  {
    match op
    case Activate(id) => SwitchKeepsInv(ix, id, now);
    case SyncAuth(derived) => SyncKeepsInv(ix, derived, now);
    case SelectProvider(provider) => ProviderKeepsInv(ix, provider);
    case SaveVirtual(gateway) => UpsertVirtualKeepsInv(ix, gateway, now);
    case SaveActive(id) => UpsertActiveKeepsInv(ix, id, now);
    case SaveInactive(id) => UpsertInactiveKeepsInvExactlyWhen(ix, id, now);
    case Delete(id) => RemoveKeepsInv(ix, id);
    case ShowInStatusBar(id, visible) => ShowKeepsInv(ix, id, visible, now);
  }

  ghost predicate IsRun(states: seq<Index>, ops: seq<Operation>, times: seq<int>) {
    && |states| == |ops| + 1 && |times| == |ops|
    && forall i | 0 <= i < |ops| :: Allowed(states[i], ops[i]) && states[i + 1] == Apply(states[i], ops[i], times[i])
  }

  const EmptyIndex := Index(None, ChatGpt, None, [])

  /** In every run from the empty index the flags, the pointers and the status bar agree after each operation. */
  lemma {:induction false} RunKeepsInv(states: seq<Index>, ops: seq<Operation>, times: seq<int>, i: nat)
    requires IsRun(states, ops, times) && states[0] == EmptyIndex && i < |states|
    ensures Inv(states[i])
  {
    if i > 0 {
      RunKeepsInv(states, ops, times, i - 1);
      assert states[i - 1 + 1] == Apply(states[i - 1], ops[i - 1], times[i - 1]);
      ApplyKeepsInv(states[i - 1], ops[i - 1], times[i - 1]);
    }
  }

  // ---- The index as the repository edits it ----

  class AccountsIndex {
    var currentAccountId: Option<Id>
    var currentProviderRoute: Route
    var currentProviderAccountId: Option<Id>
    var accounts: seq<Account>

    constructor ()
      ensures Contents() == EmptyIndex && Inv(Contents())
    {
      currentAccountId, currentProviderRoute, currentProviderAccountId, accounts := None, ChatGpt, None, [];
    }

    function Contents(): Index
      reads this
    {
      Index(currentAccountId, currentProviderRoute, currentProviderAccountId, accounts)
    }

    method MarkActiveAccount(id: Id)
      modifies this
      ensures Contents() == MarkActive(old(Contents()), id)
    {
      currentAccountId, currentProviderRoute, currentProviderAccountId := Some(id), ChatGpt, Some(id);
      for i := 0 to |accounts|
        invariant currentAccountId == Some(id) && currentProviderRoute == ChatGpt && currentProviderAccountId == Some(id)
        invariant |accounts| == |old(accounts)|
        invariant forall j | 0 <= j < i :: accounts[j] == MarkActive(old(Contents()), id).accounts[j]
        invariant forall j | i <= j < |accounts| :: accounts[j] == old(accounts)[j]
      {
        var isThis := accounts[i].id == id;
        accounts := accounts[i := accounts[i].(isActive := isThis, providerActive := isThis)];
      }
    }

    method SetProviderFlags(provider: Option<Id>)
      modifies `accounts
      ensures accounts == SetProvider(old(accounts), provider)
    {
      for i := 0 to |accounts|
        invariant |accounts| == |old(accounts)|
        invariant forall j | 0 <= j < i :: accounts[j] == SetProvider(old(accounts), provider)[j]
        invariant forall j | i <= j < |accounts| :: accounts[j] == old(accounts)[j]
      {
        accounts := accounts[i := accounts[i].(providerActive := provider == Some(accounts[i].id))];
      }
    }

    /** Says whether the current account or any flag changed. */
    method SyncActiveAccountState(id: Option<Id>) returns (changed: bool)
      modifies this
      ensures Contents() == SyncActive(old(Contents()), id)
      ensures changed <==> currentAccountId != old(currentAccountId) || accounts != old(accounts)
    {
      if currentProviderRoute == Sub2Api {
        return false;
      }
      var normalized := if id.Some? && Has(accounts, id.value) then id else None;
      changed := currentAccountId != normalized;
      currentAccountId, currentProviderRoute, currentProviderAccountId := normalized, ChatGpt, normalized;
      var flags := SetActivity(normalized);
      changed := changed || flags;
    }

    /** Both flags of every record follow the account; says whether any of them changed. */
    method SetActivity(id: Option<Id>) returns (changed: bool)
      modifies `accounts
      ensures accounts == SetProvider(SetActive(old(accounts), id), id)
      ensures changed <==> accounts != old(accounts)
    {
      ghost var target := SetProvider(SetActive(accounts, id), id);
      changed := false;
      for i := 0 to |accounts|
        invariant |accounts| == |old(accounts)|
        invariant forall j | 0 <= j < i :: accounts[j] == target[j]
        invariant forall j | i <= j < |accounts| :: accounts[j] == old(accounts)[j]
        invariant changed <==> exists j :: 0 <= j < i && target[j] != old(accounts)[j]
      {
        var next := id == Some(accounts[i].id);
        if accounts[i].isActive != next || accounts[i].providerActive != next {
          accounts := accounts[i := accounts[i].(isActive := next, providerActive := next)];
          changed := true;
        }
      }
    }

    method ReconcileStatusBarSelections(next: Id, previous: Option<Id>, now: int)
      modifies `accounts
      ensures accounts == Reconcile(old(accounts), next, previous, now)
    {
      accounts := Update(accounts, next, false, None);
      var extras := Extras(accounts, Some(next));
      if |extras| > MAX_EXTRAS {
        RecencyKeepsElements(extras);
        accounts := HideExtras(accounts, Ids(ByRecency(extras)[MAX_EXTRAS..]));
      }
      if previous == None || previous == Some(next) {
        return;
      }
      var count := |Extras(accounts, Some(next))|;
      accounts := Update(accounts, previous.value, count < MAX_EXTRAS, Some(now));
    }

    method SwitchActiveAccount(id: Id, now: int) returns (switched: bool)
      modifies this
      ensures Contents() == Switch(old(Contents()), id, now)
      ensures switched <==> exists i :: 0 <= i < |old(accounts)| && i == IndexOf(old(accounts), id) && !old(accounts)[i].virtual
      ensures old(Inv(Contents())) ==> Inv(Contents())
    {
      ghost var before := Contents();
      if Inv(before) {
        SwitchKeepsInv(before, id, now);
      }
      var i := IndexOf(accounts, id);
      if i == |accounts| || accounts[i].virtual {
        return false;
      }
      var previous := currentAccountId;
      MarkActiveAccount(id);
      ReconcileStatusBarSelections(id, previous, now);
      return true;
    }

    method SyncActiveAccountFromAuthFile(derived: Option<Id>, now: int)
      requires derived.Some? ==> !VirtualId(derived.value)
      modifies this
      ensures Contents() == SyncFromAuthFile(old(Contents()), derived, now)
      ensures old(Inv(Contents())) ==> Inv(Contents())
    {
      ghost var before := Contents();
      if Inv(before) {
        SyncKeepsInv(before, derived, now);
      }
      if currentProviderRoute == Sub2Api {
        return;
      }
      var previous := currentAccountId;
      var _ := SyncActiveAccountState(derived);
      if derived.Some? && previous != derived {
        ReconcileStatusBarSelections(derived.value, previous, now);
      }
    }

    method RemoveAccountFromIndex(id: Id)
      modifies this
      ensures Contents() == Remove(old(Contents()), id)
      ensures old(Inv(Contents())) ==> Inv(Contents())
    {
      ghost var before := Contents();
      if Inv(before) {
        RemoveKeepsInv(before, id);
      }
      accounts := Without(accounts, id);
      if currentAccountId == Some(id) {
        currentAccountId := None;
      }
      if currentProviderAccountId == Some(id) {
        currentProviderRoute := ChatGpt;
        currentProviderAccountId := currentAccountId;
        SetProviderFlags(currentProviderAccountId);
      }
    }

    /** The result tells whether the limit of two extras refused the change. */
    method SetVisibility(id: Id, visible: bool, now: int) returns (refused: bool)
      modifies this
      ensures Contents() == SetStatusBarVisibility(old(Contents()), id, visible, now)
      ensures refused ==> Contents() == old(Contents())
      ensures old(Inv(Contents())) ==> Inv(Contents())
    {
      ghost var before := Contents();
      if Inv(before) {
        ShowKeepsInv(before, id, visible, now);
      }
      var i := IndexOf(accounts, id);
      if i == |accounts| {
        return false;
      }
      if accounts[i].isActive {
        accounts := Update(accounts, id, false, Some(now));
      } else if visible {
        if |ShownInactive(accounts)| >= MAX_EXTRAS {
          return true;
        }
        accounts := Update(accounts, id, true, Some(now));
      } else {
        accounts := Update(accounts, id, false, Some(now));
      }
      return false;
    }

    method SwitchProviderRoute(id: Option<Id>)
      modifies this
      ensures Contents() == SwitchProvider(old(Contents()), id)
      ensures old(Inv(Contents())) ==> Inv(Contents())
    {
      ghost var before := Contents();
      if Inv(before) {
        ProviderKeepsInv(before, id);
      }
      if id.Some? {
        var i := IndexOf(accounts, id.value);
        if i == |accounts| || !accounts[i].virtual || accounts[i].gateway == None {
          return;
        }
        currentProviderRoute, currentProviderAccountId := Sub2Api, id;
        SetProviderFlags(id);
        return;
      }
      currentProviderRoute, currentProviderAccountId := ChatGpt, currentAccountId;
      SetProviderFlags(currentAccountId);
    }

    method UpsertFromTokens(id: Id, forceActive: bool, now: int)
      requires !VirtualId(id)
      modifies this
      ensures Contents() == if forceActive then UpsertActive(old(Contents()), id, now) else UpsertInactive(old(Contents()), id, now)
      ensures old(Inv(Contents())) && (forceActive || old(currentAccountId) != Some(id)) ==> Inv(Contents())
    {
      ghost var before := Contents();
      if Inv(before) {
        UpsertActiveKeepsInv(before, id, now);
        UpsertInactiveKeepsInvExactlyWhen(before, id, now);
      }
      var previous, route, provider := currentAccountId, currentProviderRoute, currentProviderAccountId;
      accounts := Without(accounts, id) + [Account(id, false, None, forceActive, false, ShownBefore(accounts, id), now)];
      if forceActive {
        MarkActiveAccount(id);
        if route == Sub2Api {
          currentProviderRoute, currentProviderAccountId := Sub2Api, provider;
          SetProviderFlags(provider);
        }
        ReconcileStatusBarSelections(id, previous, now);
      }
    }

    method UpsertVirtualAccount(g: Gateway, now: int)
      modifies this
      ensures Contents() == UpsertVirtual(old(Contents()), g, now)
      ensures old(Inv(Contents())) ==> Inv(Contents())
    {
      ghost var before := Contents();
      if Inv(before) {
        UpsertVirtualKeepsInv(before, g, now);
      }
      if g.integrationId == "" || g.baseUrl == "" || g.model == "" || g.credentialRef == "" {
        return;
      }
      var id := "virtual:" + g.integrationId;
      var i := IndexOf(accounts, id);
      if i < |accounts| && !accounts[i].virtual {
        return;
      }
      var routed := currentProviderRoute == Sub2Api && currentProviderAccountId == Some(id);
      accounts := Without(accounts, id) + [Account(id, true, Some(g), false, routed, ShownBefore(accounts, id), now)];
    }
  }
}
