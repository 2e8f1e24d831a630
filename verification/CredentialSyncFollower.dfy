/** The follower's poll of one relay record, step by step
    (src/sharing/accountSharingService.ts, pollCredentialSyncs and applyCredentialSyncSnapshot). */
module CredentialSyncFollower {
  import opened CredentialSync
  import opened CredentialSyncProtocol
  import opened Wrappers

  lemma InstallSnoc(tokens: map<string, Credential>, accounts: Export, n: nat)
    requires n < |accounts|
    ensures Install(tokens, accounts[..n + 1]) == Install(tokens, accounts[..n])[accounts[n].id := WithoutRefreshToken(accounts[n])]
  {
    assert accounts[..n + 1][..n] == accounts[..n];
  }

  lemma {:induction false} InstallBoth(tokens: map<string, Credential>, a: Export, b: Export)
    ensures Install(tokens, a + b) == Install(Install(tokens, a), b)
    decreases |b|
  {
    if b == [] {
      assert a + b == a;
    } else {
      var n := |b| - 1;
      assert (a + b)[..|a + b| - 1] == a + b[..n];
      InstallBoth(tokens, a, b[..n]);
    }
  }

  /** The accounts the follower has already, or those it does not have, in the order of the snapshot. */
  function Select(accounts: Export, existing: set<string>, known: bool): Export {
    if accounts == [] then []
    else
      var init, last := accounts[..|accounts| - 1], accounts[|accounts| - 1];
      Select(init, existing, known) + if (last.id in existing) == known then [last] else []
  }

  /** Known accounts are updated first; new ones are imported afterwards. */
  function WriteOrder(accounts: Export, existing: set<string>): Export {
    Select(accounts, existing, true) + Select(accounts, existing, false)
  }

  lemma {:induction false} SelectIs(accounts: Export, existing: set<string>, known: bool)
    ensures forall c :: c in Select(accounts, existing, known) <==> c in accounts && (c.id in existing) == known
  {
    if accounts == [] {
    } else {
      assert accounts == accounts[..|accounts| - 1] + [accounts[|accounts| - 1]];
      SelectIs(accounts[..|accounts| - 1], existing, known);
    }
  }

  lemma {:induction false} SelectSplits(accounts: Export, existing: set<string>)
    ensures multiset(Select(accounts, existing, true)) + multiset(Select(accounts, existing, false)) == multiset(accounts)
  {
    if accounts == [] {
    } else {
      assert accounts == accounts[..|accounts| - 1] + [accounts[|accounts| - 1]];
      SelectSplits(accounts[..|accounts| - 1], existing);
    }
  }

  lemma {:induction false} OrderLength(accounts: Export, existing: set<string>)
    ensures |WriteOrder(accounts, existing)| == |accounts|
  {
    if accounts == [] {
    } else {
      OrderLength(accounts[..|accounts| - 1], existing);
    }
  }

  lemma KnownComeFirst(accounts: Export, existing: set<string>)
    ensures forall i :: 0 <= i < |WriteOrder(accounts, existing)| ==>
              (WriteOrder(accounts, existing)[i].id in existing <==> i < |Select(accounts, existing, true)|)
  {
    SelectIs(accounts, existing, true);
    SelectIs(accounts, existing, false);
    var order, known, added := WriteOrder(accounts, existing), Select(accounts, existing, true), Select(accounts, existing, false);
    forall i | 0 <= i < |order|
      ensures order[i].id in existing <==> i < |known|
    {
      if i < |known| {
        assert order[i] == known[i] && known[i] in known;
      } else {
        assert order[i] == added[i - |known|] && added[i - |known|] in added;
      }
    }
  }

  /** Writing in this order writes each account of the snapshot once, known ones before new ones, and nothing else. */
  lemma OrderIsComplete(accounts: Export, existing: set<string>)
    ensures Within(WriteOrder(accounts, existing), accounts) && Within(accounts, WriteOrder(accounts, existing))
    ensures multiset(WriteOrder(accounts, existing)) == multiset(accounts)
    ensures forall i, j :: 0 <= i < j < |WriteOrder(accounts, existing)| && WriteOrder(accounts, existing)[j].id in existing ==>
              WriteOrder(accounts, existing)[i].id in existing
  {
    SelectIs(accounts, existing, true);
    SelectIs(accounts, existing, false);
    SelectSplits(accounts, existing);
    KnownComeFirst(accounts, existing);
  }

  lemma PrefixIsWithin(accounts: Export, existing: set<string>, n: nat)
    requires n <= |WriteOrder(accounts, existing)|
    ensures Within(WriteOrder(accounts, existing)[..n], accounts)
  {
    OrderIsComplete(accounts, existing);
  }

  predicate Conflicts(accounts: Export, ids: set<string>) {
    exists i :: 0 <= i < |accounts| && accounts[i].id in ids
  }

  /** How many accounts are written: none on a conflict, known ones up to the first that meanwhile belongs to another
      relationship, and then as many new ones as the import manages. */
  function Writes(accounts: Export, conflicting: set<string>, existing: set<string>, taken: set<string>, imports: nat): (n: nat)
    ensures n <= |WriteOrder(accounts, existing)|
  {
    var known, added := Select(accounts, existing, true), Select(accounts, existing, false);
    if Conflicts(accounts, conflicting) then 0
    else if Conflicts(known, taken) then FirstTaken(known, taken)
    else |known| + if imports < |added| then imports else |added|
  }

  function FirstTaken(accounts: Export, taken: set<string>): (n: nat)
    ensures n <= |accounts| && (n < |accounts| ==> accounts[n].id in taken)
    ensures forall i :: 0 <= i < n ==> accounts[i].id !in taken
  {
    if accounts == [] || accounts[0].id in taken then 0 else 1 + FirstTaken(accounts[1..], taken)
  }

  lemma TakenStops(known: Export, taken: set<string>)
    ensures FirstTaken(known, taken) < |known| <==> Conflicts(known, taken)
  {
    if Conflicts(known, taken) {
      var i :| 0 <= i < |known| && known[i].id in taken;
    }
  }

  lemma PrefixOfBoth(known: Export, added: Export, n: nat)
    requires n <= |known| + |added|
    ensures (known + added)[..n] == if n <= |known| then known[..n] else known + added[..n - |known|]
    ensures known + added[..0] == known && known[..|known|] == known
  {
  }

  lemma WrittenIs(accounts: Export, conflicting: set<string>, existing: set<string>, taken: set<string>, imports: nat, imported: nat)
    requires !Conflicts(accounts, conflicting)
    requires imported == if imports < |Select(accounts, existing, false)| then imports else |Select(accounts, existing, false)|
    ensures var known, added := Select(accounts, existing, true), Select(accounts, existing, false);
            WriteOrder(accounts, existing)[..Writes(accounts, conflicting, existing, taken, imports)]
            == if FirstTaken(known, taken) < |known| then known[..FirstTaken(known, taken)] else known + added[..imported]
  {
    var known, added := Select(accounts, existing, true), Select(accounts, existing, false);
    TakenStops(known, taken);
    PrefixOfBoth(known, added, Writes(accounts, conflicting, existing, taken, imports));
  }

  /** Some account the follower already has meanwhile belongs to another relationship. */
  predicate KnownIsTaken(accounts: Export, existing: set<string>, taken: set<string>) {
    exists i :: 0 <= i < |accounts| && accounts[i].id in existing && accounts[i].id in taken
  }

  /** How many of the accounts the follower does not have. */
  function NewAmong(accounts: Export, existing: set<string>): nat {
    if accounts == [] then 0
    else NewAmong(accounts[..|accounts| - 1], existing) + if accounts[|accounts| - 1].id in existing then 0 else 1
  }

  lemma {:induction false} SelectedAreNew(accounts: Export, existing: set<string>)
    ensures NewAmong(accounts, existing) == |Select(accounts, existing, false)|
  {
    if accounts == [] {
    } else {
      SelectedAreNew(accounts[..|accounts| - 1], existing);
    }
  }

  lemma TakenAreKnown(accounts: Export, existing: set<string>, taken: set<string>)
    ensures Conflicts(Select(accounts, existing, true), taken) <==> KnownIsTaken(accounts, existing, taken)
  {
    SelectIs(accounts, existing, true);
    var known := Select(accounts, existing, true);
    if Conflicts(known, taken) {
      var i :| 0 <= i < |known| && known[i].id in taken;
      assert known[i] in accounts;
    }
    if KnownIsTaken(accounts, existing, taken) {
      var i :| 0 <= i < |accounts| && accounts[i].id in existing && accounts[i].id in taken;
      assert accounts[i] in known;
    }
  }

  /** Where writing stops: before the first write on a conflict, at the first known account that is taken, or among the
      new accounts when the import fails. */
  lemma WritesStopWhere(accounts: Export, conflicting: set<string>, existing: set<string>, taken: set<string>, imports: nat)
    ensures var (order, n) := (WriteOrder(accounts, existing), Writes(accounts, conflicting, existing, taken, imports));
            && (Conflicts(accounts, conflicting) ==> n == 0)
            && (forall i :: 0 <= i < n && order[i].id in existing ==> order[i].id !in taken)
            && (!Conflicts(accounts, conflicting) && n < |order| ==>
                  if order[n].id in existing then order[n].id in taken
                  else n == |accounts| - NewAmong(accounts, existing) + imports && imports < NewAmong(accounts, existing))
  {
    KnownComeFirst(accounts, existing);
    OrderLength(accounts, existing);
    SelectedAreNew(accounts, existing);
  }

  /** Everything is written exactly when there is no conflict, no known account is taken and the import manages all new ones. */
  lemma WritesAllExactlyWhen(accounts: Export, conflicting: set<string>, existing: set<string>, taken: set<string>, imports: nat)
    ensures Writes(accounts, conflicting, existing, taken, imports) == |accounts| <==>
              !Conflicts(accounts, conflicting) && !KnownIsTaken(accounts, existing, taken)
              && NewAmong(accounts, existing) <= imports
  {
    OrderLength(accounts, existing);
    TakenAreKnown(accounts, existing, taken);
    SelectedAreNew(accounts, existing);
  }

  /** The same of the accounts that are written. */
  lemma AllAreWritten(accounts: Export, conflicting: set<string>, existing: set<string>, taken: set<string>, imports: nat)
    ensures WriteOrder(accounts, existing)[..Writes(accounts, conflicting, existing, taken, imports)] == WriteOrder(accounts, existing)
       <==> !Conflicts(accounts, conflicting) && !KnownIsTaken(accounts, existing, taken) && NewAmong(accounts, existing) <= imports
  {
    OrderLength(accounts, existing);
    WritesAllExactlyWhen(accounts, conflicting, existing, taken, imports);
  }

  class SyncFollower {
    var version: nat
    var acknowledgedVersion: nat
    var tokens: map<string, Credential>

    constructor ()
      ensures Contents(None, None) == Follower(0, 0, None, None, map[])
    {
      version, acknowledgedVersion, tokens := 0, 0, map[];
    }

    function Contents(inbox: Option<RelayRecord>, toAcknowledge: Option<nat>): Follower
      reads this
    {
      Follower(version, acknowledgedVersion, inbox, toAcknowledge, tokens)
    }

    /** Accounts the follower has are updated one by one, up to one that meanwhile belongs to another relationship. */
    method UpdateKnown(known: Export, taken: set<string>) returns (updated: nat)
      modifies `tokens
      ensures updated == FirstTaken(known, taken) && tokens == Install(old(tokens), known[..updated])
    {
      updated := 0;
      while updated < |known| && known[updated].id !in taken
        invariant updated <= FirstTaken(known, taken)
        invariant tokens == Install(old(tokens), known[..updated])
      {
        InstallSnoc(old(tokens), known, updated);
        tokens := tokens[known[updated].id := known[updated].(refreshToken := None)];
        updated := updated + 1;
      }
    }

    /** New accounts are imported one by one; the import manages so many. */
    method ImportNew(added: Export, imports: nat) returns (imported: nat)
      modifies `tokens
      ensures imported == (if imports < |added| then imports else |added|) && tokens == Install(old(tokens), added[..imported])
    {
      imported := 0;
      while imported < |added| && imported < imports
        invariant imported <= |added| && imported <= imports
        invariant tokens == Install(old(tokens), added[..imported])
      {
        InstallSnoc(old(tokens), added, imported);
        tokens := tokens[added[imported].id := added[imported].(refreshToken := None)];
        imported := imported + 1;
      }
    }

    /** `conflicting` accounts stop everything before the first write. */
    method ApplySnapshot(accounts: Export, conflicting: set<string>, existing: set<string>, taken: set<string>, imports: nat)
      returns (ok: bool, ghost written: Export)
      modifies `tokens
      ensures written == WriteOrder(accounts, existing)[..Writes(accounts, conflicting, existing, taken, imports)]
      ensures tokens == Install(old(tokens), written)
      ensures ok <==> written == WriteOrder(accounts, existing)
    {
      if Conflicts(accounts, conflicting) {
        return false, [];
      }
      var known, added := Select(accounts, existing, true), Select(accounts, existing, false);
      WrittenIs(accounts, conflicting, existing, taken, imports, if imports < |added| then imports else |added|);
      var updated := UpdateKnown(known, taken);
      if updated < |known| {
        return false, known[..updated];
      }
      PrefixOfBoth(known, added, 0);
      var imported := ImportNew(added, imports);
      InstallBoth(old(tokens), known, added[..imported]);
      ok, written := imported == |added|, known + added[..imported];
    }

    /** One relay record, from reading it to the acknowledgement that is due. */
    method Poll(remote: RelayRecord, conflicting: set<string>, existing: set<string>, taken: set<string>, imports: nat)
      returns (toAcknowledge: Option<nat>, ok: bool, ghost written: Export)
      modifies this
      ensures Contents(None, toAcknowledge) == StepProcess(old(Contents(Some(remote), None)), ok, written)
      ensures remote.version > old(version) && Conflicts(remote.accounts, conflicting) ==> tokens == old(tokens)
      ensures remote.version > old(version) ==>
                (ok <==> !Conflicts(remote.accounts, conflicting) && !KnownIsTaken(remote.accounts, existing, taken)
                         && NewAmong(remote.accounts, existing) <= imports)
      ensures remote.version > old(version) ==> (ok <==> version == remote.version)
      ensures remote.version > old(version) && ok ==> toAcknowledge == Some(remote.version)
      ensures remote.version <= old(version) ==> ok && version == old(version) && tokens == old(tokens)
      ensures remote.version <= old(version) ==>
                toAcknowledge == if old(acknowledgedVersion) < old(version) then Some(old(version)) else None
      ensures acknowledgedVersion == old(acknowledgedVersion)
      ensures !ok ==> version == old(version) && toAcknowledge == None
    {
      ok, written, toAcknowledge := true, [], None;
      if remote.version <= version {
        if acknowledgedVersion < version {
          toAcknowledge := Some(version);
        }
        return;
      }
      PrefixIsWithin(remote.accounts, existing, Writes(remote.accounts, conflicting, existing, taken, imports));
      OrderIsComplete(remote.accounts, existing);
      AllAreWritten(remote.accounts, conflicting, existing, taken, imports);
      ok, written := ApplySnapshot(remote.accounts, conflicting, existing, taken, imports);
      if ok {
        version := remote.version;
        toAcknowledge := Some(version);
      }
    }

    /** The relay confirmed the acknowledgement. */
    method OnAcknowledged(confirmed: nat)
      modifies `acknowledgedVersion
      ensures acknowledgedVersion == Max(old(acknowledgedVersion), confirmed)
    {
      if acknowledgedVersion < confirmed {
        acknowledgedVersion := confirmed;
      }
    }
  }
}
