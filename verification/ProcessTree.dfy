/** The processes of one editor window: everything whose parent chain reaches the
    extension host (src/sessions/sessionLocks.ts). */
module ProcessTree {
  import opened Wrappers

  type Pid = nat

  /** Reference definition: following parent links `steps` times from `pid` arrives at `root`. */
  ghost predicate ReachesIn(parents: map<Pid, Pid>, pid: Pid, root: Pid, steps: nat)
    decreases steps
  {
    if steps == 0 then pid == root
    else pid in parents && ReachesIn(parents, parents[pid], root, steps - 1)
  }

  /** `pid` is the root, or its parent chain reaches the root after finitely many links. */
  ghost predicate Descends(parents: map<Pid, Pid>, pid: Pid, root: Pid)
  {
    exists steps: nat :: ReachesIn(parents, pid, root, steps)
  }

  /** A set closed under "my parent is in the set" that holds the root holds every descendant. */
  lemma {:induction false} ClosedSetHoldsDescendants(parents: map<Pid, Pid>, closed: set<Pid>, pid: Pid, root: Pid, steps: nat)
    requires root in closed
    requires forall p :: p in parents && parents[p] in closed ==> p in closed
    requires ReachesIn(parents, pid, root, steps)
    ensures pid in closed
    decreases steps
  {
    if steps > 0 {
      ClosedSetHoldsDescendants(parents, closed, parents[pid], root, steps - 1);
    }
  }

  lemma ChildDescends(parents: map<Pid, Pid>, pid: Pid, root: Pid)
    requires pid in parents && Descends(parents, parents[pid], root)
    ensures Descends(parents, pid, root)
  {
    var steps: nat :| ReachesIn(parents, parents[pid], root, steps);
    assert ReachesIn(parents, pid, root, steps + 1);
  }

  /** The fixpoint loop. `order` is the iteration order of the process table; the answer does
      not depend on it. The table must list the root, otherwise the caller learns nothing. */
  method DiscoverCurrentWindowProcessIds(rootPid: Pid, parentByPid: map<Pid, Pid>, order: seq<Pid>)
    returns (result: Option<set<Pid>>)
    requires forall p :: p in order <==> p in parentByPid
    ensures result.Some? <==> rootPid in parentByPid
    ensures result.Some? ==> forall p :: p in result.value <==> Descends(parentByPid, p, rootPid)
  {
    if rootPid !in parentByPid {
      return None;
    }
    var processIds := {rootPid};
    assert ReachesIn(parentByPid, rootPid, rootPid, 0);
    var changed := true;
    while changed
      invariant rootPid in processIds && processIds <= parentByPid.Keys
      invariant forall p :: p in processIds ==> Descends(parentByPid, p, rootPid)
      invariant !changed ==> forall p :: p in parentByPid && parentByPid[p] in processIds ==> p in processIds
      decreases parentByPid.Keys - processIds, changed
    {
      changed := false;
      ghost var before := processIds;
      for i := 0 to |order|
        invariant before <= processIds <= parentByPid.Keys
        invariant forall p :: p in processIds ==> Descends(parentByPid, p, rootPid)
        invariant !changed ==> processIds == before
        invariant changed ==> before < processIds
        invariant !changed ==> forall j :: 0 <= j < i && parentByPid[order[j]] in processIds ==> order[j] in processIds
      {
        var pid := order[i];
        if pid !in processIds && parentByPid[pid] in processIds {
          ChildDescends(parentByPid, pid, rootPid);
          processIds := processIds + {pid};
          changed := true;
        }
      }
    }
    forall p | Descends(parentByPid, p, rootPid)
      ensures p in processIds
    {
      var steps: nat :| ReachesIn(parentByPid, p, rootPid, steps);
      ClosedSetHoldsDescendants(parentByPid, processIds, p, rootPid, steps);
    }
    return Some(processIds);
  }
}
