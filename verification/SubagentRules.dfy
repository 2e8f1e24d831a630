/** The rules of the classifier, read off the marks of a session file directly. */
module SubagentRules {
  import opened Wrappers
  import opened SubagentClassifier

  /** The first session record of the file, at `meta`, is that of a spawned subagent. */
  predicate IsSpawned(marks: seq<Mark>, meta: nat) {
    meta < |marks| && marks[meta].Meta? && marks[meta].subagent && forall j :: 0 <= j < meta ==> !marks[j].Meta?
  }

  predicate TaskStartedBefore(marks: seq<Mark>, i: nat)
    requires i <= |marks|
  {
    exists j :: 0 <= j < i && marks[j].Started?
  }

  /** At most a second after the spawn. */
  predicate RightAfterSpawn(timestamp: int, startupAt: Option<int>) {
    startupAt.Some? && startupAt.value <= timestamp <= startupAt.value + 1_000
  }

  /** An explicit trigger, or usage that is not right after the spawn while no task was started yet. */
  predicate Opens(marks: seq<Mark>, meta: nat, i: nat)
    requires IsSpawned(marks, meta) && meta < i < |marks|
  {
    || marks[i].Trigger?
    || (marks[i].Usage? && !RightAfterSpawn(marks[i].observation.timestamp, marks[meta].startupAt) && !TaskStartedBefore(marks, i))
  }

  predicate OpensFirst(marks: seq<Mark>, meta: nat, i: nat)
    requires IsSpawned(marks, meta)
  {
    meta < i < |marks| && Opens(marks, meta, i) && forall j :: meta < j < i ==> !Opens(marks, meta, j)
  }

  predicate NeverOpens(marks: seq<Mark>, meta: nat)
    requires IsSpawned(marks, meta)
  {
    forall j :: meta < j < |marks| ==> !Opens(marks, meta, j)
  }

  /** The first turn that starts after a task was started. */
  predicate TurnsFirst(marks: seq<Mark>, meta: nat, i: nat)
    requires IsSpawned(marks, meta)
  {
    meta < i < |marks| && marks[i].Context? && TaskStartedBefore(marks, i)
    && forall j :: meta < j < i && marks[j].Context? ==> !TaskStartedBefore(marks, j)
  }

  lemma StartedAcross(marks: seq<Mark>, meta: nat, i: nat)
    requires meta < i <= |marks| && !marks[meta].Started?
    ensures StartedBefore(marks[meta + 1..], StartedBefore(marks, false, meta), i - meta - 1) <==> TaskStartedBefore(marks, i)
  {
    var rest := marks[meta + 1..];
    if TaskStartedBefore(marks, i) {
      var j :| 0 <= j < i && marks[j].Started?;
      assert j > meta ==> rest[j - meta - 1] == marks[j];
    }
  }

  lemma OpeningIs(marks: seq<Mark>, meta: nat, i: nat)
    requires IsSpawned(marks, meta) && meta < i < |marks|
    ensures OpensAt(marks[meta + 1..], StartedBefore(marks, false, meta), marks[meta].startupAt, i - meta - 1) <==> Opens(marks, meta, i)
  {
    StartedAcross(marks, meta, i);
  }

  lemma FirstMetaIs(marks: seq<Mark>, meta: nat)
    requires IsSpawned(marks, meta)
    ensures FirstMeta(marks, 0) == meta
  {
  }

  lemma FirstOpeningIs(marks: seq<Mark>, meta: nat)
    requires IsSpawned(marks, meta)
    ensures var rest, already := marks[meta + 1..], StartedBefore(marks, false, meta);
            var opening := FirstOpening(rest, already, marks[meta].startupAt, 0);
            if opening < |rest| then OpensFirst(marks, meta, meta + 1 + opening) else NeverOpens(marks, meta)
  {
    forall i | meta < i < |marks|
      ensures OpensAt(marks[meta + 1..], StartedBefore(marks, false, meta), marks[meta].startupAt, i - meta - 1) <==> Opens(marks, meta, i)
    {
      OpeningIs(marks, meta, i);
    }
  }

  /** A session that was not spawned keeps all its usage. */
  lemma OwnSessionKeepsAll(marks: seq<Mark>, complete: bool)
    requires forall meta :: 0 <= meta < |marks| ==> !IsSpawned(marks, meta)
    ensures KeptOfFile(marks, complete) == Usages(marks)
  {
    var meta := FirstMeta(marks, 0);
    assert meta < |marks| ==> !IsSpawned(marks, meta);
  }

  lemma SlicesAcross(marks: seq<Mark>, meta: nat, i: nat)
    requires meta < i <= |marks|
    ensures marks[meta + 1..][..i - meta - 1] == marks[meta + 1..i] && marks[meta + 1..][i - meta - 1..] == marks[i..]
    ensures i < |marks| ==> marks[meta + 1..][i - meta - 1] == marks[i]
  {
  }

  lemma OpensWhere(marks: seq<Mark>, meta: nat, i: nat)
    requires IsSpawned(marks, meta) && OpensFirst(marks, meta, i)
    ensures FirstOpening(marks[meta + 1..], StartedBefore(marks, false, meta), marks[meta].startupAt, 0) == i - meta - 1
  {
    FirstOpeningIs(marks, meta);
  }

  /** What is kept of a spawned session that opens does not depend on whether its file could be read to the end. */
  lemma OpenedIsKeptAnyway(marks: seq<Mark>, meta: nat, opening: nat, complete: bool)
    requires IsSpawned(marks, meta) && meta + 1 + opening < |marks|
    requires FirstOpening(marks[meta + 1..], StartedBefore(marks, false, meta), marks[meta].startupAt, 0) == opening
    ensures KeptOfFile(marks, complete) ==
              Usages(marks[..meta]) + KeptOfChild(marks[meta + 1..], StartedBefore(marks, false, meta), marks[meta].startupAt)
  {
    FirstMetaIs(marks, meta);
  }

  lemma OpenedChildKeeps(rest: seq<Mark>, already: bool, startupAt: Option<int>, opening: nat)
    requires opening < |rest| && FirstOpening(rest, already, startupAt, 0) == opening
    ensures var between := Usages(rest[..opening]);
            KeptOfChild(rest, already, startupAt) ==
              (if rest[opening].Trigger? || |between| >= 16 then [] else between) + Usages(rest[opening..])
  {
  }

  /** A spawned session that opens keeps everything from there on. Of what came between the spawn and the opening it keeps
      nothing when it was opened by a trigger or that is a burst of 16 or more, and everything otherwise. */
  lemma OpenedKeeps(marks: seq<Mark>, meta: nat, i: nat, complete: bool)
    requires IsSpawned(marks, meta) && OpensFirst(marks, meta, i)
    ensures var between := Usages(marks[meta + 1..i]);
            KeptOfFile(marks, complete) ==
              Usages(marks[..meta]) + ((if marks[i].Trigger? || |between| >= 16 then [] else between) + Usages(marks[i..]))
  {
    OpensWhere(marks, meta, i);
    OpenedIsKeptAnyway(marks, meta, i - meta - 1, complete);
    OpenedChildKeeps(marks[meta + 1..], StartedBefore(marks, false, meta), marks[meta].startupAt, i - meta - 1);
    SlicesAcross(marks, meta, i);
  }

  lemma NeverOpensWhere(marks: seq<Mark>, meta: nat)
    requires IsSpawned(marks, meta) && NeverOpens(marks, meta)
    ensures FirstOpening(marks[meta + 1..], StartedBefore(marks, false, meta), marks[meta].startupAt, 0) == |marks| - meta - 1
  {
    FirstOpeningIs(marks, meta);
  }

  lemma SpawnedKeeps(marks: seq<Mark>, meta: nat)
    requires IsSpawned(marks, meta)
    ensures Kept(marks) == Usages(marks[..meta]) + KeptOfChild(marks[meta + 1..], StartedBefore(marks, false, meta), marks[meta].startupAt)
  {
    FirstMetaIs(marks, meta);
  }

  lemma UnopenedChildKeeps(rest: seq<Mark>, already: bool, startupAt: Option<int>)
    requires FirstOpening(rest, already, startupAt, 0) == |rest|
    ensures KeptOfChild(rest, already, startupAt) ==
              if StartedBefore(rest, already, |rest|) then Usages(rest[FirstBoundary(rest, already, 0)..])
              else if |Usages(rest)| >= 16 then [] else Usages(rest)
  {
  }

  /** A spawned session that never opens and never starts a task is its own when it is short: fewer than 16 usages. */
  lemma UnopenedKeeps(marks: seq<Mark>, meta: nat)
    requires IsSpawned(marks, meta) && NeverOpens(marks, meta) && !TaskStartedBefore(marks, |marks|)
    ensures var after := Usages(marks[meta + 1..]);
            Kept(marks) == Usages(marks[..meta]) + if |after| >= 16 then [] else after
  {
    NeverOpensWhere(marks, meta);
    StartedAcross(marks, meta, |marks|);
    SpawnedKeeps(marks, meta);
    UnopenedChildKeeps(marks[meta + 1..], StartedBefore(marks, false, meta), marks[meta].startupAt);
  }

  lemma FirstBoundaryIs(marks: seq<Mark>, meta: nat)
    requires IsSpawned(marks, meta)
    ensures var boundary := FirstBoundary(marks[meta + 1..], StartedBefore(marks, false, meta), 0);
            if meta + 1 + boundary < |marks| then TurnsFirst(marks, meta, meta + 1 + boundary)
            else forall i: nat :: !TurnsFirst(marks, meta, i)
  {
    var rest, already := marks[meta + 1..], StartedBefore(marks, false, meta);
    forall i | meta < i < |marks|
      ensures BoundaryAt(rest, already, i - meta - 1) <==> marks[i].Context? && TaskStartedBefore(marks, i)
    {
      StartedAcross(marks, meta, i);
    }
  }

  lemma BoundaryWhere(marks: seq<Mark>, meta: nat, i: nat)
    requires IsSpawned(marks, meta)
    requires TurnsFirst(marks, meta, i) || (i == |marks| && forall j: nat :: !TurnsFirst(marks, meta, j))
    ensures meta < i && FirstBoundary(marks[meta + 1..], StartedBefore(marks, false, meta), 0) == i - meta - 1
  {
    FirstBoundaryIs(marks, meta);
  }

  /** ... and one that started a task keeps what follows the first turn after that. */
  lemma StartedKeeps(marks: seq<Mark>, meta: nat, i: nat)
    requires IsSpawned(marks, meta) && NeverOpens(marks, meta) && TaskStartedBefore(marks, |marks|)
    requires TurnsFirst(marks, meta, i) || (i == |marks| && forall j: nat :: !TurnsFirst(marks, meta, j))
    ensures Kept(marks) == Usages(marks[..meta]) + Usages(marks[i..])
  {
    NeverOpensWhere(marks, meta);
    StartedAcross(marks, meta, |marks|);
    BoundaryWhere(marks, meta, i);
    SpawnedKeeps(marks, meta);
    UnopenedChildKeeps(marks[meta + 1..], StartedBefore(marks, false, meta), marks[meta].startupAt);
    SlicesAcross(marks, meta, i);
  }

  /** Of a spawned session whose file could not be read further and that had not opened, nothing after the spawn is kept. */
  lemma CutUnopenedKeeps(marks: seq<Mark>, meta: nat)
    requires IsSpawned(marks, meta) && NeverOpens(marks, meta)
    ensures KeptWhenCut(marks) == Usages(marks[..meta])
  {
    FirstMetaIs(marks, meta);
    FirstOpeningIs(marks, meta);
    assert Usages(marks[..meta]) + [] == Usages(marks[..meta]);
  }
}
