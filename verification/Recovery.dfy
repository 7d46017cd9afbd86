/** What a start does to the rows an earlier process left unfinished. */
module Recovery {
  import opened Core
  import opened RunLifecycle

  predicate Unfinished(r: Run) {
    r.status.Queued? || r.status.Running?
  }

  function Interrupted(s: Stage): Stage {
    if s.status.StageRunning? then Stage(s.name, StageFailed, "interrupted") else s
  }

  function InterruptedStages(stages: seq<Stage>): seq<Stage> {
    seq(|stages|, i requires 0 <= i < |stages| => Interrupted(stages[i]))
  }

  function Recovered(r: Run): Run {
    if Unfinished(r)
    then r.(status := Failed, error := "run was interrupted by a server restart", stages := InterruptedStages(r.stages))
    else r
  }

  /** Rows as the store returns them, keyed by run id. */
  method RecoverInterruptedRuns(rows: array<Run>) returns (ok: bool)
    modifies rows
    ensures forall i :: 0 <= i < rows.Length ==> rows[i] == old(rows[i]) || rows[i] == Recovered(old(rows[i]))
    ensures ok ==> forall i :: 0 <= i < rows.Length ==> rows[i] == Recovered(old(rows[i]))
  {
    for i := 0 to rows.Length
      invariant forall j :: 0 <= j < i ==> rows[j] == Recovered(old(rows[j]))
      invariant forall j :: i <= j < rows.Length ==> rows[j] == old(rows[j])
    {
      if !Unfinished(rows[i]) {
        continue;
      }
      var run := rows[i];
      var stages := run.stages;
      for k := 0 to |stages|
        invariant |stages| == |run.stages|
        invariant forall j :: 0 <= j < k ==> stages[j] == Interrupted(run.stages[j])
        invariant forall j :: k <= j < |stages| ==> stages[j] == run.stages[j]
      {
        stages := stages[k := Interrupted(stages[k])];
      }
      assert stages == InterruptedStages(run.stages);
      var saved: bool := *;
      if !saved {
        return false; // the first failed save stops the recovery
      }
      rows[i] := run.(status := Failed, error := "run was interrupted by a server restart", stages := stages);
    }
    return true;
  }

  /** After a complete recovery no row is unfinished and no row it touched has a running stage. */
  lemma RecoverySettles(r: Run)
    ensures !Unfinished(Recovered(r)) && Recovered(r).status.Terminal()
    ensures Unfinished(r) ==> forall s :: s in Recovered(r).stages ==> !s.status.StageRunning?
    ensures !Unfinished(r) ==> Recovered(r) == r
    ensures Recovered(Recovered(r)) == Recovered(r)
  {
  }
}
