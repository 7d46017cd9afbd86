/** Any sequence of uploads, verifications, retention stages and deletions, whatever fails inside them. */
module ArtifactHistory {
  import opened Core
  import opened World
  import opened Pruning
  import opened Upload
  import opened Verification

  datatype Step =
    | Uploads(job: Job, dests: seq<string>, path: string, size: int)
    | Verifies(ids: set<nat>)
    | Retains(jobId: string, scope: set<string>, pruned: set<nat>)
    | Deletes(id: nat)

  /** Deleting on request: the object first, then the row's status. */
  ghost predicate DeleteEffect(before: Snapshot, after: Snapshot, id: nat) {
    && id in before.artifacts
    && OnlyTouches(before.objects, after.objects, {KeyOf(before.artifacts[id])})
    && after.objects.Keys <= before.objects.Keys
    && (after.artifacts == before.artifacts
        || after.artifacts == before.artifacts[id := before.artifacts[id].(status := Deleted)])
  }

  ghost predicate Legal(before: Snapshot, step: Step, after: Snapshot) {
    match step
    case Uploads(job, dests, path, size) =>
      OnlyUploads(before.artifacts, after.artifacts, job, dests, path, size)
      && OnlyTouches(before.objects, after.objects, DestKeys(dests, path))
    case Verifies(ids) =>
      VerifyEffect(before.artifacts, after.artifacts, ids) && after.objects == before.objects
    case Retains(jobId, dests, pruned) =>
      RetentionEffect(before.artifacts, before.objects, after.artifacts, after.objects, jobId, dests, pruned)
    case Deletes(id) =>
      DeleteEffect(before, after, id)
  }

  ghost predicate IsTrail(trail: seq<Snapshot>, steps: seq<Step>) {
    |trail| == |steps| + 1 && forall i :: 0 <= i < |steps| ==> Legal(trail[i], steps[i], trail[i + 1])
  }

  // ---------------------------------------------------------------------------
  // A row never comes back to present, and is never dropped
  // ---------------------------------------------------------------------------

  ghost predicate NeverRevived(before: map<nat, Artifact>, after: map<nat, Artifact>) {
    forall id :: id in before ==> id in after && (after[id].status.Present? ==> before[id].status.Present?)
  }

  lemma StepNeverRevives(before: Snapshot, step: Step, after: Snapshot)
    requires Legal(before, step, after)
    ensures NeverRevived(before.artifacts, after.artifacts)
  {
  }

  lemma {:induction false} TrailNeverRevives(trail: seq<Snapshot>, steps: seq<Step>, i: nat, j: nat)
    requires IsTrail(trail, steps) && i <= j < |trail|
    ensures NeverRevived(trail[i].artifacts, trail[j].artifacts)
    decreases j
  {
    if i < j {
      TrailNeverRevives(trail, steps, i, j - 1);
      StepNeverRevives(trail[j - 1], steps[j - 1], trail[j]);
    }
  }

  // ---------------------------------------------------------------------------
  // A pruned row has no object
  // ---------------------------------------------------------------------------

  predicate IsPruned(s: Snapshot, id: nat) {
    id in s.artifacts && s.artifacts[id].status.Pruned?
  }

  ghost predicate PrunedIsGone(s: Snapshot) {
    forall id :: IsPruned(s, id) ==> KeyOf(s.artifacts[id]) !in s.objects
  }

  /** An upload to this place. One-second file names do not keep two uploads from having the same. */
  predicate WritesTo(step: Step, key: Key) {
    step.Uploads? && key.0 in step.dests && key.1 == step.path
  }

  /** The step that prunes a row leaves it without its object, and only an upload to its path puts one there again. */
  lemma StepPrunes(before: Snapshot, step: Step, after: Snapshot, id: nat)
    requires Legal(before, step, after) && IsPruned(after, id)
    ensures !IsPruned(before, id) ==> KeyOf(after.artifacts[id]) !in after.objects
    ensures IsPruned(before, id) ==>
              var key := KeyOf(before.artifacts[id]);
              KeyOf(after.artifacts[id]) == key && (key in after.objects && key !in before.objects ==> WritesTo(step, key))
  {
    if step.Uploads? && id in before.artifacts {
      var key := KeyOf(before.artifacts[id]);
      assert key in DestKeys(step.dests, step.path) ==> WritesTo(step, key);
    }
  }

  /** An upload after a step that found the row pruned wrote to its path. */
  ghost predicate Rewritten(trail: seq<Snapshot>, steps: seq<Step>, n: nat, id: nat, key: Key)
    requires n <= |steps| < |trail|
  {
    exists m :: 0 <= m < n && IsPruned(trail[m], id) && WritesTo(steps[m], key)
  }

  /** A pruned row's object is gone, unless an upload to its path has put one there since it was pruned. */
  lemma {:induction false} TrailKeepsPrunedGone(trail: seq<Snapshot>, steps: seq<Step>, n: nat, id: nat)
    requires IsTrail(trail, steps) && n < |trail| && PrunedIsGone(trail[0]) && IsPruned(trail[n], id)
    ensures var key := KeyOf(trail[n].artifacts[id]);
            key in trail[n].objects ==> Rewritten(trail, steps, n, id, key)
  {
    if n > 0 {
      StepPrunes(trail[n - 1], steps[n - 1], trail[n], id);
      hide Legal, PrunedIsGone;
      if IsPruned(trail[n - 1], id) {
        TrailKeepsPrunedGone(trail, steps, n - 1, id);
      }
    }
  }

  /** Such an upload is a step the program can take: its object stands there while the row stays pruned. */
  lemma ReusedPathRevivesTheObject(s: Snapshot, id: nat, job: Job, size: int)
    requires IsPruned(s, id)
    ensures var a := s.artifacts[id];
            var (step, after) := (Uploads(job, [a.destinationId], a.path, size), s.(objects := s.objects[KeyOf(a) := size]));
            Legal(s, step, after) && WritesTo(step, KeyOf(a)) && IsPruned(after, id) && KeyOf(a) in after.objects
  {
    var a := s.artifacts[id];
    assert KeyOf(a) in DestKeys([a.destinationId], a.path) by {
      assert a.destinationId in [a.destinationId];
    }
  }

  // ---------------------------------------------------------------------------
  // A job never loses its last artifact on a destination to retention
  // ---------------------------------------------------------------------------

  ghost predicate HasPresent(s: Snapshot, jobId: string, dest: string) {
    exists id :: PresentFor(s.artifacts, id, jobId, dest)
  }

  /** No present artifact of the pair is marked missing or deleted by this step. */
  ghost predicate NoneLost(before: Snapshot, after: Snapshot, jobId: string, dest: string) {
    forall id :: PresentFor(before.artifacts, id, jobId, dest) && id in after.artifacts ==>
      !after.artifacts[id].status.Missing? && !after.artifacts[id].status.Deleted?
  }

  lemma StepKeepsPair(before: Snapshot, step: Step, after: Snapshot, jobId: string, dest: string)
    requires Legal(before, step, after) && NoneLost(before, after, jobId, dest) && HasPresent(before, jobId, dest)
    ensures HasPresent(after, jobId, dest)
  {
    var id :| PresentFor(before.artifacts, id, jobId, dest);
    if step.Retains? {
      assert PairKept(before.artifacts, after.artifacts, jobId, dest);
      var kept :| Newest(before.artifacts, kept, jobId, dest) && kept in after.artifacts
                  && after.artifacts[kept] == before.artifacts[kept];
      assert PresentFor(after.artifacts, kept, jobId, dest);
    } else {
      assert PresentFor(after.artifacts, id, jobId, dest);
    }
  }

  /** A pair with a present artifact keeps one for as long as none of its artifacts is found missing or deleted on request. */
  lemma {:induction false} TrailKeepsPair(trail: seq<Snapshot>, steps: seq<Step>, n: nat, jobId: string, dest: string)
    requires IsTrail(trail, steps) && n < |trail| && HasPresent(trail[0], jobId, dest)
    requires forall i :: 0 <= i < |steps| ==> NoneLost(trail[i], trail[i + 1], jobId, dest)
    ensures HasPresent(trail[n], jobId, dest)
  {
    if n > 0 {
      TrailKeepsPair(trail, steps, n - 1, jobId, dest);
      StepKeepsPair(trail[n - 1], steps[n - 1], trail[n], jobId, dest);
    }
  }

  // ---------------------------------------------------------------------------
  // The newest artifact outlives every retention stage, object included
  // ---------------------------------------------------------------------------

  /** The step neither uploads over the pair or the path of `id`, nor verifies or deletes it, nor deletes a row sharing its path. */
  ghost predicate Spares(before: Snapshot, step: Step, id: nat)
    requires id in before.artifacts
  {
    var a := before.artifacts[id];
    match step
    case Uploads(job, dests, path, _) =>
      (job.id == a.jobId ==> a.destinationId !in dests) && KeyOf(a) !in DestKeys(dests, path)
    case Verifies(ids) => id !in ids
    case Retains(_, _, _) => true
    case Deletes(other) => other in before.artifacts ==> KeyOf(before.artifacts[other]) != KeyOf(a)
  }

  lemma StepKeepsProtected(before: Snapshot, step: Step, after: Snapshot, id: nat, jobId: string, dest: string)
    requires Legal(before, step, after) && Protected(before.artifacts, id, jobId, dest) && Spares(before, step, id)
    ensures Protected(after.artifacts, id, jobId, dest)
    ensures ProtectedKept(before.artifacts, before.objects, after.artifacts, after.objects, id)
  {
    StepNeverRevives(before, step, after);
  }

  lemma {:induction false} NewestSurvives(trail: seq<Snapshot>, steps: seq<Step>, n: nat, id: nat, jobId: string, dest: string)
    requires IsTrail(trail, steps) && n < |trail| && Protected(trail[0].artifacts, id, jobId, dest)
    requires forall i :: 0 <= i < |steps| && id in trail[i].artifacts ==> Spares(trail[i], steps[i], id)
    ensures Protected(trail[n].artifacts, id, jobId, dest)
    ensures ProtectedKept(trail[0].artifacts, trail[0].objects, trail[n].artifacts, trail[n].objects, id)
  {
    if n > 0 {
      NewestSurvives(trail, steps, n - 1, id, jobId, dest);
      StepKeepsProtected(trail[n - 1], steps[n - 1], trail[n], id, jobId, dest);
    }
  }
}
