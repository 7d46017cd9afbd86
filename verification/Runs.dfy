/** Whole runs: backup, ingest, prune and verify, from `start` to `finish`. */
module Runs {
  import opened Core
  import opened RetentionPlan
  import opened RunLifecycle
  import opened World
  import opened Pruning
  import opened Upload
  import opened Verification
  import opened ArtifactHistory

  /** What a run did, as its stages counted it; `Accounts` ties it to the steps the world went through. */
  datatype Report = Report(
    stored: bool,
    uploadFailures: nat,
    verifyProblems: nat,
    retentionRan: bool,
    retentionProblems: nat)

  const NOTHING_DONE := Report(false, 0, 0, false, 0)

  // ---------------------------------------------------------------------------
  // What success promises
  // ---------------------------------------------------------------------------

  /** The destinations are different, and the upload is newer than, and apart from, all that was present. */
  ghost predicate IsLatest(before: map<nat, Artifact>, a: Artifact, dests: seq<string>) {
    && (forall i, j :: 0 <= i < j < |dests| ==> dests[i] != dests[j])
    && (forall k :: PresentFor(before, k, a.jobId, a.destinationId) ==> before[k].createdAt < a.createdAt)
    && (forall k :: k in before && before[k].status.Present? ==> KeyOf(before[k]) != KeyOf(a))
  }

  /** One artifact recorded by this run for one destination, as it stands when the run ends. */
  ghost predicate Delivered(
    before: map<nat, Artifact>, after: map<nat, Artifact>, objects: map<Key, int>,
    id: nat, job: Job, dest: string, path: string, size: int)
  {
    && id !in before && id in after
    && after[id].jobId == job.id && after[id].destinationId == dest && after[id].path == path && after[id].size == size
    && (job.verifyAfterUpload ==> after[id].verifiedAt.Some?)
    && (IsLatest(before, after[id], job.destinationIds) ==>
          && after[id].status.Present?
          && (dest, path) in objects
          && (job.verifyAfterUpload ==> objects[(dest, path)] == size))
  }

  /** Every destination of the job got its artifact, in order, and nothing went wrong on the way. */
  ghost predicate SuccessGuarantee(
    before: map<nat, Artifact>, after: map<nat, Artifact>, objects: map<Key, int>,
    ids: seq<nat>, job: Job, path: string, size: int)
  {
    && |ids| == |job.destinationIds| > 0
    && forall i :: 0 <= i < |ids| ==> Delivered(before, after, objects, ids[i], job, job.destinationIds[i], path, size)
  }

  /**
   * The report of a backup or ingest run against the steps taken: none, the
   * uploads alone when all of them failed, or uploads, verification and
   * retention, the last carrying the policy out unless it counted problems.
   */
  ghost predicate Accounts(
    trail: seq<Snapshot>, steps: seq<Step>, job: Job, r: Retention, cal: Calendar,
    report: Report, ids: seq<nat>, path: string, size: int)
  {
    && IsTrail(trail, steps) && (|steps| == 0 || |steps| == 1 || |steps| == 3)
    && (report.retentionRan <==> exists s :: s in steps && s.Retains?)
    && (report.stored <==> |steps| == 3)
    && (|steps| == 0 ==> report == NOTHING_DONE && ids == [])
    && (|steps| >= 1 ==> UploadsAccount(trail, steps[0], trail[1], job, report, ids, path, size))
    && (|steps| == 1 ==> ids == [])
    && (|steps| == 3 ==> ids != [] && TailAccounts(trail, steps, job, r, cal, report, ids))
  }

  /** Each destination of the job either got a recorded upload or counts as a failure. */
  ghost predicate UploadsAccount(
    trail: seq<Snapshot>, step: Step, uploaded: Snapshot, job: Job, report: Report, ids: seq<nat>, path: string, size: int)
    requires trail != []
  {
    && step == Uploads(job, job.destinationIds, path, size)
    && report.uploadFailures + |ids| == |job.destinationIds|
    && (forall id :: id in ids <==> id in uploaded.artifacts && id !in trail[0].artifacts)
  }

  /** Verification of exactly the uploads, then retention on the job's destinations. */
  ghost predicate TailAccounts(
    trail: seq<Snapshot>, steps: seq<Step>, job: Job, r: Retention, cal: Calendar, report: Report, ids: seq<nat>)
    requires |trail| == 4 && |steps| == 3
  {
    && steps[1] == Verifies(Elems(ids))
    && steps[2].Retains? && steps[2].jobId == job.id && steps[2].scope == Dests(job.destinationIds, |job.destinationIds|)
    && (report.verifyProblems == 0 && job.verifyAfterUpload ==> AllVerified(trail[2].artifacts, trail[2].objects, ids))
    && RetentionAccounts(trail[2], trail[3], job, r, cal, report.retentionProblems)
  }

  /** Without problems the policy was carried out and no present row with a path of its own lost its object. */
  ghost predicate RetentionAccounts(before: Snapshot, after: Snapshot, job: Job, r: Retention, cal: Calendar, problems: nat) {
    && AllCarried(before.artifacts, after.artifacts, job.id, job.destinationIds, r, cal, problems)
    && (problems == 0 ==> NoneStranded(before.artifacts, before.objects, after.artifacts, after.objects))
    && (r.IsZero() ==> after == before && problems == 0)
  }

  lemma UploadIsProtected(
    before: map<nat, Artifact>, uploaded: map<nat, Artifact>, verified: map<nat, Artifact>, objects: map<Key, int>,
    ids: seq<nat>, job: Job, path: string, size: int, i: nat)
    requires OnlyUploads(before, uploaded, job, job.destinationIds, path, size)
    requires AllRecorded(uploaded, objects, ids, job, job.destinationIds, path, size)
    requires forall id :: id in ids <==> id in uploaded && id !in before
    requires SameRows(uploaded, verified)
    requires i < |ids| && IsLatest(before, uploaded[ids[i]], job.destinationIds)
    ensures Protected(verified, ids[i], job.id, job.destinationIds[i])
  {
    var id, dests := ids[i], job.destinationIds;
    assert Recorded(uploaded, id, job, dests[i], path, size);
    forall k | k in verified && k !in before && k != id ensures verified[k].destinationId != dests[i] {
      assert k in ids;
      var j :| 0 <= j < |ids| && ids[j] == k;
      assert Recorded(uploaded, ids[j], job, dests[j], path, size);
    }
    forall k | k != id && PresentFor(verified, k, job.id, dests[i])
      ensures verified[k].createdAt < verified[id].createdAt
    {
      assert k in before;
      assert PresentFor(before, k, job.id, dests[i]);
    }
    forall k | k in verified && k != id && verified[k].status.Present?
      ensures KeyOf(verified[k]) != KeyOf(verified[id])
    {
    }
  }

  /** A row that retention leaves in place keeps its fields; one that is protected keeps its object too. */
  lemma RetentionDelivers(
    before: map<nat, Artifact>, uploaded: map<nat, Artifact>, verified: map<nat, Artifact>, after: map<nat, Artifact>,
    objects: map<Key, int>, objects': map<Key, int>,
    id: nat, job: Job, dest: string, path: string, size: int, pruned: set<nat>)
    requires id !in before && Recorded(uploaded, id, job, dest, path, size) && (dest, path) in objects
    requires SameRows(uploaded, verified)
    requires job.verifyAfterUpload ==> Verified(verified, objects, id)
    requires StatusPruned(verified, after, pruned)
    requires IsLatest(before, uploaded[id], job.destinationIds) ==> ProtectedKept(verified, objects, after, objects', id)
    ensures Delivered(before, after, objects', id, job, dest, path, size)
  {
    assert IsLatest(before, after[id], job.destinationIds) <==> IsLatest(before, uploaded[id], job.destinationIds);
  }

  lemma CleanRunDelivers(
    before: map<nat, Artifact>, uploaded: map<nat, Artifact>, verified: map<nat, Artifact>, after: map<nat, Artifact>,
    objects: map<Key, int>, objects': map<Key, int>,
    ids: seq<nat>, job: Job, path: string, size: int, pruned: set<nat>)
    requires job.destinationIds != []
    requires OnlyUploads(before, uploaded, job, job.destinationIds, path, size)
    requires AllRecorded(uploaded, objects, ids, job, job.destinationIds, path, size)
    requires forall id :: id in ids <==> id in uploaded && id !in before
    requires SameRows(uploaded, verified)
    requires job.verifyAfterUpload ==> AllVerified(verified, objects, ids)
    requires RetentionEffect(verified, objects, after, objects', job.id, Dests(job.destinationIds, |job.destinationIds|), pruned)
    ensures SuccessGuarantee(before, after, objects', ids, job, path, size)
  {
    hide OnlyTouches, PairKept, OnlyUploads, SameRows, IsLatest, Delivered, Verified, StatusPruned, ProtectedKept, Recorded;
    forall i | 0 <= i < |ids|
      ensures Delivered(before, after, objects', ids[i], job, job.destinationIds[i], path, size)
    {
      var id, dest := ids[i], job.destinationIds[i];
      assert id in uploaded && id !in before;
      if IsLatest(before, uploaded[id], job.destinationIds) {
        UploadIsProtected(before, uploaded, verified, objects, ids, job, path, size, i);
        assert ProtectedKept(verified, objects, after, objects', id);
      }
      RetentionDelivers(before, uploaded, verified, after, objects, objects', id, job, dest, path, size, pruned);
    }
  }

  /**
   * Also when it is not the newest: after a retention stage without problems an
   * artifact listed there is present exactly when the plan keeps it, and then
   * with its object if no other present row has its path.
   */
  lemma PresentExactlyWhenKept(
    before: Snapshot, after: Snapshot, job: Job, r: Retention, cal: Calendar, k: nat, id: nat) returns (items: seq<Artifact>, now: Time)
    requires RetentionAccounts(before, after, job, r, cal, 0) && !r.IsZero() && Distinct(job.destinationIds)
    requires WellFormed(before.artifacts) && k < |job.destinationIds|
    requires PresentFor(before.artifacts, id, job.id, job.destinationIds[k])
    ensures Lists(before.artifacts, job.id, job.destinationIds[k], items) && id in after.artifacts
    ensures after.artifacts[id].status.Present? <==> before.artifacts[id] in Planned(items, true, r, cal, now)
    ensures after.artifacts[id].status.Present? || after.artifacts[id].status.Pruned?
    ensures after.artifacts[id] == before.artifacts[id] && OwnPath(before.artifacts, id) && KeyOf(before.artifacts[id]) in before.objects
            ==> KeyOf(before.artifacts[id]) in after.objects
  {
    var dest := job.destinationIds[k];
    assert Carried(before.artifacts, after.artifacts, job.id, dest, r, cal);
    items, now :| PlanCarried(before.artifacts, after.artifacts, job.id, dest, items, r, cal, now);
    var a := before.artifacts[id];
    assert a in items && a.id == id;
    PlannedApart(before.artifacts, job.id, dest, items, r, cal, now);
    hide Planned, Carried, OwnPath;
    assert OwnPath(before.artifacts, id) ==> !Stranded(after.artifacts, before.objects, after.objects, id);
  }

  // ---------------------------------------------------------------------------
  // Upload, verify, retain: the tail backup and ingest share
  // ---------------------------------------------------------------------------

  method StoreVerifyRetain(b: Backend, ctx: RunContext, rs: RunState, job: Job, settings: Retention, cal: Calendar, path: string, size: int)
    returns (report: Report, err: Option<Error>, ghost trail: seq<Snapshot>, ghost steps: seq<Step>)
    requires b.Valid() && rs.Live() && job.destinationIds != [] && rs.run.artifactIds == []
    modifies b, ctx, rs
    ensures b.Valid() && rs.Live()
    ensures rs.run.id == old(rs.run.id) && rs.run.jobId == old(rs.run.jobId)
    ensures IsTrail(trail, steps)
    ensures trail[0] == Snapshot(old(b.artifacts), old(b.objects)) && trail[|steps|] == Snapshot(b.artifacts, b.objects)
    ensures Accounts(trail, steps, job, EffectiveRetention(job.retention, settings), cal, report, rs.run.artifactIds, path, size)
    ensures |steps| >= 1 && (err.Some? <==> |steps| == 1)
    ensures err.Some? <==> report.uploadFailures == |job.destinationIds|
    ensures err.Some? ==> b.artifacts == old(b.artifacts)
    ensures err.None? ==> (rs.warned <==> old(rs.warned) || report.uploadFailures + report.verifyProblems + report.retentionProblems > 0)
    ensures err.None? && !rs.warned ==>
              SuccessGuarantee(old(b.artifacts), b.artifacts, b.objects, rs.run.artifactIds, job, path, size)
  {
    hide OnlyUploads, OnlyTouches, AllRecorded, VerifyEffect, AllVerified, RetentionEffect, SuccessGuarantee, SameRows,
         AllCarried, NoneStranded;
    ghost var start := Snapshot(b.artifacts, b.objects);
    var ids, failures, uploadErr := UploadAll(b, ctx, rs, job, job.destinationIds, path, size);
    assert rs.run.artifactIds == [] + ids == ids;
    ghost var uploaded := Snapshot(b.artifacts, b.objects);
    trail, steps := [start, uploaded], [Uploads(job, job.destinationIds, path, size)];
    err := uploadErr;
    if err.Some? {
      NoRowsAdded(start.artifacts, uploaded.artifacts, job, path, size);
      report := Report(false, failures, 0, false, 0);
      return;
    }
    var problems := 0;
    if job.verifyAfterUpload {
      problems := VerifyArtifacts(b, rs, ids);
    } else {
      rs.SkipStage("verify", "disabled");
      NothingVerified(b.artifacts, Elems(ids));
    }
    ghost var verified := Snapshot(b.artifacts, b.objects);
    var retentionProblems: nat;
    ghost var pruned;
    retentionProblems, pruned := RetentionStage(b, rs, job, settings, cal);
    ghost var after := Snapshot(b.artifacts, b.objects);
    trail := [start, uploaded, verified, after];
    steps := [Uploads(job, job.destinationIds, path, size), Verifies(Elems(ids)),
              Retains(job.id, Dests(job.destinationIds, |job.destinationIds|), pruned)];
    if !rs.warned {
      CleanRunDelivers(start.artifacts, uploaded.artifacts, verified.artifacts, b.artifacts, uploaded.objects, b.objects,
                       ids, job, path, size, pruned);
    }
    report := Report(true, failures, problems, true, retentionProblems);
    assert steps[2] in steps;
  }

  lemma NoRowsAdded(before: map<nat, Artifact>, after: map<nat, Artifact>, job: Job, path: string, size: int)
    requires OnlyUploads(before, after, job, job.destinationIds, path, size)
    requires forall id :: !(id in after && id !in before)
    ensures before == after
  {
    assert before.Keys == after.Keys;
  }

  lemma NothingVerified(artifacts: map<nat, Artifact>, ids: set<nat>)
    ensures VerifyEffect(artifacts, artifacts, ids) && SameRows(artifacts, artifacts)
  {
  }

  /** The retention stage of a run, with its warning. */
  method RetentionStage(b: Backend, rs: RunState, job: Job, settings: Retention, cal: Calendar)
    returns (problems: nat, ghost pruned: set<nat>)
    requires b.Valid() && rs.Live()
    modifies b`artifacts, b`objects, rs
    ensures b.Valid() && rs.Live()
    ensures rs.run.id == old(rs.run.id) && rs.run.jobId == old(rs.run.jobId) && rs.run.artifactIds == old(rs.run.artifactIds)
    ensures rs.warned == (old(rs.warned) || problems > 0)
    ensures RetentionEffect(old(b.artifacts), old(b.objects), b.artifacts, b.objects, job.id,
                            Dests(job.destinationIds, |job.destinationIds|), pruned)
    ensures EffectiveRetention(job.retention, settings).IsZero() ==>
              problems == 0 && b.artifacts == old(b.artifacts) && b.objects == old(b.objects)
    ensures RetentionAccounts(Snapshot(old(b.artifacts), old(b.objects)), Snapshot(b.artifacts, b.objects), job,
                              EffectiveRetention(job.retention, settings), cal, problems)
  {
    hide RetentionEffect, AllCarried, NoneStranded;
    rs.OpenStage("retention");
    var removed;
    problems, removed, pruned := ApplyRetention(b, job.id, job.destinationIds, EffectiveRetention(job.retention, settings), cal);
    if problems > 0 {
      rs.Warn("retention encountered errors");
      rs.SetStage("retention", StageFailed, "destinations failed");
      return;
    }
    rs.SetStage("retention", StageSuccess, "");
  }

  // ---------------------------------------------------------------------------
  // The bodies of the runs
  // ---------------------------------------------------------------------------

  /** A stage whose work is not modelled: it succeeds or it fails with some error. */
  method ExternalStage(rs: RunState, name: string) returns (err: Option<Error>)
    requires rs.Live()
    modifies rs`run, rs`stored, rs`events
    ensures rs.Live()
    ensures rs.run.id == old(rs.run.id) && rs.run.jobId == old(rs.run.jobId) && rs.run.artifactIds == old(rs.run.artifactIds)
  {
    rs.OpenStage(name);
    err := *;
    if err.Some? {
      rs.SetStage(name, StageFailed, err.value.text);
      return;
    }
    rs.SetStage(name, StageSuccess, "");
  }

  method Hook(rs: RunState, name: string, configured: bool) returns (err: Option<Error>)
    requires rs.Live()
    modifies rs`run, rs`stored, rs`events
    ensures rs.Live()
    ensures rs.run.id == old(rs.run.id) && rs.run.jobId == old(rs.run.jobId) && rs.run.artifactIds == old(rs.run.artifactIds)
    ensures !configured ==> err.None?
  {
    if !configured {
      rs.SkipStage(name, "not configured");
      return None;
    }
    err := ExternalStage(rs, name);
  }

  method Prepare(rs: RunState, job: Job) returns (err: Option<Error>)
    requires rs.Live()
    modifies rs`run, rs`stored, rs`events
    ensures rs.Live()
    ensures rs.run.id == old(rs.run.id) && rs.run.jobId == old(rs.run.jobId) && rs.run.artifactIds == old(rs.run.artifactIds)
    ensures err.None? ==> job.destinationIds != []
  {
    rs.OpenStage("prepare");
    err := *;
    if err.None? && job.destinationIds == [] {
      err := Some(Error(OtherError, "job has no destinations"));
    }
    if err.Some? {
      rs.SetStage("prepare", StageFailed, err.value.text);
      return;
    }
    rs.SetStage("prepare", StageSuccess, "");
  }

  /** What the body of a backup or ingest run promises about the world, however it returns. */
  ghost predicate BodyPost(
    before: Snapshot, after: Snapshot, trail: seq<Snapshot>, steps: seq<Step>, r: Retention, cal: Calendar,
    job: Job, report: Report, err: Option<Error>, warned: bool, ids: seq<nat>, path: string, size: int)
  {
    && Accounts(trail, steps, job, r, cal, report, ids, path, size) && trail[0] == before && trail[|steps|] == after
    && (!report.stored ==> err.Some? && NothingStored(before, after, steps, job, path))
    && (report.stored && report.uploadFailures + report.verifyProblems + report.retentionProblems > 0 ==> warned)
    && (err.None? && !warned ==>
          report == Report(true, 0, 0, true, 0)
          && SuccessGuarantee(before.artifacts, after.artifacts, after.objects, ids, job, path, size))
  }

  /** No retention step was taken, no row changed, and no object but under this run's own path. */
  ghost predicate NothingStored(before: Snapshot, after: Snapshot, steps: seq<Step>, job: Job, path: string) {
    && (forall s :: s in steps ==> s.Uploads?)
    && after.artifacts == before.artifacts
    && OnlyTouches(before.objects, after.objects, DestKeys(job.destinationIds, path))
  }

  /** The stages of a backup before anything is stored. */
  method Collect(rs: RunState, job: Job, preCommand: bool) returns (err: Option<Error>)
    requires rs.Live()
    modifies rs`run, rs`stored, rs`events
    ensures rs.Live()
    ensures rs.run.id == old(rs.run.id) && rs.run.jobId == old(rs.run.jobId) && rs.run.artifactIds == old(rs.run.artifactIds)
    ensures err.None? ==> job.destinationIds != []
  {
    err := Prepare(rs, job);
    if err.Some? {
      return;
    }
    err := Hook(rs, "pre-command", preCommand);
    if err.Some? {
      return;
    }
    err := ExternalStage(rs, "dump");
    if err.Some? {
      return;
    }
    err := ExternalStage(rs, "pack");
  }

  method BackupBody(
    b: Backend, ctx: RunContext, rs: RunState, job: Job, preCommand: bool, postCommand: bool, settings: Retention, cal: Calendar)
    returns (report: Report, err: Option<Error>, path: string, size: int, ghost trail: seq<Snapshot>, ghost steps: seq<Step>)
    requires b.Valid() && rs.Live() && rs.run.artifactIds == []
    modifies b, ctx, rs
    ensures b.Valid() && rs.Live()
    ensures rs.run.id == old(rs.run.id) && rs.run.jobId == old(rs.run.jobId)
    ensures BodyPost(Snapshot(old(b.artifacts), old(b.objects)), Snapshot(b.artifacts, b.objects), trail, steps,
                     EffectiveRetention(job.retention, settings), cal, job, report, err, rs.warned, rs.run.artifactIds, path, size)
  {
    hide SuccessGuarantee;
    report, path, size := NOTHING_DONE, *, *;
    trail, steps := [Snapshot(b.artifacts, b.objects)], [];
    err := Collect(rs, job, preCommand);
    if err.Some? {
      return;
    }
    report, err, trail, steps := StoreVerifyRetain(b, ctx, rs, job, settings, cal, path, size);
    if err.Some? {
      return;
    }
    err := Hook(rs, "post-command", postCommand);
    if err.Some? {
      return;
    }
    rs.OpenStage("notify");
    rs.SetStage("notify", StageSuccess, "queued");
  }

  method IngestBody(b: Backend, ctx: RunContext, rs: RunState, job: Job, settings: Retention, cal: Calendar)
    returns (report: Report, err: Option<Error>, path: string, size: int, ghost trail: seq<Snapshot>, ghost steps: seq<Step>)
    requires b.Valid() && rs.Live() && rs.run.artifactIds == []
    modifies b, ctx, rs
    ensures b.Valid() && rs.Live()
    ensures rs.run.id == old(rs.run.id) && rs.run.jobId == old(rs.run.jobId)
    ensures BodyPost(Snapshot(old(b.artifacts), old(b.objects)), Snapshot(b.artifacts, b.objects), trail, steps,
                     EffectiveRetention(job.retention, settings), cal, job, report, err, rs.warned, rs.run.artifactIds, path, size)
  {
    hide SuccessGuarantee;
    report, path, size := NOTHING_DONE, *, *;
    trail, steps := [Snapshot(b.artifacts, b.objects)], [];
    err := Prepare(rs, job);
    if err.Some? {
      return;
    }
    err := ExternalStage(rs, "receive");
    if err.Some? {
      return;
    }
    rs.OpenStage("pack");
    rs.SetStage("pack", StageSuccess, "");
    report, err, trail, steps := StoreVerifyRetain(b, ctx, rs, job, settings, cal, path, size);
    if err.Some? {
      return;
    }
    rs.OpenStage("notify");
    rs.SetStage("notify", StageSuccess, "queued");
  }

  // ---------------------------------------------------------------------------
  // Whole runs
  // ---------------------------------------------------------------------------

  datatype StoringKind = BackupRun(preCommand: bool, postCommand: bool) | IngestRun

  /** A backup or ingest run from start to finish. */
  method ExecuteStoringRun(
    b: Backend, ctx: RunContext, rs: RunState, kind: StoringKind, job: Job, settings: Retention, cal: Calendar)
    returns (report: Report, path: string, size: int, ghost trail: seq<Snapshot>, ghost steps: seq<Step>)
    requires b.Valid() && rs.run.status.Queued? && !rs.stored.status.Terminal() && TerminalEvents(rs.events) == 0
    requires rs.run.artifactIds == []
    modifies b, ctx, rs
    ensures b.Valid()
    // the run ends exactly once, with no stage left running
    ensures rs.run.status.Terminal() && TerminalEvents(rs.events) == 1
    ensures forall i :: 0 <= i < |rs.run.stages| ==> !rs.run.stages[i].status.StageRunning?
    // the steps the world went through are those the report accounts for
    ensures Accounts(trail, steps, job, EffectiveRetention(job.retention, settings), cal, report, rs.run.artifactIds, path, size)
    ensures trail[0] == Snapshot(old(b.artifacts), old(b.objects)) && trail[|steps|] == Snapshot(b.artifacts, b.objects)
    // success means all three steps without a problem, and delivery to every destination
    ensures rs.run.status.Success? ==>
              |steps| == 3 && report == Report(true, 0, 0, true, 0)
              && SuccessGuarantee(old(b.artifacts), b.artifacts, b.objects, rs.run.artifactIds, job, path, size)
    // when nothing was stored the run failed or was canceled, and nothing but the uploads' own path was touched
    ensures report.uploadFailures == |job.destinationIds| ==> !report.stored
    ensures !report.stored ==>
              (rs.run.status.Failed? || rs.run.status.Canceled?)
              && NothingStored(Snapshot(old(b.artifacts), old(b.objects)), Snapshot(b.artifacts, b.objects), steps, job, path)
  {
    hide SuccessGuarantee, OnlyTouches, TailAccounts;
    rs.Start();
    var err: Option<Error>;
    match kind {
      case BackupRun(pre, post) =>
        report, err, path, size, trail, steps := BackupBody(b, ctx, rs, job, pre, post, settings, cal);
      case IngestRun =>
        report, err, path, size, trail, steps := IngestBody(b, ctx, rs, job, settings, cal);
    }
    var c := ctx.Err();
    rs.Finish(c, err);
  }

  lemma NoStep(s: Snapshot)
    ensures IsTrail([s], [])
  {
  }

  lemma OneStep(before: Snapshot, step: Step, after: Snapshot)
    requires Legal(before, step, after)
    ensures IsTrail([before, after], [step])
  {
    hide Legal;
  }

  /** A prune run: retention and nothing else. */
  method ExecutePrune(b: Backend, ctx: RunContext, rs: RunState, job: Job, settings: Retention, cal: Calendar)
    returns (problems: nat, ghost trail: seq<Snapshot>, ghost steps: seq<Step>)
    requires b.Valid() && rs.run.status.Queued? && !rs.stored.status.Terminal() && TerminalEvents(rs.events) == 0
    modifies b, ctx, rs
    ensures b.Valid()
    ensures rs.run.status.Terminal() && TerminalEvents(rs.events) == 1
    ensures IsTrail(trail, steps) && (forall s :: s in steps ==> s.Retains?)
    ensures trail[0] == Snapshot(old(b.artifacts), old(b.objects)) && trail[|steps|] == Snapshot(b.artifacts, b.objects)
    ensures rs.run.status.Success? ==> problems == 0 && |steps| == 1
    ensures |steps| == 1 ==> RetentionAccounts(trail[0], trail[1], job, EffectiveRetention(job.retention, settings), cal, problems)
  {
    ghost var before := Snapshot(b.artifacts, b.objects);
    rs.Start();
    problems := 0;
    trail, steps := [before], [];
    NoStep(before);
    hide AllCarried, NoneStranded, IsTrail;
    var err := ExternalStage(rs, "prepare");
    if err.None? {
      ghost var pruned;
      problems, pruned := RetentionStage(b, rs, job, settings, cal);
      ghost var after := Snapshot(b.artifacts, b.objects);
      ghost var step := Retains(job.id, Dests(job.destinationIds, |job.destinationIds|), pruned);
      OneStep(before, step, after);
      trail, steps := [before, after], [step];
    }
    hide Legal;
    var c := ctx.Err();
    rs.Finish(c, err);
  }

  /** A verify run of one artifact: it succeeds only when the object is there with the recorded size. */
  method ExecuteVerify(b: Backend, ctx: RunContext, rs: RunState, id: nat)
    returns (ghost trail: seq<Snapshot>, ghost steps: seq<Step>)
    requires b.Valid() && rs.run.status.Queued? && !rs.stored.status.Terminal() && TerminalEvents(rs.events) == 0
    modifies b, ctx, rs
    ensures b.Valid()
    ensures rs.run.status.Terminal() && TerminalEvents(rs.events) == 1
    ensures IsTrail(trail, steps) && (forall s :: s in steps ==> s == Verifies({id}))
    ensures trail[0] == Snapshot(old(b.artifacts), old(b.objects)) && trail[|steps|] == Snapshot(b.artifacts, b.objects)
    ensures rs.run.status.Success? ==>
              id in old(b.artifacts) && Verified(b.artifacts, b.objects, id) && b.artifacts[id].status == old(b.artifacts)[id].status
  {
    ghost var before := Snapshot(b.artifacts, b.objects);
    rs.Start();
    trail, steps := [before], [];
    NoStep(before);
    hide Verified, VerifyEffect, IsTrail;
    var err := FindArtifact(b, rs, id);
    if err.None? {
      var ok := VerifyStage(b, rs, id);
      ghost var after := Snapshot(b.artifacts, b.objects);
      OneStep(before, Verifies({id}), after);
      trail, steps := [before, after], [Verifies({id})];
    }
    hide Legal;
    var c := ctx.Err();
    rs.Finish(c, err);
  }

  method FindArtifact(b: Backend, rs: RunState, id: nat) returns (err: Option<Error>)
    requires rs.Live()
    modifies rs`run, rs`stored, rs`events
    ensures rs.Live()
    ensures err.None? ==> id in b.artifacts
  {
    rs.OpenStage("prepare");
    err := *;
    if err.None? && id !in b.artifacts {
      err := Some(Error(OtherError, "not found"));
    }
    if err.Some? {
      rs.SetStage("prepare", StageFailed, err.value.text);
      return;
    }
    rs.SetStage("prepare", StageSuccess, "");
  }

  method VerifyStage(b: Backend, rs: RunState, id: nat) returns (ok: bool)
    requires b.Valid() && rs.Live() && id in b.artifacts
    modifies b`artifacts, rs
    ensures b.Valid() && rs.Live()
    ensures VerifyEffect(old(b.artifacts), b.artifacts, {id})
    ensures rs.warned == (old(rs.warned) || !ok)
    ensures ok ==> Verified(b.artifacts, b.objects, id) && b.artifacts[id].status == old(b.artifacts)[id].status
  {
    hide Verified, VerifyEffect;
    rs.OpenStage("verify");
    ghost var before, a := b.artifacts, b.artifacts[id];
    ghost var check;
    ok, check := VerifyOne(b, b.artifacts[id]);
    CheckIsVerifyEffect(before, b.objects, a, check);
    if !ok {
      rs.Warn("verification failed");
      rs.SetStage("verify", StageFailed, "verification failed");
      return;
    }
    rs.SetStage("verify", StageSuccess, "");
  }

  /** Two trails in a row are one trail, so every theorem about trails covers any sequence of runs. */
  lemma TrailsChain(first: seq<Snapshot>, steps1: seq<Step>, second: seq<Snapshot>, steps2: seq<Step>)
    requires IsTrail(first, steps1) && IsTrail(second, steps2) && first[|steps1|] == second[0]
    ensures IsTrail(first + second[1..], steps1 + steps2)
  {
    var trail, steps := first + second[1..], steps1 + steps2;
    forall i | 0 <= i < |steps| ensures Legal(trail[i], steps[i], trail[i + 1]) {
      if i >= |steps1| {
        var k := i - |steps1|;
        assert trail[i] == second[k] && trail[i + 1] == second[k + 1];
        assert Legal(second[k], steps2[k], second[k + 1]);
      } else {
        assert Legal(first[i], steps1[i], first[i + 1]);
      }
    }
  }
}
