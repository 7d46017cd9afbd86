/** Uploading to every destination, with retries, and checking what arrived. */
module Upload {
  import opened Core
  import opened RunLifecycle
  import opened World

  const DEFAULT_DELAY: int := 5_000_000_000
  const MAX_BACKOFF: int := 600_000_000_000
  const SECOND: int := 1_000_000_000

  datatype Job = Job(
    id: string,
    slug: string,
    destinationIds: seq<string>,
    retention: Retention,
    verifyAfterUpload: bool,
    retries: int,
    retryDelaySeconds: int)

  /** A run's context: once it has ended it stays ended. */
  class RunContext {
    var state: Context

    constructor ()
      ensures state == Alive
    {
      state := Alive;
    }

    method Err() returns (c: Context)
      modifies this
      ensures c == state && (old(state) != Alive ==> state == old(state))
    {
      if state == Alive {
        state := *;
      }
      c := state;
    }
  }

  function ContextError(c: Context): Error
    requires c != Alive
  {
    if c.ContextCanceled? then Error(CanceledError, "context canceled") else Error(DeadlineError, "context deadline exceeded")
  }

  // ---------------------------------------------------------------------------
  // Retry delays, in 64-bit arithmetic
  // ---------------------------------------------------------------------------

  const TWO63: int := 0x8000_0000_0000_0000

  /** The value a signed 64-bit multiplication leaves. */
  function Wrap(x: int): int {
    (x + TWO63) % (2 * TWO63) - TWO63
  }

  function Power2(n: nat): int {
    if n == 0 then 1 else 2 * Power2(n - 1)
  }

  lemma {:induction false} Power2Grows(m: nat, n: nat)
    requires m <= n
    ensures 1 <= Power2(m) <= Power2(n)
    decreases n
  {
    if n > 0 {
      if m < n {
        Power2Grows(m, n - 1);
      } else {
        Power2Grows(m - 1, n - 1);
      }
    }
  }

  /** The configured delay in nanoseconds; zero, negative or overflowing to either means five seconds. */
  function BaseDelay(seconds: int): (delay: int)
    ensures 0 < delay < TWO63
  {
    var delay := Wrap(seconds * SECOND);
    if delay <= 0 then DEFAULT_DELAY else delay
  }

  /** The base after `n` doublings in 64 bits. */
  function Doubled(base: int, n: nat): int {
    Wrap(base * Power2(n))
  }

  ghost predicate Capped(base: int, step: nat) {
    exists k :: 1 <= k < step && Doubled(base, k) >= MAX_BACKOFF
  }

  /** Wrapping before a doubling changes nothing. */
  lemma WrapDoubles(x: int)
    ensures Wrap(x * 2) == Wrap(Wrap(x) * 2)
  {
    var q := (x + TWO63) / (2 * TWO63);
    var y := x * 2 + TWO63;
    assert Wrap(x) == x - q * (2 * TWO63);
    var (d, m) := (y / (2 * TWO63), y % (2 * TWO63));
    assert Wrap(x) * 2 + TWO63 == (d - 2 * q) * (2 * TWO63) + m;
  }

  lemma DoubledOnce(base: int, n: nat)
    ensures Doubled(base, n + 1) == Wrap(Doubled(base, n) * 2)
  {
    var x := base * Power2(n);
    assert base * Power2(n + 1) == x * 2;
    WrapDoubles(x);
    hide Wrap, Power2;
  }

  /**
   * The wait before retry `step`: the cap once a doubling has reached it, else what the doublings leave, which for a
   * base below 2^62 is the capped product, and for a larger one is negative at the second retry.
   */
  method Backoff(base: int, step: nat) returns (wait: int)
    requires 0 < base < TWO63 && step >= 1
    ensures wait == if Capped(base, step) then MAX_BACKOFF else Min(Doubled(base, step - 1), MAX_BACKOFF)
    ensures base < TWO63 / 2 || step == 1 ==> wait == Min(base * Power2(step - 1), MAX_BACKOFF)
    ensures base >= TWO63 / 2 && step == 2 ==> wait < 0
  {
    hide Doubled;
    wait := base;
    if base < TWO63 / 2 {
      UsualDelays(base, step);
    }
    FirstTwo(base);
    var i := 1;
    while i < step
      invariant 1 <= i <= step && wait == Doubled(base, i - 1)
      invariant forall k :: 1 <= k < i ==> Doubled(base, k) < MAX_BACKOFF
    {
      DoubledOnce(base, i - 1);
      wait := Wrap(wait * 2);
      if wait >= MAX_BACKOFF {
        return MAX_BACKOFF;
      }
      i := i + 1;
    }
    if wait > MAX_BACKOFF {
      return MAX_BACKOFF;
    }
  }

  lemma FirstTwo(base: int)
    requires 0 < base < TWO63
    ensures Doubled(base, 0) == base
    ensures Doubled(base, 1) == if base < TWO63 / 2 then 2 * base else 2 * base - 2 * TWO63
  {
    assert Power2(0) == 1 && Power2(1) == 2;
  }

  lemma DoublingFits(base: int, n: nat)
    requires 0 <= base * Power2(n) < TWO63
    ensures Doubled(base, n) == base * Power2(n)
  {
  }

  /** The first doubling that reaches the cap. */
  lemma {:induction false} FirstAtCap(base: int, n: nat) returns (k: nat)
    requires base > 0 && n >= 1 && base * Power2(n) >= MAX_BACKOFF
    ensures 1 <= k <= n && base * Power2(k) >= MAX_BACKOFF && (k > 1 ==> base * Power2(k - 1) < MAX_BACKOFF)
  {
    if n == 1 || base * Power2(n - 1) < MAX_BACKOFF {
      k := n;
    } else {
      k := FirstAtCap(base, n - 1);
    }
  }

  /** A base below 2^62 is capped before its doublings could overflow. */
  lemma {:induction false} UsualDelays(base: int, step: nat)
    requires 0 < base < TWO63 / 2 && step >= 1
    ensures (if Capped(base, step) then MAX_BACKOFF else Min(Doubled(base, step - 1), MAX_BACKOFF))
         == Min(base * Power2(step - 1), MAX_BACKOFF)
  {
    if base * Power2(step - 1) < MAX_BACKOFF {
      BelowTheCap(base, step);
    } else if step == 1 {
      FirstTwo(base);
    } else {
      var k := FirstAtCap(base, step - 1);
      assert base * Power2(k) == (base * Power2(k - 1)) * 2;
      assert k == 1 ==> Power2(k - 1) == 1;
      DoublingFits(base, k);
      assert Capped(base, step);
    }
  }

  lemma BelowTheCap(base: int, step: nat)
    requires base > 0 && step >= 1 && base * Power2(step - 1) < MAX_BACKOFF
    ensures !Capped(base, step) && Doubled(base, step - 1) == base * Power2(step - 1)
  {
    hide Doubled;
    forall k | 0 <= k < step
      ensures Doubled(base, k) == base * Power2(k) < MAX_BACKOFF
    {
      Power2Grows(k, step - 1);
      assert 0 <= base * Power2(k) <= base * Power2(step - 1);
      DoublingFits(base, k);
    }
  }

  // ---------------------------------------------------------------------------
  // One destination
  // ---------------------------------------------------------------------------

  /** Retries until an upload succeeds, the attempts are used up, or the context ends. */
  method UploadOne(b: Backend, ctx: RunContext, job: Job, dest: string, path: string, size: int)
    returns (err: Option<Error>, tries: nat)
    modifies b`objects, ctx
    ensures OnlyTouches(old(b.objects), b.objects, {(dest, path)})
    ensures err.None? ==> (dest, path) in b.objects && tries >= 1
    ensures tries <= (if job.retries < 0 then 1 else job.retries + 1)
    ensures err.Some? && err.value.kind.OtherError? ==> tries == (if job.retries < 0 then 1 else job.retries + 1)
    ensures tries == 0 ==> err.Some? && ctx.state != Alive
  {
    var attempts := job.retries + 1;
    if attempts < 1 {
      attempts := 1;
    }
    tries := 0;
    err := None;
    while tries < attempts
      invariant 0 <= tries <= attempts
      invariant OnlyTouches(old(b.objects), b.objects, {(dest, path)})
      invariant tries > 0 ==> err.Some?
    {
      var c := ctx.Err();
      if c != Alive {
        err := Some(ContextError(c));
        return;
      }
      if tries > 0 {
        var wait := Backoff(BaseDelay(job.retryDelaySeconds), tries);
        c := ctx.Err(); // the wait ends early when the context does
        if c != Alive {
          err := Some(ContextError(c));
          return;
        }
      }
      var ok := b.Put(dest, path, size);
      tries := tries + 1;
      if ok {
        err := None;
        return;
      }
      var failure: Error := *;
      err := Some(failure);
      if !failure.kind.OtherError? {
        return;
      }
    }
  }

  // ---------------------------------------------------------------------------
  // All destinations
  // ---------------------------------------------------------------------------

  /** The row an upload records for one destination. */
  ghost predicate Recorded(artifacts: map<nat, Artifact>, id: nat, job: Job, dest: string, path: string, size: int) {
    && id in artifacts
    && artifacts[id].jobId == job.id
    && artifacts[id].destinationId == dest
    && artifacts[id].path == path
    && artifacts[id].size == size
    && artifacts[id].status.Present?
  }

  ghost function DestKeys(dests: seq<string>, path: string): set<Key> {
    set d | d in dests :: (d, path)
  }

  /** Rows are only added, all of them fresh uploads of this run. */
  ghost predicate OnlyUploads(before: map<nat, Artifact>, after: map<nat, Artifact>, job: Job, dests: seq<string>, path: string, size: int) {
    && (forall id :: id in before ==> id in after && after[id] == before[id])
    && (forall id :: id in after && id !in before ==>
          after[id].destinationId in dests && Recorded(after, id, job, after[id].destinationId, path, size))
  }

  /** One destination of `UploadAll`: the stage, the upload and the row. */
  method UploadTo(b: Backend, ctx: RunContext, rs: RunState, job: Job, dest: string, path: string, size: int)
    returns (saved: Option<nat>)
    requires b.Valid() && rs.Live()
    modifies b, ctx, rs`run, rs`stored, rs`events
    ensures b.Valid() && rs.Live()
    ensures rs.run.id == old(rs.run.id) && rs.run.jobId == old(rs.run.jobId)
    ensures rs.run.artifactIds == old(rs.run.artifactIds) + (if saved.Some? then [saved.value] else [])
    ensures UploadStep(old(b.artifacts), b.artifacts, old(b.objects), b.objects, job, dest, path, size, saved)
    ensures OnlyTouches(old(b.objects), b.objects, {(dest, path)})
    ensures saved.None? ==> b.artifacts == old(b.artifacts)
  {
    rs.OpenStage("upload:" + dest);
    var err, tries := UploadOne(b, ctx, job, dest, path, size);
    if err.Some? {
      rs.SetStage("upload:" + dest, StageFailed, err.value.text);
      return None;
    }
    var createdAt: Time := *;
    saved := b.CreateArtifact(Artifact(0, job.id, dest, path, size, Present, createdAt, None));
    if saved.None? {
      rs.SetStage("upload:" + dest, StageFailed, "create artifact");
      return;
    }
    rs.AddArtifact(saved.value);
    rs.SetStage("upload:" + dest, StageSuccess, "");
  }

  /** Every destination recorded and holding an object, in order. */
  ghost predicate AllRecorded(
    artifacts: map<nat, Artifact>, objects: map<Key, int>, ids: seq<nat>, job: Job, dests: seq<string>, path: string, size: int)
  {
    && |ids| == |dests|
    && forall i :: 0 <= i < |dests| ==>
         Recorded(artifacts, ids[i], job, dests[i], path, size) && (dests[i], path) in objects
  }

  /** Uploads to every destination: an error only when all of them failed, a warning when some did. */
  method UploadAll(b: Backend, ctx: RunContext, rs: RunState, job: Job, dests: seq<string>, path: string, size: int)
    returns (ids: seq<nat>, failures: nat, err: Option<Error>)
    requires b.Valid() && rs.Live()
    modifies b, ctx, rs
    ensures b.Valid() && rs.Live()
    ensures rs.run.id == old(rs.run.id) && rs.run.jobId == old(rs.run.jobId)
    ensures rs.run.artifactIds == old(rs.run.artifactIds) + ids
    ensures OnlyUploads(old(b.artifacts), b.artifacts, job, dests, path, size)
    ensures OnlyTouches(old(b.objects), b.objects, DestKeys(dests, path))
    ensures forall id :: id in ids <==> id in b.artifacts && id !in old(b.artifacts)
    ensures |ids| + failures == |dests|
    ensures err.Some? <==> failures > 0 && ids == []
    ensures rs.warned == (old(rs.warned) || (failures > 0 && ids != []))
    ensures failures == 0 ==> AllRecorded(b.artifacts, b.objects, ids, job, dests, path, size)
  {
    hide OnlyUploads, OnlyTouches, AllRecorded, Recorded, UploadStep;
    ids, failures, err := [], 0, None;
    assert dests[..0] == [];
    NothingUploaded(b.artifacts, b.objects, job, path, size);
    for i := 0 to |dests|
      invariant b.Valid() && rs.Live()
      invariant rs.run.id == old(rs.run.id) && rs.run.jobId == old(rs.run.jobId)
      invariant rs.run.artifactIds == old(rs.run.artifactIds) + ids
      invariant rs.warned == old(rs.warned)
      invariant OnlyUploads(old(b.artifacts), b.artifacts, job, dests[..i], path, size)
      invariant OnlyTouches(old(b.objects), b.objects, DestKeys(dests[..i], path))
      invariant forall id :: id in ids <==> id in b.artifacts && id !in old(b.artifacts)
      invariant |ids| + failures == i
      invariant failures == 0 ==> AllRecorded(b.artifacts, b.objects, ids, job, dests[..i], path, size)
    {
      ghost var artifacts, objects := b.artifacts, b.objects;
      var saved := UploadTo(b, ctx, rs, job, dests[i], path, size);
      OneMoreRow(old(b.artifacts), artifacts, b.artifacts, objects, b.objects, job, dests, i, path, size, saved);
      OneMoreKey(old(b.objects), objects, b.objects, dests, i, path);
      if saved.None? {
        failures := failures + 1;
        continue;
      }
      if failures == 0 {
        OneMoreRecorded(artifacts, b.artifacts, objects, b.objects, ids, job, dests, i, path, size, saved);
      }
      ids := ids + [saved.value];
    }
    assert dests[..|dests|] == dests;
    if failures > 0 && |ids| == 0 {
      err := Some(Error(OtherError, "all destinations failed"));
      return;
    }
    if failures > 0 {
      rs.Warn("some destinations failed");
    }
  }

  /** What one iteration of `UploadAll` may do to the world. */
  ghost predicate UploadStep(
    mid: map<nat, Artifact>, after: map<nat, Artifact>, objects: map<Key, int>, objects': map<Key, int>,
    job: Job, dest: string, path: string, size: int, saved: Option<nat>)
  {
    && OnlyTouches(objects, objects', {(dest, path)})
    && (saved.None? ==> after == mid)
    && (saved.Some? ==>
          && (dest, path) in objects'
          && saved.value !in mid
          && after.Keys == mid.Keys + {saved.value}
          && (forall id :: id in mid ==> after[id] == mid[id])
          && Recorded(after, saved.value, job, dest, path, size))
  }

  lemma OneMoreRow(
    before: map<nat, Artifact>, mid: map<nat, Artifact>, after: map<nat, Artifact>,
    objects: map<Key, int>, objects': map<Key, int>,
    job: Job, dests: seq<string>, i: nat, path: string, size: int, saved: Option<nat>)
    requires i < |dests|
    requires OnlyUploads(before, mid, job, dests[..i], path, size)
    requires UploadStep(mid, after, objects, objects', job, dests[i], path, size, saved)
    ensures OnlyUploads(before, after, job, dests[..i + 1], path, size)
    ensures forall id :: id in after && id !in before <==> Some(id) == saved || (id in mid && id !in before)
  {
    hide OnlyTouches;
    assert dests[..i + 1] == dests[..i] + [dests[i]];
    forall k | k in after && k !in before
      ensures after[k].destinationId in dests[..i + 1] && Recorded(after, k, job, after[k].destinationId, path, size)
    {
      if Some(k) != saved {
        assert Recorded(mid, k, job, mid[k].destinationId, path, size);
      }
    }
  }

  lemma OneMoreKey(
    objects: map<Key, int>, objects': map<Key, int>, objects'': map<Key, int>, dests: seq<string>, i: nat, path: string)
    requires i < |dests|
    requires OnlyTouches(objects, objects', DestKeys(dests[..i], path))
    requires OnlyTouches(objects', objects'', {(dests[i], path)})
    ensures OnlyTouches(objects, objects'', DestKeys(dests[..i + 1], path))
  {
    assert dests[..i + 1] == dests[..i] + [dests[i]];
    assert DestKeys(dests[..i + 1], path) == DestKeys(dests[..i], path) + {(dests[i], path)};
  }

  lemma OneMoreRecorded(
    mid: map<nat, Artifact>, after: map<nat, Artifact>, objects: map<Key, int>, objects': map<Key, int>,
    ids: seq<nat>, job: Job, dests: seq<string>, i: nat, path: string, size: int, saved: Option<nat>)
    requires i < |dests| && saved.Some?
    requires AllRecorded(mid, objects, ids, job, dests[..i], path, size)
    requires UploadStep(mid, after, objects, objects', job, dests[i], path, size, saved)
    ensures AllRecorded(after, objects', ids + [saved.value], job, dests[..i + 1], path, size)
  {
    forall j | 0 <= j < i
      ensures Recorded(after, ids[j], job, dests[j], path, size) && (dests[j], path) in objects'
    {
      assert Recorded(mid, ids[j], job, dests[..i][j], path, size) && (dests[..i][j], path) in objects;
    }
  }

  lemma NothingUploaded(artifacts: map<nat, Artifact>, objects: map<Key, int>, job: Job, path: string, size: int)
    ensures OnlyUploads(artifacts, artifacts, job, [], path, size)
    ensures OnlyTouches(objects, objects, DestKeys([], path))
    ensures AllRecorded(artifacts, objects, [], job, [], path, size)
  {
  }
}
