/** Checking stored artifacts against their destinations. */
module Verification {
  import opened Core
  import opened RunLifecycle
  import opened World

  // ---------------------------------------------------------------------------
  // Verification
  // ---------------------------------------------------------------------------

  /** Each listed row is untouched, marked missing, or marked verified; every other row is untouched. */
  ghost predicate VerifyEffect(before: map<nat, Artifact>, after: map<nat, Artifact>, ids: set<nat>) {
    && after.Keys == before.Keys
    && forall id :: id in before ==>
         || after[id] == before[id]
         || (id in ids && after[id] == before[id].(verifiedAt := after[id].verifiedAt, status := after[id].status)
             && (after[id].status == before[id].status || after[id].status.Missing?))
  }

  /** The row is verified: its object is there with the recorded size. */
  ghost predicate Verified(artifacts: map<nat, Artifact>, objects: map<Key, int>, id: nat) {
    && id in artifacts
    && artifacts[id].verifiedAt.Some?
    && KeyOf(artifacts[id]) in objects
    && objects[KeyOf(artifacts[id])] == artifacts[id].size
  }

  /** What a check of one artifact met: no client, a failed stat, no object, an object of another size, or the right one. */
  datatype Check =
    | Unreachable
    | StatFailed(saved: bool)
    | Absent(saved: bool)
    | WrongSize(saved: bool)
    | Right(saved: bool, at: Time)

  /** A check tells the truth about the object, where the destination answered. */
  predicate Truthful(check: Check, objects: map<Key, int>, a: Artifact) {
    match check
    case Absent(_) => KeyOf(a) !in objects
    case WrongSize(_) => KeyOf(a) in objects && objects[KeyOf(a)] != a.size
    case Right(_, _) => KeyOf(a) in objects && objects[KeyOf(a)] == a.size
    case _ => true
  }

  /** The row a check leaves: missing after a failed stat, no object or a wrong size, verified after the right one. */
  function CheckedRow(a: Artifact, check: Check): Artifact {
    match check
    case Unreachable => a
    case Right(saved, at) => if saved then a.(verifiedAt := Some(at)) else a
    case _ => if check.saved then a.(status := Missing) else a
  }

  method VerifyOne(b: Backend, a: Artifact) returns (ok: bool, ghost check: Check)
    requires b.Valid() && a.id in b.artifacts && b.artifacts[a.id] == a
    modifies b`artifacts
    ensures b.Valid()
    ensures Truthful(check, b.objects, a) && b.artifacts == old(b.artifacts)[a.id := CheckedRow(a, check)]
    ensures ok <==> check.Right? && check.saved
  {
    var reachable: bool := *;
    if !reachable {
      assert b.artifacts == b.artifacts[a.id := a];
      return false, Unreachable;
    }
    var statOk, size := b.Stat(a.destinationId, a.path);
    if !statOk || size.None? {
      var marked := b.SetStatus(a.id, Missing);
      assert b.artifacts == b.artifacts[a.id := b.artifacts[a.id]];
      return false, if statOk then Absent(marked) else StatFailed(marked);
    }
    if size.value != a.size {
      var marked := b.SetStatus(a.id, Missing);
      assert b.artifacts == b.artifacts[a.id := b.artifacts[a.id]];
      return false, WrongSize(marked);
    }
    var now: Time := *;
    ok := b.SetVerified(a.id, now);
    assert b.artifacts == b.artifacts[a.id := b.artifacts[a.id]];
    check := Right(ok, now);
  }

  /** A check of one artifact is a legal verify step, and only the right object and a saved time make it verified. */
  lemma CheckIsVerifyEffect(before: map<nat, Artifact>, objects: map<Key, int>, a: Artifact, check: Check)
    requires a.id in before && before[a.id] == a && Truthful(check, objects, a)
    ensures var after := before[a.id := CheckedRow(a, check)];
      && VerifyEffect(before, after, {a.id})
      && (check.Right? && check.saved ==> Verified(after, objects, a.id) && after[a.id].status == a.status)
  {
  }

  ghost predicate AllVerified(artifacts: map<nat, Artifact>, objects: map<Key, int>, ids: seq<nat>) {
    forall i :: 0 <= i < |ids| ==> Verified(artifacts, objects, ids[i])
  }

  ghost predicate SameRows(before: map<nat, Artifact>, after: map<nat, Artifact>) {
    && after.Keys == before.Keys
    && forall id :: id in before ==> after[id] == before[id].(verifiedAt := after[id].verifiedAt)
  }

  ghost function Elems(ids: seq<nat>): set<nat> {
    set id | id in ids
  }

  lemma VerifiesCompose(
    before: map<nat, Artifact>, mid: map<nat, Artifact>, after: map<nat, Artifact>, objects: map<Key, int>,
    ids: seq<nat>, i: nat, clean: bool, ok: bool)
    requires i < |ids| && VerifyEffect(before, mid, Elems(ids[..i])) && VerifyEffect(mid, after, {ids[i]})
    requires clean ==> SameRows(before, mid) && AllVerified(mid, objects, ids[..i])
    requires ids[i] in before
    requires ok ==> Verified(after, objects, ids[i]) && after[ids[i]].status == mid[ids[i]].status
    ensures VerifyEffect(before, after, Elems(ids[..i + 1]))
    ensures clean && ok ==> SameRows(before, after) && AllVerified(after, objects, ids[..i + 1])
  {
    assert ids[..i + 1] == ids[..i] + [ids[i]];
    assert Elems(ids[..i + 1]) == Elems(ids[..i]) + {ids[i]};
    if clean && ok {
      forall j | 0 <= j < i ensures Verified(after, objects, ids[j]) {
        assert Verified(mid, objects, ids[..i][j]);
      }
    }
  }

  /** The verify stage: problems are counted, warned about, and never stop the run. */
  method VerifyArtifacts(b: Backend, rs: RunState, ids: seq<nat>) returns (problems: nat)
    requires b.Valid() && rs.Live()
    requires forall id :: id in ids ==> id in b.artifacts
    modifies b`artifacts, rs
    ensures b.Valid() && rs.Live()
    ensures rs.run.id == old(rs.run.id) && rs.run.jobId == old(rs.run.jobId) && rs.run.artifactIds == old(rs.run.artifactIds)
    ensures rs.warned == (old(rs.warned) || problems > 0)
    ensures VerifyEffect(old(b.artifacts), b.artifacts, Elems(ids))
    ensures problems == 0 ==> SameRows(old(b.artifacts), b.artifacts) && AllVerified(b.artifacts, b.objects, ids)
  {
    hide AllVerified, Verified;
    rs.OpenStage("verify");
    problems := 0;
    assert ids[..0] == [];
    assert AllVerified(b.artifacts, b.objects, ids[..0]) by { NoneVerified(b.artifacts, b.objects); }
    for i := 0 to |ids|
      invariant b.Valid() && rs.Live() && rs.warned == old(rs.warned)
      invariant rs.run.id == old(rs.run.id) && rs.run.jobId == old(rs.run.jobId) && rs.run.artifactIds == old(rs.run.artifactIds)
      invariant VerifyEffect(old(b.artifacts), b.artifacts, Elems(ids[..i]))
      invariant problems == 0 ==> SameRows(old(b.artifacts), b.artifacts) && AllVerified(b.artifacts, b.objects, ids[..i])
    {
      ghost var mid, clean := b.artifacts, problems == 0;
      ghost var a := b.artifacts[ids[i]];
      var ok;
      ghost var check;
      ok, check := VerifyOne(b, b.artifacts[ids[i]]);
      CheckIsVerifyEffect(mid, b.objects, a, check);
      VerifiesCompose(old(b.artifacts), mid, b.artifacts, b.objects, ids, i, clean, ok);
      if !ok {
        problems := problems + 1;
      }
    }
    assert ids[..|ids|] == ids;
    if problems > 0 {
      rs.Warn("artifacts failed verification");
      rs.SetStage("verify", StageFailed, "artifacts failed verification");
      return;
    }
    rs.SetStage("verify", StageSuccess, "");
  }

  lemma NoneVerified(artifacts: map<nat, Artifact>, objects: map<Key, int>)
    ensures AllVerified(artifacts, objects, [])
  {
  }
}
