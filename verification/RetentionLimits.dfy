/** Where the guarantees of retention stop. */
module RetentionLimits {
  import opened Core
  import opened RetentionPlan
  import opened RetentionHistory
  import opened World
  import opened Pruning
  import opened Verification
  import opened ArtifactHistory

  const KEEP_ONE := Retention(1, 0, 0, 0, 0, 0, 0)

  /** Under keepLast 1 alone, an artifact is removed exactly when a listed one has a later creation time. */
  lemma KeepOneRemovesTheOlder(items: seq<Artifact>, a: Artifact, cal: Calendar, now: Time)
    requires DistinctList(items) && a in items
    ensures a in Planned(items, false, KEEP_ONE, cal, now) <==> exists b :: b in items && b.createdAt > a.createdAt
  {
    var all := Elements(items);
    PlanIsSetLevel(items, KEEP_ONE, cal, now);
    assert a in Planned(items, false, KEEP_ONE, cal, now)
      <==> a in Elements(Planned(items, false, KEEP_ONE, cal, now));
    assert Keeps(all, a, KEEP_ONE, cal, now) <==> NewerThan(all, a) == {} by {
      assert NewerThan(all, a) != {} ==> |NewerThan(all, a)| >= 1;
    }
    if b :| b in items && b.createdAt > a.createdAt {
      assert b in NewerThan(all, a);
    }
  }

  /** So the artifact just uploaded is itself pruned when the clock stepped back behind an older one. */
  lemma ClockStepRemovesTheUpload(uploaded: Artifact, older: Artifact, cal: Calendar, now: Time)
    requires uploaded.createdAt < older.createdAt
    ensures uploaded in Planned([older, uploaded], false, KEEP_ONE, cal, now)
  {
    KeepOneRemovesTheOlder([older, uploaded], uploaded, cal, now);
    assert older in [older, uploaded];
  }

  // ---------------------------------------------------------------------------
  // A verify run between the listing and the pruning
  // ---------------------------------------------------------------------------

  /** Some artifact the plan keeps is not among those verified. */
  ghost predicate KeptUnverified(items: seq<Artifact>, ids: set<nat>, r: Retention, cal: Calendar, now: Time) {
    exists a :: a in Planned(items, true, r, cal, now) && a.id !in ids
  }

  /** The pair was verified, for these artifacts, after it was listed, and then pruned by the plan of that listing. */
  ghost predicate VerifiedThenPruned(
    before: Snapshot, mid: Snapshot, after: Snapshot, items: seq<Artifact>, ids: set<nat>, pruned: set<nat>,
    r: Retention, cal: Calendar, now: Time)
  {
    && Legal(before, Verifies(ids), mid)
    && PrunePass(mid.artifacts, mid.objects, after.artifacts, after.objects, Planned(items, false, r, cal, now), pruned)
  }

  lemma UnverifiedKeepsPair(
    before: Snapshot, mid: Snapshot, after: Snapshot, jobId: string, dest: string, items: seq<Artifact>, ids: set<nat>,
    pruned: set<nat>, r: Retention, cal: Calendar, now: Time)
    requires Lists(before.artifacts, jobId, dest, items) && KeptUnverified(items, ids, r, cal, now)
    requires VerifiedThenPruned(before, mid, after, items, ids, pruned, r, cal, now)
    ensures HasPresent(after, jobId, dest)
  {
    hide Planned, Lists, OnlyTouches;
    PlannedApart(before.artifacts, jobId, dest, items, r, cal, now);
    var a :| a in Planned(items, true, r, cal, now) && a.id !in ids;
    assert PresentFor(before.artifacts, a.id, jobId, dest) by { ListedIsPresent(before, jobId, dest, items, a); }
    assert PresentFor(after.artifacts, a.id, jobId, dest);
  }

  lemma ListedIsPresent(before: Snapshot, jobId: string, dest: string, items: seq<Artifact>, a: Artifact)
    requires Lists(before.artifacts, jobId, dest, items) && a in items
    ensures PresentFor(before.artifacts, a.id, jobId, dest) && before.artifacts[a.id] == a
  {
  }

  /** The rows after checks of these artifacts one after the other, each of which met a failed stat and saved that. */
  ghost function AllStatsFail(artifacts: map<nat, Artifact>, items: seq<Artifact>): map<nat, Artifact> {
    if items == [] then artifacts
    else
      var rest := AllStatsFail(artifacts, items[..|items| - 1]);
      var id := items[|items| - 1].id;
      if id in rest then rest[id := CheckedRow(rest[id], StatFailed(true))] else rest
  }

  lemma {:induction false} FailedStatsMark(artifacts: map<nat, Artifact>, items: seq<Artifact>)
    ensures var after := AllStatsFail(artifacts, items);
      && after.Keys == artifacts.Keys
      && forall id :: id in artifacts ==> after[id] == if id in Ids(items) then artifacts[id].(status := Missing) else artifacts[id]
  {
    if items != [] {
      var (init, last) := (items[..|items| - 1], items[|items| - 1]);
      FailedStatsMark(artifacts, init);
      assert items == init + [last];
      assert Ids(items) == Ids(init) + {last.id};
    }
  }

  /** A pass over `remove` in which every call works. */
  ghost function PassDone(s: Snapshot, remove: seq<Artifact>): Snapshot {
    Snapshot(map id | id in s.artifacts :: if id in Ids(remove) then s.artifacts[id].(status := Pruned) else s.artifacts[id],
             s.objects - Keys(remove))
  }

  lemma PassDoneIsPass(before: Snapshot, mid: Snapshot, remove: seq<Artifact>)
    requires forall a :: a in remove ==> a.id in before.artifacts && before.artifacts[a.id] == a
    requires VerifyEffect(before.artifacts, mid.artifacts, mid.artifacts.Keys)
    ensures var after := PassDone(mid, remove);
      PrunePass(mid.artifacts, mid.objects, after.artifacts, after.objects, remove, Ids(remove))
  {
    forall id | id in Ids(remove)
      ensures id in mid.artifacts && KeyOf(mid.artifacts[id]) in Keys(remove)
    {
      var a :| a in remove && a.id == id;
      assert KeyOf(mid.artifacts[id]) == KeyOf(a);
    }
  }

  /** When every kept artifact is among those verified, failed stats and then the pass can leave nothing present. */
  lemma VerifyingAllKeptCanEmpty(
    before: Snapshot, jobId: string, dest: string, items: seq<Artifact>, ids: set<nat>, r: Retention, cal: Calendar, now: Time)
    returns (mid: Snapshot, after: Snapshot)
    requires WellFormed(before.artifacts) && Lists(before.artifacts, jobId, dest, items) && !KeptUnverified(items, ids, r, cal, now)
    ensures mid == Snapshot(AllStatsFail(before.artifacts, Planned(items, true, r, cal, now)), before.objects)
    ensures after == PassDone(mid, Planned(items, false, r, cal, now))
    ensures VerifiedThenPruned(before, mid, after, items, ids, Ids(Planned(items, false, r, cal, now)), r, cal, now)
    ensures !HasPresent(after, jobId, dest)
  {
    var keep, remove := Planned(items, true, r, cal, now), Planned(items, false, r, cal, now);
    PlannedApart(before.artifacts, jobId, dest, items, r, cal, now);
    mid := Snapshot(AllStatsFail(before.artifacts, keep), before.objects);
    after := PassDone(mid, remove);
    FailedStatsMark(before.artifacts, keep);
    assert forall a :: a in keep ==> a.id in ids;
    hide Planned, AllStatsFail, KeptUnverified;
    IdsWithin(keep, ids);
    assert forall a :: a in remove ==> a in items;
    PassDoneIsPass(before, mid, remove);
    NothingLeft(before, mid, jobId, dest, items, keep, remove);
  }

  lemma IdsWithin(items: seq<Artifact>, ids: set<nat>)
    requires forall a :: a in items ==> a.id in ids
    ensures Ids(items) <= ids
  {
  }

  lemma NothingLeft(
    before: Snapshot, mid: Snapshot, jobId: string, dest: string,
    items: seq<Artifact>, keep: seq<Artifact>, remove: seq<Artifact>)
    requires WellFormed(before.artifacts) && Lists(before.artifacts, jobId, dest, items)
    requires forall a :: a in items ==> a in keep || a in remove
    requires mid.artifacts.Keys == before.artifacts.Keys
    requires forall id :: id in before.artifacts ==>
      mid.artifacts[id] == if id in Ids(keep) then before.artifacts[id].(status := Missing) else before.artifacts[id]
    ensures !HasPresent(PassDone(mid, remove), jobId, dest)
  {
    var after := PassDone(mid, remove);
    forall id
      ensures !PresentFor(after.artifacts, id, jobId, dest)
    {
      if PresentFor(before.artifacts, id, jobId, dest) {
        var a := before.artifacts[id];
        assert a in items && a.id == id;
        assert id in Ids(keep) || id in Ids(remove);
      }
    }
  }

  /**
   * Verify runs take no job lock. Whatever the listing, the policy and the
   * artifacts verified between the listing and the pruning, the pair is sure to
   * keep a present artifact if and only if one the plan keeps is not verified.
   */
  lemma VerifyBetweenPlanAndPrune(
    before: Snapshot, jobId: string, dest: string, items: seq<Artifact>, ids: set<nat>, r: Retention, cal: Calendar, now: Time)
    requires WellFormed(before.artifacts) && Lists(before.artifacts, jobId, dest, items)
    ensures KeptUnverified(items, ids, r, cal, now) <==>
            (forall mid, after, pruned :: VerifiedThenPruned(before, mid, after, items, ids, pruned, r, cal, now)
               ==> HasPresent(after, jobId, dest))
  {
    hide Planned, Lists, HasPresent, VerifiedThenPruned, KeptUnverified;
    if KeptUnverified(items, ids, r, cal, now) {
      forall mid, after, pruned | VerifiedThenPruned(before, mid, after, items, ids, pruned, r, cal, now)
        ensures HasPresent(after, jobId, dest)
      {
        UnverifiedKeepsPair(before, mid, after, jobId, dest, items, ids, pruned, r, cal, now);
      }
    } else {
      var mid, after := VerifyingAllKeptCanEmpty(before, jobId, dest, items, ids, r, cal, now);
    }
  }

  // ---------------------------------------------------------------------------
  // A present row without its object
  // ---------------------------------------------------------------------------

  /**
   * Of the artifacts handed to a pass, their paths being different, exactly
   * those whose object was there, whose delete took effect and whose row was
   * then not marked stay present without an object.
   */
  lemma PresentRowWithoutObject(
    before: Snapshot, after: Snapshot, remove: seq<Artifact>, attempts: seq<Attempt>, i: nat)
    requires InTable(before.artifacts, remove) && forall a :: a in remove ==> a.status.Present?
    requires forall j, k :: 0 <= j < k < |remove| ==> KeyOf(remove[j]) != KeyOf(remove[k])
    requires Attempted(before.artifacts, before.objects, after.artifacts, after.objects, remove, attempts) && i < |remove|
    ensures remove[i].id in after.artifacts
    ensures Stranded(after.artifacts, before.objects, after.objects, remove[i].id) <==>
            KeyOf(remove[i]) in before.objects && i < |attempts| && attempts[i].Gone() && !attempts[i].Marked?
  {
    assert remove[i] in remove;
    if KeyOf(remove[i]) in before.objects {
      StrandedExactlyWhenDeletedUnmarked(before.artifacts, before.objects, after.artifacts, after.objects,
                                         remove, attempts, remove[i].id);
      assert PathDeleted(remove, attempts, KeyOf(remove[i])) <==> i < |attempts| && attempts[i].Gone();
      assert RowMarked(remove, attempts, remove[i].id) <==> i < |attempts| && attempts[i].Marked?;
    }
  }
}
