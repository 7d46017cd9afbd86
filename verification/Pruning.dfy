/** The retention stage: what it may delete, and what it can never destroy. */
module Pruning {
  import opened Core
  import opened RetentionPlan
  import opened RetentionFacts
  import opened World

  function EffectiveRetention(job: Retention, settings: Retention): Retention {
    if job.IsZero() then settings else job
  }

  ghost function Ids(items: seq<Artifact>): set<nat> {
    set a | a in items :: a.id
  }

  ghost function Keys(items: seq<Artifact>): set<Key> {
    set a | a in items :: KeyOf(a)
  }

  /** Exactly the rows `pruned` changed, and only their status. */
  ghost predicate StatusPruned(before: map<nat, Artifact>, after: map<nat, Artifact>, pruned: set<nat>) {
    && after.Keys == before.Keys
    && pruned <= before.Keys
    && forall id :: id in before ==>
         after[id] == if id in pruned then before[id].(status := Pruned) else before[id]
  }

  /** One prune pass over `remove`, any of whose calls may have failed: a row is pruned only once its object is gone. */
  ghost predicate PrunePass(
    before: map<nat, Artifact>, objects: map<Key, int>,
    after: map<nat, Artifact>, objects': map<Key, int>,
    remove: seq<Artifact>, pruned: set<nat>)
  {
    && StatusPruned(before, after, pruned)
    && pruned <= Ids(remove)
    && OnlyTouches(objects, objects', Keys(remove))
    && objects'.Keys <= objects.Keys
    && forall id :: id in pruned ==> KeyOf(before[id]) !in objects'
  }

  /** How the call for one listed artifact went; a delete that failed may still have taken effect. */
  datatype Attempt = DeleteFailed(tookEffect: bool) | MarkFailed | Marked
  {
    predicate Gone() {
      DeleteFailed? ==> tookEffect
    }
  }

  ghost function MarkedIds(remove: seq<Artifact>, attempts: seq<Attempt>): set<nat>
    requires |attempts| <= |remove|
  {
    set i | 0 <= i < |attempts| && attempts[i].Marked? :: remove[i].id
  }

  ghost function GoneKeys(remove: seq<Artifact>, attempts: seq<Attempt>): set<Key>
    requires |attempts| <= |remove|
  {
    set i | 0 <= i < |attempts| && attempts[i].Gone() :: KeyOf(remove[i])
  }

  predicate AllMarked(attempts: seq<Attempt>) {
    forall i :: 0 <= i < |attempts| ==> attempts[i].Marked?
  }

  predicate AllMarkedPruned(remove: seq<Artifact>, attempts: seq<Attempt>) {
    |attempts| == |remove| && AllMarked(attempts)
  }

  /** Exactly what a pass does whose first calls went as `attempts` says and whose others were not made. */
  ghost predicate Attempted(
    before: map<nat, Artifact>, objects: map<Key, int>,
    after: map<nat, Artifact>, objects': map<Key, int>,
    remove: seq<Artifact>, attempts: seq<Attempt>)
  {
    && |attempts| <= |remove|
    && StatusPruned(before, after, MarkedIds(remove, attempts))
    && objects' == objects - GoneKeys(remove, attempts)
  }

  /** Artifacts as the store holds them, each once. */
  ghost predicate InTable(artifacts: map<nat, Artifact>, items: seq<Artifact>) {
    && (forall a :: a in items ==> a.id in artifacts && artifacts[a.id] == a)
    && (forall i, j :: 0 <= i < j < |items| ==> items[i].id != items[j].id)
  }

  lemma OneAttemptMore(remove: seq<Artifact>, attempts: seq<Attempt>, last: Attempt)
    requires |attempts| < |remove|
    ensures var a := remove[|attempts|];
      && MarkedIds(remove, attempts + [last]) == MarkedIds(remove, attempts) + (if last.Marked? then {a.id} else {})
      && GoneKeys(remove, attempts + [last]) == GoneKeys(remove, attempts) + (if last.Gone() then {KeyOf(a)} else {})
      && (AllMarked(attempts + [last]) <==> AllMarked(attempts) && last.Marked?)
  {
    var more := attempts + [last];
    assert forall i :: 0 <= i < |attempts| ==> more[i] == attempts[i];
    assert more[|attempts|] == last;
  }

  /** Whatever failed, an attempted pass prunes a row only once its object is gone. */
  lemma AttemptedIsPass(
    before: map<nat, Artifact>, objects: map<Key, int>,
    after: map<nat, Artifact>, objects': map<Key, int>,
    remove: seq<Artifact>, attempts: seq<Attempt>)
    requires InTable(before, remove) && Attempted(before, objects, after, objects', remove, attempts)
    ensures PrunePass(before, objects, after, objects', remove, MarkedIds(remove, attempts))
    ensures AllMarkedPruned(remove, attempts) ==> MarkedIds(remove, attempts) == Ids(remove)
  {
    forall k | k in GoneKeys(remove, attempts)
      ensures k in Keys(remove)
    {
      var i :| 0 <= i < |attempts| && attempts[i].Gone() && KeyOf(remove[i]) == k;
      assert remove[i] in remove;
    }
    forall id | id in MarkedIds(remove, attempts)
      ensures id in Ids(remove) && KeyOf(before[id]) in GoneKeys(remove, attempts)
    {
      var i :| 0 <= i < |attempts| && attempts[i].Marked? && remove[i].id == id;
      assert remove[i] in remove && attempts[i].Gone();
    }
    if AllMarkedPruned(remove, attempts) {
      forall id | id in Ids(remove)
        ensures id in MarkedIds(remove, attempts)
      {
        var a :| a in remove && a.id == id;
        var i :| 0 <= i < |remove| && remove[i] == a;
        assert attempts[i].Marked?;
      }
    }
  }

  /** Deletes one object and, if that worked, marks its row. */
  method PruneOne(b: Backend, a: Artifact) returns (marked: bool, ghost attempt: Attempt)
    requires b.Valid() && a.id in b.artifacts
    modifies b`artifacts, b`objects
    ensures b.Valid() && (marked <==> attempt.Marked?)
    ensures b.artifacts == if marked then old(b.artifacts)[a.id := old(b.artifacts)[a.id].(status := Pruned)] else old(b.artifacts)
    ensures b.objects == if attempt.Gone() then old(b.objects) - {KeyOf(a)} else old(b.objects)
  {
    var deleted;
    ghost var tookEffect;
    deleted, tookEffect := b.Delete(a.destinationId, a.path);
    if !deleted {
      return false, DeleteFailed(tookEffect);
    }
    marked := b.SetStatus(a.id, Pruned);
    attempt := if marked then Marked else MarkFailed;
  }

  method PruneArtifacts(b: Backend, remove: seq<Artifact>)
    returns (removed: nat, ok: bool, ghost attempts: seq<Attempt>)
    requires b.Valid() && InTable(b.artifacts, remove)
    modifies b`artifacts, b`objects
    ensures b.Valid()
    ensures Attempted(old(b.artifacts), old(b.objects), b.artifacts, b.objects, remove, attempts)
    ensures removed == |MarkedIds(remove, attempts)|
    ensures ok ==> AllMarkedPruned(remove, attempts)
    ensures remove != [] && AllMarkedPruned(remove, attempts) ==> ok
  {
    removed, attempts := 0, [];
    ok := *;
    NothingAttempted(b.artifacts, b.objects, remove);
    if !ok {
      return; // the destination could not be opened
    }
    hide Attempted, MarkedIds, GoneKeys, AllMarked, InTable;
    for i := 0 to |remove|
      invariant b.Valid() && |attempts| == i && b.artifacts.Keys == old(b.artifacts).Keys
      invariant Attempted(old(b.artifacts), old(b.objects), b.artifacts, b.objects, remove, attempts)
      invariant removed == |MarkedIds(remove, attempts)|
      invariant ok <==> AllMarked(attempts)
    {
      var canceled: bool := *;
      if canceled {
        ok := false;
        return;
      }
      ghost var artifacts, objects, tried := b.artifacts, b.objects, attempts;
      OnlyListed(old(b.artifacts), remove, i);
      var marked;
      ghost var last;
      marked, last := PruneOne(b, remove[i]);
      attempts := tried + [last];
      OneMarkedMore(old(b.artifacts), remove, tried, last);
      StillAttempted(old(b.artifacts), old(b.objects), artifacts, objects, b.artifacts, b.objects, remove, tried, last);
      if !marked {
        ok := false;
        continue;
      }
      removed := removed + 1;
    }
  }

  lemma NothingAttempted(artifacts: map<nat, Artifact>, objects: map<Key, int>, remove: seq<Artifact>)
    ensures Attempted(artifacts, objects, artifacts, objects, remove, []) && MarkedIds(remove, []) == {}
  {
    assert GoneKeys(remove, []) == {};
  }

  lemma StillAttempted(
    before: map<nat, Artifact>, objects: map<Key, int>, mid: map<nat, Artifact>, objects': map<Key, int>,
    after: map<nat, Artifact>, objects'': map<Key, int>, remove: seq<Artifact>, attempts: seq<Attempt>, last: Attempt)
    requires Attempted(before, objects, mid, objects', remove, attempts) && |attempts| < |remove|
    requires var id := remove[|attempts|].id;
      id in mid && after == if last.Marked? then mid[id := mid[id].(status := Pruned)] else mid
    requires objects'' == if last.Gone() then objects' - {KeyOf(remove[|attempts|])} else objects'
    ensures Attempted(before, objects, after, objects'', remove, attempts + [last])
  {
    OneAttemptMore(remove, attempts, last);
    hide MarkedIds, GoneKeys;
  }

  lemma OnlyListed(artifacts: map<nat, Artifact>, remove: seq<Artifact>, i: nat)
    requires InTable(artifacts, remove) && i < |remove|
    ensures remove[i].id in artifacts.Keys
  {
    assert remove[i] in remove;
  }

  lemma OneMarkedMore(artifacts: map<nat, Artifact>, remove: seq<Artifact>, attempts: seq<Attempt>, last: Attempt)
    requires InTable(artifacts, remove) && |attempts| < |remove|
    ensures |MarkedIds(remove, attempts + [last])| == |MarkedIds(remove, attempts)| + (if last.Marked? then 1 else 0)
    ensures AllMarked(attempts + [last]) <==> AllMarked(attempts) && last.Marked?
  {
    OneAttemptMore(remove, attempts, last);
    assert remove[|attempts|].id !in MarkedIds(remove, attempts);
  }

  // ---------------------------------------------------------------------------
  // Rows whose object is gone
  // ---------------------------------------------------------------------------

  /** A row still marked present whose object was there before and is not any more. */
  predicate Stranded(after: map<nat, Artifact>, objects: map<Key, int>, objects': map<Key, int>, id: nat)
    requires id in after
  {
    after[id].status.Present? && KeyOf(after[id]) in objects && KeyOf(after[id]) !in objects'
  }

  /** Some delete of this path took effect. */
  ghost predicate PathDeleted(remove: seq<Artifact>, attempts: seq<Attempt>, key: Key) {
    exists j :: 0 <= j < |attempts| && j < |remove| && KeyOf(remove[j]) == key && attempts[j].Gone()
  }

  ghost predicate RowMarked(remove: seq<Artifact>, attempts: seq<Attempt>, id: nat) {
    exists i :: 0 <= i < |attempts| && i < |remove| && remove[i].id == id && attempts[i].Marked?
  }

  /** A row is left present without its object exactly when a delete of its path took effect and the row was not marked. */
  lemma StrandedExactlyWhenDeletedUnmarked(
    before: map<nat, Artifact>, objects: map<Key, int>,
    after: map<nat, Artifact>, objects': map<Key, int>,
    remove: seq<Artifact>, attempts: seq<Attempt>, id: nat)
    requires Attempted(before, objects, after, objects', remove, attempts)
    requires id in before && before[id].status.Present? && KeyOf(before[id]) in objects
    ensures Stranded(after, objects, objects', id) <==>
            PathDeleted(remove, attempts, KeyOf(before[id])) && !RowMarked(remove, attempts, id)
  {
    assert id in MarkedIds(remove, attempts) <==> RowMarked(remove, attempts, id);
    assert KeyOf(before[id]) in GoneKeys(remove, attempts) <==> PathDeleted(remove, attempts, KeyOf(before[id]));
  }

  /** No present row shares the path of `id`. */
  ghost predicate OwnPath(artifacts: map<nat, Artifact>, id: nat)
    requires id in artifacts
  {
    forall k :: k in artifacts && k != id && artifacts[k].status.Present? ==> KeyOf(artifacts[k]) != KeyOf(artifacts[id])
  }

  /** No present row with a path of its own lost its object. */
  ghost predicate NoneStranded(
    before: map<nat, Artifact>, objects: map<Key, int>, after: map<nat, Artifact>, objects': map<Key, int>)
  {
    forall id :: id in before && id in after && OwnPath(before, id) ==> !Stranded(after, objects, objects', id)
  }

  /** A pass that marked every listed row strands none, unless rows share a path. */
  lemma CleanPassStrandsNone(
    before: map<nat, Artifact>, objects: map<Key, int>,
    after: map<nat, Artifact>, objects': map<Key, int>,
    remove: seq<Artifact>, attempts: seq<Attempt>)
    requires InTable(before, remove) && forall a :: a in remove ==> a.status.Present?
    requires Attempted(before, objects, after, objects', remove, attempts) && AllMarkedPruned(remove, attempts)
    ensures NoneStranded(before, objects, after, objects')
  {
    forall id | id in before && id in after && OwnPath(before, id)
      ensures !Stranded(after, objects, objects', id)
    {
      if before[id].status.Present? && KeyOf(before[id]) in objects {
        StrandedExactlyWhenDeletedUnmarked(before, objects, after, objects', remove, attempts, id);
        OwnDeleteIsMarked(before, remove, attempts, id);
      }
    }
  }

  lemma OwnDeleteIsMarked(before: map<nat, Artifact>, remove: seq<Artifact>, attempts: seq<Attempt>, id: nat)
    requires InTable(before, remove) && forall a :: a in remove ==> a.status.Present?
    requires AllMarkedPruned(remove, attempts) && id in before && OwnPath(before, id)
    ensures PathDeleted(remove, attempts, KeyOf(before[id])) ==> RowMarked(remove, attempts, id)
  {
    if PathDeleted(remove, attempts, KeyOf(before[id])) {
      var j :| 0 <= j < |attempts| && KeyOf(remove[j]) == KeyOf(before[id]) && attempts[j].Gone();
      assert remove[j] in remove && attempts[j].Marked?;
      assert remove[j].id == id;
    }
  }

  lemma NoneStrandedComposes(
    before: map<nat, Artifact>, objects: map<Key, int>,
    mid: map<nat, Artifact>, objects': map<Key, int>,
    after: map<nat, Artifact>, objects'': map<Key, int>, first: set<nat>, second: set<nat>)
    requires StatusPruned(before, mid, first) && StatusPruned(mid, after, second)
    requires NoneStranded(before, objects, mid, objects') && NoneStranded(mid, objects', after, objects'')
    ensures NoneStranded(before, objects, after, objects'')
  {
    forall id | id in before && id in after && OwnPath(before, id)
      ensures !Stranded(after, objects, objects'', id)
    {
      assert OwnPath(mid, id);
    }
  }

  // ---------------------------------------------------------------------------
  // What one retention stage guarantees
  // ---------------------------------------------------------------------------

  /** A newest present artifact of the pair (there may be ties). */
  ghost predicate Newest(artifacts: map<nat, Artifact>, id: nat, jobId: string, dest: string) {
    && PresentFor(artifacts, id, jobId, dest)
    && forall j :: PresentFor(artifacts, j, jobId, dest) ==> artifacts[j].createdAt <= artifacts[id].createdAt
  }

  /** The single newest present artifact of the pair, with a path of its own. */
  ghost predicate Protected(artifacts: map<nat, Artifact>, id: nat, jobId: string, dest: string) {
    && PresentFor(artifacts, id, jobId, dest)
    && (forall k :: k != id && PresentFor(artifacts, k, jobId, dest) ==>
          artifacts[k].createdAt < artifacts[id].createdAt)
    && (forall k :: k in artifacts && k != id && artifacts[k].status.Present? ==>
          KeyOf(artifacts[k]) != KeyOf(artifacts[id]))
  }

  /** The keys of the present artifacts of a job on some destinations. */
  ghost function PresentKeys(artifacts: map<nat, Artifact>, jobId: string, dests: set<string>): set<Key> {
    set id | id in artifacts && artifacts[id].destinationId in dests
             && PresentFor(artifacts, id, jobId, artifacts[id].destinationId) :: KeyOf(artifacts[id])
  }

  ghost predicate PairKept(before: map<nat, Artifact>, after: map<nat, Artifact>, jobId: string, dest: string) {
    (exists id :: PresentFor(before, id, jobId, dest)) ==>
      exists id :: Newest(before, id, jobId, dest) && id in after && after[id] == before[id]
  }

  ghost predicate ProtectedKept(
    before: map<nat, Artifact>, objects: map<Key, int>, after: map<nat, Artifact>, objects': map<Key, int>, id: nat)
    requires id in before
  {
    && id in after && after[id] == before[id]
    && (KeyOf(before[id]) in objects <==> KeyOf(before[id]) in objects')
    && (KeyOf(before[id]) in objects ==> objects[KeyOf(before[id])] == objects'[KeyOf(before[id])])
  }

  /** Everything a retention stage may do to the world, whatever failed on the way. */
  ghost predicate RetentionEffect(
    before: map<nat, Artifact>, objects: map<Key, int>,
    after: map<nat, Artifact>, objects': map<Key, int>,
    jobId: string, dests: set<string>, pruned: set<nat>)
  {
    && StatusPruned(before, after, pruned)
    && (forall id :: id in pruned ==>
          && before[id].destinationId in dests
          && PresentFor(before, id, jobId, before[id].destinationId)
          && KeyOf(before[id]) !in objects')
    && OnlyTouches(objects, objects', PresentKeys(before, jobId, dests))
    && objects'.Keys <= objects.Keys
    && (forall j, d :: PairKept(before, after, j, d))
    && (forall id, j, d :: Protected(before, id, j, d) ==> ProtectedKept(before, objects, after, objects', id))
  }

  lemma ApartWithoutRepeats(items: seq<Artifact>, keep: seq<Artifact>, remove: seq<Artifact>)
    requires multiset(keep) + multiset(remove) == multiset(items) && forall a :: multiset(items)[a] <= 1
    requires forall a, b :: a in items && b in items && a.id == b.id ==> a == b
    ensures forall a :: a in remove ==> a in items && a !in keep
    ensures forall i, j :: 0 <= i < j < |remove| ==> remove[i].id != remove[j].id
  {
    forall a ensures multiset(keep)[a] + multiset(remove)[a] <= 1 && (a in remove ==> a in items && a !in keep) {
      assert (multiset(keep) + multiset(remove))[a] == multiset(items)[a];
      assert a in remove <==> multiset(remove)[a] > 0;
      assert a in keep <==> multiset(keep)[a] > 0;
      assert a in items <==> multiset(items)[a] > 0;
    }
    forall i, j | 0 <= i < j < |remove| ensures remove[i].id != remove[j].id {
      TwiceCounted(remove, i, j);
      assert remove[i] in items && remove[j] in items;
    }
  }

  lemma TwiceCounted(s: seq<Artifact>, i: nat, j: nat)
    requires i < j < |s|
    ensures s[i] == s[j] ==> multiset(s)[s[j]] >= 2
  {
    assert s == s[..j] + s[j..];
    assert s[i] in s[..j] && s[j] in s[j..];
    assert multiset(s)[s[j]] == multiset(s[..j])[s[j]] + multiset(s[j..])[s[j]];
  }

  lemma PlannedIds(items: seq<Artifact>, r: Retention, cal: Calendar, now: Time)
    requires forall a :: multiset(items)[a] <= 1
    requires forall a, b :: a in items && b in items && a.id == b.id ==> a == b
    ensures var remove := Planned(items, false, r, cal, now);
            && (forall a :: a in remove ==> a in items && a !in Planned(items, true, r, cal, now))
            && (forall i, j :: 0 <= i < j < |remove| ==> remove[i].id != remove[j].id)
  {
    PlanPartitions(items, r, cal, now);
    hide *;
    ApartWithoutRepeats(items, Planned(items, true, r, cal, now), Planned(items, false, r, cal, now));
  }

  /** Of the artifacts of a pair each is planned to be kept or to be removed, and not both. */
  lemma PlannedApart(
    artifacts: map<nat, Artifact>, jobId: string, dest: string, items: seq<Artifact>, r: Retention, cal: Calendar, now: Time)
    requires Lists(artifacts, jobId, dest, items)
    ensures forall a :: a in items <==> a in Planned(items, true, r, cal, now) || a in Planned(items, false, r, cal, now)
    ensures forall a :: a in Planned(items, true, r, cal, now) ==> a.id !in Ids(Planned(items, false, r, cal, now))
  {
    var keep, remove := Planned(items, true, r, cal, now), Planned(items, false, r, cal, now);
    PlanPartitions(items, r, cal, now);
    PlannedIds(items, r, cal, now);
    forall a
      ensures a in items <==> a in keep || a in remove
    {
      assert a in multiset(items) <==> a in multiset(keep) + multiset(remove);
    }
    forall a | a in keep
      ensures a.id !in Ids(remove)
    {
      forall b | b in remove
        ensures b.id != a.id
      {
        assert a in items && b in items && b !in keep;
      }
    }
  }

  /** A pass over what `Plan` removes for one pair is a legal retention effect. */
  lemma PassIsRetention(
    before: map<nat, Artifact>, objects: map<Key, int>,
    after: map<nat, Artifact>, objects': map<Key, int>,
    jobId: string, dest: string, items: seq<Artifact>, pruned: set<nat>,
    r: Retention, cal: Calendar, now: Time)
    requires WellFormed(before) && Lists(before, jobId, dest, items)
    requires PrunePass(before, objects, after, objects', Planned(items, false, r, cal, now), pruned)
    ensures RetentionEffect(before, objects, after, objects', jobId, {dest}, pruned)
  {
    var keep, remove := Planned(items, true, r, cal, now), Planned(items, false, r, cal, now);
    PlannedIds(items, r, cal, now);
    PlanPartitions(items, r, cal, now);
    forall k | k in Keys(remove) ensures k in PresentKeys(before, jobId, {dest}) {
      var a :| a in remove && KeyOf(a) == k;
      assert before[a.id] == a;
    }
    forall j, d ensures PairKept(before, after, j, d) {
      PassKeepsPair(before, objects, after, objects', jobId, dest, items, pruned, r, cal, now, j, d);
    }
    forall id, j, d | Protected(before, id, j, d) ensures ProtectedKept(before, objects, after, objects', id) {
      PassKeepsProtected(before, objects, after, objects', jobId, dest, items, pruned, r, cal, now, id, j, d);
    }
  }

  lemma {:induction false} SomeNewest(items: seq<Artifact>) returns (m: Artifact)
    requires items != []
    ensures m in items && forall a :: a in items ==> a.createdAt <= m.createdAt
  {
    m := items[0];
    if |items| > 1 {
      m := SomeNewest(items[1..]);
      assert items == [items[0]] + items[1..];
      if items[0].createdAt > m.createdAt {
        m := items[0];
      }
    }
  }

  lemma PassKeepsPair(
    before: map<nat, Artifact>, objects: map<Key, int>,
    after: map<nat, Artifact>, objects': map<Key, int>,
    jobId: string, dest: string, items: seq<Artifact>, pruned: set<nat>,
    r: Retention, cal: Calendar, now: Time, j: string, d: string)
    requires WellFormed(before) && Lists(before, jobId, dest, items)
    requires PrunePass(before, objects, after, objects', Planned(items, false, r, cal, now), pruned)
    ensures PairKept(before, after, j, d)
  {
    var keep, remove := Planned(items, true, r, cal, now), Planned(items, false, r, cal, now);
    PlannedIds(items, r, cal, now);
    if id0 :| PresentFor(before, id0, j, d) {
      if j == jobId && d == dest {
        assert before[id0] in items;
        PlanPartitions(items, r, cal, now);
        var a := keep[0];
        assert a in multiset(keep);
        assert a in multiset(items);
        assert Newest(before, a.id, j, d);
        assert forall c :: c in remove ==> before[c.id] == c;
        assert a.id !in Ids(remove);
        assert after[a.id] == before[a.id];
      } else {
        NewestOfPair(before, j, d, id0);
        var id :| Newest(before, id, j, d);
        assert id !in pruned;
        assert after[id] == before[id];
      }
    }
  }

  lemma NewestOfPair(artifacts: map<nat, Artifact>, jobId: string, dest: string, id0: nat)
    requires PresentFor(artifacts, id0, jobId, dest)
    ensures exists id :: Newest(artifacts, id, jobId, dest)
  {
    var ids := set id | id in artifacts && PresentFor(artifacts, id, jobId, dest);
    assert id0 in ids;
    NewestAmong(artifacts, ids, jobId, dest);
    var m :| m in ids && forall j :: j in ids ==> artifacts[j].createdAt <= artifacts[m].createdAt;
    assert Newest(artifacts, m, jobId, dest);
  }

  lemma {:induction false} NewestAmong(artifacts: map<nat, Artifact>, ids: set<nat>, jobId: string, dest: string)
    requires ids != {} && forall id :: id in ids ==> PresentFor(artifacts, id, jobId, dest)
    ensures exists id :: id in ids && (forall j :: j in ids ==>
              (id in artifacts && j in artifacts && artifacts[j].createdAt <= artifacts[id].createdAt))
  {
    var x :| x in ids;
    if ids != {x} {
      NewestAmong(artifacts, ids - {x}, jobId, dest);
      var y :| y in ids - {x} && forall j :: j in ids - {x} ==> artifacts[j].createdAt <= artifacts[y].createdAt;
      var m := if artifacts[x].createdAt > artifacts[y].createdAt then x else y;
      assert forall j :: j in ids ==> j == x || j in ids - {x};
      assert m in ids && forall j :: j in ids ==> artifacts[j].createdAt <= artifacts[m].createdAt;
    }
  }

  lemma PassKeepsProtected(
    before: map<nat, Artifact>, objects: map<Key, int>,
    after: map<nat, Artifact>, objects': map<Key, int>,
    jobId: string, dest: string, items: seq<Artifact>, pruned: set<nat>,
    r: Retention, cal: Calendar, now: Time, id: nat, j: string, d: string)
    requires WellFormed(before) && Lists(before, jobId, dest, items)
    requires PrunePass(before, objects, after, objects', Planned(items, false, r, cal, now), pruned)
    requires Protected(before, id, j, d)
    ensures ProtectedKept(before, objects, after, objects', id)
  {
    var remove := Planned(items, false, r, cal, now);
    var a := before[id];
    PlannedIds(items, r, cal, now);
    if j == jobId && d == dest {
      assert a in multiset(items);
      StrictlyNewestIsKept(items, a, r, cal, now);
    }
    assert a !in remove;
    forall c | c in remove ensures c.id != id && KeyOf(c) != KeyOf(a) {
      assert before[c.id] == c;
    }
    assert id !in pruned;
    assert KeyOf(a) !in Keys(remove);
  }

  lemma PairKeptComposes(
    before: map<nat, Artifact>, mid: map<nat, Artifact>, after: map<nat, Artifact>,
    first: set<nat>, jobId: string, dest: string)
    requires StatusPruned(before, mid, first)
    requires PairKept(before, mid, jobId, dest) && PairKept(mid, after, jobId, dest)
    ensures PairKept(before, after, jobId, dest)
  {
    if id0 :| PresentFor(before, id0, jobId, dest) {
      var id :| Newest(before, id, jobId, dest) && id in mid && mid[id] == before[id];
      assert PresentFor(mid, id, jobId, dest);
      var id2 :| Newest(mid, id2, jobId, dest) && id2 in after && after[id2] == mid[id2];
      assert id2 !in first;
      assert Newest(before, id2, jobId, dest);
    }
  }

  lemma EffectsCompose(
    before: map<nat, Artifact>, objects: map<Key, int>,
    mid: map<nat, Artifact>, objects': map<Key, int>,
    after: map<nat, Artifact>, objects'': map<Key, int>,
    jobId: string, dests: set<string>, first: set<nat>, dest: string, second: set<nat>)
    requires RetentionEffect(before, objects, mid, objects', jobId, dests, first)
    requires RetentionEffect(mid, objects', after, objects'', jobId, {dest}, second)
    ensures RetentionEffect(before, objects, after, objects'', jobId, dests + {dest}, first + second)
    ensures |first + second| == |first| + |second|
  {
    assert first !! second;
    assert forall id :: id in mid && mid[id].status.Present? ==> mid[id] == before[id];
    assert PresentKeys(mid, jobId, {dest}) <= PresentKeys(before, jobId, dests + {dest});
    assert PresentKeys(before, jobId, dests) <= PresentKeys(before, jobId, dests + {dest});
    forall j, d ensures PairKept(before, after, j, d) {
      PairKeptComposes(before, mid, after, first, j, d);
    }
    forall id, j, d | Protected(before, id, j, d) ensures ProtectedKept(before, objects, after, objects'', id) {
      assert ProtectedKept(before, objects, mid, objects', id);
      assert Protected(mid, id, j, d);
    }
  }

  /** For some clock reading each present artifact of the pair was pruned or left present as the plan of them all says. */
  ghost predicate Carried(
    before: map<nat, Artifact>, after: map<nat, Artifact>, jobId: string, dest: string, r: Retention, cal: Calendar)
  {
    exists items, now :: PlanCarried(before, after, jobId, dest, items, r, cal, now)
  }

  ghost predicate PlanCarried(
    before: map<nat, Artifact>, after: map<nat, Artifact>, jobId: string, dest: string, items: seq<Artifact>,
    r: Retention, cal: Calendar, now: Time)
  {
    && Lists(before, jobId, dest, items)
    && forall a :: a in items ==>
         a.id in after && after[a.id].status == if a in Planned(items, false, r, cal, now) then Pruned else Present
  }

  lemma PassCarries(
    before: map<nat, Artifact>, after: map<nat, Artifact>, jobId: string, dest: string, items: seq<Artifact>,
    pruned: set<nat>, r: Retention, cal: Calendar, now: Time)
    requires Lists(before, jobId, dest, items) && StatusPruned(before, after, pruned)
    requires pruned == Ids(Planned(items, false, r, cal, now))
    requires forall a :: a in Planned(items, false, r, cal, now) ==> a in items
    ensures Carried(before, after, jobId, dest, r, cal)
  {
    hide Planned;
    assert PlanCarried(before, after, jobId, dest, items, r, cal, now);
  }

  /** A pass over other destinations changes nothing that was carried out. */
  lemma CarriedStays(
    before: map<nat, Artifact>, mid: map<nat, Artifact>, after: map<nat, Artifact>,
    jobId: string, dest: string, r: Retention, cal: Calendar, first: set<nat>, second: set<nat>)
    requires StatusPruned(before, mid, first) && StatusPruned(mid, after, second) && Carried(before, mid, jobId, dest, r, cal)
    requires forall id :: id in second ==> mid[id].destinationId != dest
    ensures Carried(before, after, jobId, dest, r, cal)
  {
    hide Planned;
    var items, now :| PlanCarried(before, mid, jobId, dest, items, r, cal, now);
    assert PlanCarried(before, after, jobId, dest, items, r, cal, now);
  }

  /** Passes over other destinations left the pair as it was. */
  lemma CarriedFromEarlier(
    before: map<nat, Artifact>, mid: map<nat, Artifact>, after: map<nat, Artifact>,
    jobId: string, dest: string, r: Retention, cal: Calendar, first: set<nat>)
    requires StatusPruned(before, mid, first) && Carried(mid, after, jobId, dest, r, cal)
    requires forall id :: id in first ==> before[id].destinationId != dest
    ensures Carried(before, after, jobId, dest, r, cal)
  {
    hide Planned;
    var items, now :| PlanCarried(mid, after, jobId, dest, items, r, cal, now);
    assert forall id :: id in before && before[id].destinationId == dest ==> mid[id] == before[id];
    assert PlanCarried(before, after, jobId, dest, items, r, cal, now);
  }

  predicate Distinct(dests: seq<string>) {
    forall i, j :: 0 <= i < j < |dests| ==> dests[i] != dests[j]
  }

  lemma {:induction false} DestsAreListed(dests: seq<string>, n: nat, d: string)
    requires n <= |dests|
    ensures d in Dests(dests, n) <==> exists k :: 0 <= k < n && dests[k] == d
  {
    if n > 0 {
      DestsAreListed(dests, n - 1, d);
    }
  }

  lemma OneMoreCarried(
    before: map<nat, Artifact>, objects: map<Key, int>, mid: map<nat, Artifact>, objects': map<Key, int>,
    after: map<nat, Artifact>, objects'': map<Key, int>, jobId: string, dests: seq<string>, i: nat,
    first: set<nat>, second: set<nat>, r: Retention, cal: Calendar)
    requires i < |dests| && Distinct(dests)
    requires RetentionEffect(before, objects, mid, objects', jobId, Dests(dests, i), first)
    requires RetentionEffect(mid, objects', after, objects'', jobId, {dests[i]}, second)
    requires forall k :: 0 <= k < i ==> Carried(before, mid, jobId, dests[k], r, cal)
    requires Carried(mid, after, jobId, dests[i], r, cal)
    ensures forall k :: 0 <= k <= i ==> Carried(before, after, jobId, dests[k], r, cal)
  {
    hide Carried, Dests;
    DestsAreListed(dests, i, dests[i]);
    CarriedFromEarlier(before, mid, after, jobId, dests[i], r, cal, first);
    forall k | 0 <= k < i
      ensures Carried(before, after, jobId, dests[k], r, cal)
    {
      CarriedStays(before, mid, after, jobId, dests[k], r, cal, first, second);
    }
  }

  /** One destination of the retention stage: list, plan, prune. */
  method RetainDestination(b: Backend, jobId: string, d: string, r: Retention, cal: Calendar)
    returns (ok: bool, removed: nat, ghost pruned: set<nat>)
    requires b.Valid()
    modifies b`artifacts, b`objects
    ensures b.Valid()
    ensures RetentionEffect(old(b.artifacts), old(b.objects), b.artifacts, b.objects, jobId, {d}, pruned)
    ensures removed == |pruned|
    ensures ok ==> Carried(old(b.artifacts), b.artifacts, jobId, d, r, cal)
    ensures ok ==> NoneStranded(old(b.artifacts), old(b.objects), b.artifacts, b.objects)
  {
    ok, removed, pruned := true, 0, {};
    var listed, items := b.ListPresent(jobId, d);
    if !listed {
      NothingIsRetention(b.artifacts, b.objects, jobId, {d});
      ok := false;
      return;
    }
    var now: Time := *;
    var keep, remove := Plan(items, r, cal, now);
    if |remove| == 0 {
      NothingIsRetention(b.artifacts, b.objects, jobId, {d});
      PassCarries(b.artifacts, b.artifacts, jobId, d, items, {}, r, cal, now);
      return;
    }
    PlannedIds(items, r, cal, now);
    ghost var attempts;
    removed, ok, attempts := PruneArtifacts(b, remove);
    AttemptedIsPass(old(b.artifacts), old(b.objects), b.artifacts, b.objects, remove, attempts);
    pruned := MarkedIds(remove, attempts);
    PassIsRetention(old(b.artifacts), old(b.objects), b.artifacts, b.objects, jobId, d, items, pruned, r, cal, now);
    if ok {
      PassCarries(old(b.artifacts), b.artifacts, jobId, d, items, pruned, r, cal, now);
      CleanPassStrandsNone(old(b.artifacts), old(b.objects), b.artifacts, b.objects, remove, attempts);
    }
  }

  lemma NothingStranded(artifacts: map<nat, Artifact>, objects: map<Key, int>)
    ensures NoneStranded(artifacts, objects, artifacts, objects)
  {
  }

  lemma NoStrandedYet(
    before: map<nat, Artifact>, objects: map<Key, int>, mid: map<nat, Artifact>, objects': map<Key, int>,
    after: map<nat, Artifact>, objects'': map<Key, int>, jobId: string, dests: set<string>, dest: string,
    first: set<nat>, second: set<nat>)
    requires RetentionEffect(before, objects, mid, objects', jobId, dests, first)
    requires RetentionEffect(mid, objects', after, objects'', jobId, {dest}, second)
    requires NoneStranded(before, objects, mid, objects') && NoneStranded(mid, objects', after, objects'')
    ensures NoneStranded(before, objects, after, objects'')
  {
    hide NoneStranded, PairKept, ProtectedKept, OnlyTouches;
    NoneStrandedComposes(before, objects, mid, objects', after, objects'', first, second);
  }

  /** The retention stage of a run, over every destination of the job. */
  method ApplyRetention(b: Backend, jobId: string, dests: seq<string>, r: Retention, cal: Calendar)
    returns (problems: nat, removed: nat, ghost pruned: set<nat>)
    requires b.Valid()
    modifies b`artifacts, b`objects
    ensures b.Valid()
    ensures RetentionEffect(old(b.artifacts), old(b.objects), b.artifacts, b.objects, jobId, Dests(dests, |dests|), pruned)
    ensures removed == |pruned|
    ensures r.IsZero() ==> problems == 0 && b.artifacts == old(b.artifacts) && b.objects == old(b.objects)
    ensures AllCarried(old(b.artifacts), b.artifacts, jobId, dests, r, cal, problems)
    ensures problems == 0 ==> NoneStranded(old(b.artifacts), old(b.objects), b.artifacts, b.objects)
  {
    hide RetentionEffect, Carried, NoneStranded;
    NothingStranded(b.artifacts, b.objects);
    problems, removed, pruned := 0, 0, {};
    if r.IsZero() {
      NothingIsRetention(b.artifacts, b.objects, jobId, Dests(dests, |dests|));
      return;
    }
    NothingIsRetention(b.artifacts, b.objects, jobId, {});
    ghost var passes := [b.artifacts];
    for i := 0 to |dests|
      invariant b.Valid()
      invariant RetentionEffect(old(b.artifacts), old(b.objects), b.artifacts, b.objects, jobId, Dests(dests, i), pruned)
      invariant removed == |pruned|
      invariant |passes| == i + 1 && passes[0] == old(b.artifacts) && passes[i] == b.artifacts
      invariant problems == 0 ==> forall k :: 0 <= k < i ==> Carried(passes[k], passes[k + 1], jobId, dests[k], r, cal)
      invariant problems == 0 ==> NoneStranded(old(b.artifacts), old(b.objects), b.artifacts, b.objects)
      invariant problems == 0 && Distinct(dests) ==>
        forall k :: 0 <= k < i ==> Carried(old(b.artifacts), b.artifacts, jobId, dests[k], r, cal)
    {
      ghost var artifacts, objects, first := b.artifacts, b.objects, pruned;
      var ok, n;
      ghost var second;
      ok, n, second := RetainDestination(b, jobId, dests[i], r, cal);
      EffectsCompose(old(b.artifacts), old(b.objects), artifacts, objects, b.artifacts, b.objects,
                     jobId, Dests(dests, i), first, dests[i], second);
      pruned := first + second;
      removed := removed + n;
      passes := passes + [b.artifacts];
      if !ok {
        problems := problems + 1;
      } else if problems == 0 {
        NoStrandedYet(old(b.artifacts), old(b.objects), artifacts, objects, b.artifacts, b.objects,
                      jobId, Dests(dests, i), dests[i], first, second);
        if Distinct(dests) {
          OneMoreCarried(old(b.artifacts), old(b.objects), artifacts, objects, b.artifacts, b.objects,
                         jobId, dests, i, first, second, r, cal);
        }
      }
    }
  }

  /** Each pass, in the order of the destinations, carried the policy out on what it found. */
  ghost predicate CarriedInTurn(
    passes: seq<map<nat, Artifact>>, jobId: string, dests: seq<string>, r: Retention, cal: Calendar)
  {
    |passes| == |dests| + 1 && forall k :: 0 <= k < |dests| ==> Carried(passes[k], passes[k + 1], jobId, dests[k], r, cal)
  }

  /** A retention stage without problems carried the policy out, one destination after the other; on different ones, on all at once. */
  ghost predicate AllCarried(
    before: map<nat, Artifact>, after: map<nat, Artifact>, jobId: string, dests: seq<string>,
    r: Retention, cal: Calendar, problems: nat)
  {
    problems == 0 && !r.IsZero() ==>
      && (exists passes :: CarriedInTurn(passes, jobId, dests, r, cal) && passes[0] == before && passes[|dests|] == after)
      && (Distinct(dests) ==> forall k :: 0 <= k < |dests| ==> Carried(before, after, jobId, dests[k], r, cal))
  }

  ghost function Dests(dests: seq<string>, n: nat): set<string>
    requires n <= |dests|
  {
    if n == 0 then {} else Dests(dests, n - 1) + {dests[n - 1]}
  }

  lemma NothingIsRetention(artifacts: map<nat, Artifact>, objects: map<Key, int>, jobId: string, dests: set<string>)
    ensures RetentionEffect(artifacts, objects, artifacts, objects, jobId, dests, {})
  {
    forall j, d ensures PairKept(artifacts, artifacts, j, d) {
      if id0 :| PresentFor(artifacts, id0, j, d) {
        NewestOfPair(artifacts, j, d, id0);
      }
    }
  }
}
