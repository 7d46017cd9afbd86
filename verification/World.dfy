/** The artifact table and the objects on the destinations, with every call allowed to fail. */
module World {
  import opened Core
  import opened RetentionPlan

  /** An object is named by its destination and its path there; its value is its size. */
  type Key = (string, string)

  datatype Snapshot = Snapshot(artifacts: map<nat, Artifact>, objects: map<Key, int>)

  function KeyOf(a: Artifact): Key {
    (a.destinationId, a.path)
  }

  /** `after` differs from `before` at most in what lies under the keys `touched`. */
  ghost predicate OnlyTouches(before: map<Key, int>, after: map<Key, int>, touched: set<Key>) {
    forall k :: k !in touched ==> (k in before <==> k in after) && (k in before ==> before[k] == after[k])
  }

  /** Artifact `id` is present in the table for this job on this destination. */
  predicate PresentFor(artifacts: map<nat, Artifact>, id: nat, jobId: string, dest: string) {
    id in artifacts && artifacts[id].status.Present? && artifacts[id].jobId == jobId && artifacts[id].destinationId == dest
  }

  ghost predicate WellFormed(artifacts: map<nat, Artifact>) {
    forall id :: id in artifacts ==> artifacts[id].id == id
  }

  class Backend {
    var artifacts: map<nat, Artifact>
    var objects: map<Key, int>
    var nextId: nat

    constructor ()
      ensures Valid() && artifacts == map[] && objects == map[]
    {
      artifacts, objects, nextId := map[], map[], 0;
    }

    ghost predicate Valid()
      reads this
    {
      WellFormed(artifacts) && forall id :: id in artifacts ==> id < nextId
    }

    /** Uploads an object. A failed upload may leave anything under its key; a successful one leaves something. */
    method Put(dest: string, path: string, size: int) returns (ok: bool)
      modifies this`objects
      ensures OnlyTouches(old(objects), objects, {(dest, path)})
      ensures ok ==> (dest, path) in objects
    {
      ok := *;
      var outcome: Option<int> := *;
      match outcome {
        case Some(stored) => objects := objects[(dest, path) := stored];
        case None => objects := if ok then objects[(dest, path) := size] else objects - {(dest, path)};
      }
    }

    /** Reads the size of an object: an error, no object, or the size. */
    method Stat(dest: string, path: string) returns (ok: bool, size: Option<int>)
      ensures ok ==> size == if (dest, path) in objects then Some(objects[(dest, path)]) else None
    {
      ok := *;
      size := if (dest, path) in objects then Some(objects[(dest, path)]) else None;
    }

    /** Deletes an object; deleting an absent one succeeds. A failed delete may still have taken effect. */
    method Delete(dest: string, path: string) returns (ok: bool, ghost tookEffect: bool)
      modifies this`objects
      ensures objects == if tookEffect then old(objects) - {(dest, path)} else old(objects)
      ensures ok ==> tookEffect
    {
      ok := *;
      var gone: bool := *;
      tookEffect := ok || gone;
      if ok || gone {
        objects := objects - {(dest, path)};
      }
    }

    method CreateArtifact(a: Artifact) returns (saved: Option<nat>)
      requires Valid()
      modifies this`artifacts, this`nextId
      ensures Valid() && nextId >= old(nextId)
      ensures saved.None? ==> artifacts == old(artifacts)
      ensures saved.Some? ==> saved.value == old(nextId) && saved.value !in old(artifacts)
                              && artifacts == old(artifacts)[saved.value := a.(id := saved.value)]
    {
      var ok: bool := *;
      if !ok {
        return None;
      }
      artifacts := artifacts[nextId := a.(id := nextId)];
      saved := Some(nextId);
      nextId := nextId + 1;
    }

    method SetStatus(id: nat, status: ArtifactStatus) returns (ok: bool)
      requires Valid()
      modifies this`artifacts
      ensures Valid()
      ensures ok ==> id in artifacts
      ensures artifacts == if ok && id in old(artifacts)
                           then old(artifacts)[id := old(artifacts)[id].(status := status)]
                           else old(artifacts)
    {
      ok := *;
      if id !in artifacts {
        ok := false;
      }
      if ok {
        artifacts := artifacts[id := artifacts[id].(status := status)];
      }
    }

    /** Unlike `SetStatus`, a missing row is not an error here. */
    method SetVerified(id: nat, at: Time) returns (ok: bool)
      requires Valid()
      modifies this`artifacts
      ensures Valid()
      ensures artifacts == if ok && id in old(artifacts)
                           then old(artifacts)[id := old(artifacts)[id].(verifiedAt := Some(at))]
                           else old(artifacts)
    {
      ok := *;
      if ok && id in artifacts {
        artifacts := artifacts[id := artifacts[id].(verifiedAt := Some(at))];
      }
    }

    /** The present artifacts of a job on a destination, each once, newest first. */
    method ListPresent(jobId: string, dest: string) returns (ok: bool, items: seq<Artifact>)
      requires Valid()
      ensures Lists(artifacts, jobId, dest, items) && NewestFirst(items)
    {
      ok := *;
      items := [];
      for id := 0 to nextId
        invariant ListsBelow(artifacts, jobId, dest, items, id)
      {
        if PresentFor(artifacts, id, jobId, dest) {
          items := items + [artifacts[id]];
        }
      }
      SortedLists(artifacts, jobId, dest, items, nextId);
      items := SortNewestFirst(items);
    }
  }

  /** `items` holds exactly the present artifacts of the pair with an id below `n`, by id. */
  ghost predicate ListsBelow(artifacts: map<nat, Artifact>, jobId: string, dest: string, items: seq<Artifact>, n: nat) {
    && (forall a :: a in items ==> a.id < n && PresentFor(artifacts, a.id, jobId, dest) && artifacts[a.id] == a)
    && (forall i :: 0 <= i < n && PresentFor(artifacts, i, jobId, dest) ==> artifacts[i] in items)
    && (forall i, j :: 0 <= i < j < |items| ==> items[i].id < items[j].id)
  }

  lemma SortedLists(artifacts: map<nat, Artifact>, jobId: string, dest: string, items: seq<Artifact>, n: nat)
    requires ListsBelow(artifacts, jobId, dest, items, n) && forall id :: id in artifacts ==> id < n
    ensures Lists(artifacts, jobId, dest, SortNewestFirst(items)) && NewestFirst(SortNewestFirst(items))
  {
    NoRepeats(items);
    SortSorts(items);
    SortedSame(items, SortNewestFirst(items));
  }

  /** `items` holds exactly the present artifacts of the pair, none of them twice. */
  ghost predicate Lists(artifacts: map<nat, Artifact>, jobId: string, dest: string, items: seq<Artifact>) {
    && (forall a :: a in items ==> PresentFor(artifacts, a.id, jobId, dest) && artifacts[a.id] == a)
    && (forall id :: PresentFor(artifacts, id, jobId, dest) ==> artifacts[id] in items)
    && (forall a :: multiset(items)[a] <= 1)
  }

  lemma {:induction false} NoRepeats(items: seq<Artifact>)
    requires forall i, j :: 0 <= i < j < |items| ==> items[i].id < items[j].id
    ensures forall a :: multiset(items)[a] <= 1
  {
    if items != [] {
      var front, last := items[..|items| - 1], items[|items| - 1];
      NoRepeats(front);
      assert items == front + [last];
      assert last !in front;
      assert last !in multiset(front);
    }
  }

  lemma SortedSame(items: seq<Artifact>, sorted: seq<Artifact>)
    requires multiset(items) == multiset(sorted)
    ensures forall a :: a in items <==> a in sorted
  {
    forall a ensures a in items <==> a in sorted {
      assert a in items <==> a in multiset(items);
      assert a in sorted <==> a in multiset(sorted);
    }
  }
}
