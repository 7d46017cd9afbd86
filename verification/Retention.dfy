/** The retention planner: which artifacts survive, computed as the engine does. */
module RetentionPlan {
  import opened Core

  // ---------------------------------------------------------------------------
  // The stable sort, newest first
  // ---------------------------------------------------------------------------

  predicate NewestFirst(items: seq<Artifact>) {
    forall i, j :: 0 <= i < j < |items| ==> items[i].createdAt >= items[j].createdAt
  }

  function Insert(a: Artifact, items: seq<Artifact>): seq<Artifact> {
    if items == [] || a.createdAt >= items[0].createdAt then [a] + items
    else [items[0]] + Insert(a, items[1..])
  }

  function SortNewestFirst(items: seq<Artifact>): seq<Artifact> {
    if items == [] then [] else Insert(items[0], SortNewestFirst(items[1..]))
  }

  /** The artifacts created at `t`, in the order listed. */
  function CreatedAt(items: seq<Artifact>, t: Time): seq<Artifact> {
    if items == [] then []
    else (if items[0].createdAt == t then [items[0]] else []) + CreatedAt(items[1..], t)
  }

  lemma {:induction false} InsertAdds(a: Artifact, items: seq<Artifact>)
    ensures multiset(Insert(a, items)) == multiset{a} + multiset(items)
  {
    if items == [] || a.createdAt >= items[0].createdAt {
    } else {
      InsertAdds(a, items[1..]);
      assert items == [items[0]] + items[1..];
    }
  }

  lemma {:induction false} InsertSorts(a: Artifact, items: seq<Artifact>)
    requires NewestFirst(items)
    ensures NewestFirst(Insert(a, items))
  {
    if items == [] || a.createdAt >= items[0].createdAt {
    } else {
      InsertSorts(a, items[1..]);
      InsertAdds(a, items[1..]);
      var rest := Insert(a, items[1..]);
      forall x | x in rest ensures x.createdAt <= items[0].createdAt {
        assert x in multiset(rest);
      }
    }
  }

  lemma {:induction false} InsertIsStable(a: Artifact, items: seq<Artifact>, t: Time)
    ensures CreatedAt(Insert(a, items), t) == CreatedAt([a], t) + CreatedAt(items, t)
  {
    if items == [] || a.createdAt >= items[0].createdAt {
      assert ([a] + items)[1..] == items;
    } else {
      InsertIsStable(a, items[1..], t);
      assert ([items[0]] + Insert(a, items[1..]))[1..] == Insert(a, items[1..]);
    }
  }

  /** The sort is a permutation, newest first. */
  lemma {:induction false} SortSorts(items: seq<Artifact>)
    ensures NewestFirst(SortNewestFirst(items))
    ensures multiset(SortNewestFirst(items)) == multiset(items)
  {
    if items != [] {
      SortSorts(items[1..]);
      InsertSorts(items[0], SortNewestFirst(items[1..]));
      InsertAdds(items[0], SortNewestFirst(items[1..]));
      assert items == [items[0]] + items[1..];
    }
  }

  /** Equal times keep the order they were listed in. */
  lemma {:induction false} SortIsStable(items: seq<Artifact>, t: Time)
    ensures CreatedAt(SortNewestFirst(items), t) == CreatedAt(items, t)
  {
    if items != [] {
      SortIsStable(items[1..], t);
      InsertIsStable(items[0], SortNewestFirst(items[1..]), t);
    }
  }

  // ---------------------------------------------------------------------------
  // What the policy means, position by position
  // ---------------------------------------------------------------------------

  /** The distinct buckets among the first `n` artifacts. */
  ghost function Buckets(items: seq<Artifact>, n: nat, key: Time -> string): set<string>
    requires n <= |items|
  {
    set j | 0 <= j < n :: key(items[j].createdAt)
  }

  /** A bucket rule keeps the newest artifact of each of the `count` newest buckets. */
  ghost predicate BucketKeeps(items: seq<Artifact>, i: nat, count: int, key: Time -> string)
    requires i < |items|
  {
    key(items[i].createdAt) !in Buckets(items, i, key) && |Buckets(items, i, key)| < count
  }

  ghost predicate RuleKeeps(items: seq<Artifact>, i: nat, r: Retention, cal: Calendar)
    requires i < |items|
  {
    || i < r.keepLast
    || BucketKeeps(items, i, r.keepHourly, cal.hour)
    || BucketKeeps(items, i, r.keepDaily, cal.day)
    || BucketKeeps(items, i, r.keepWeekly, cal.week)
    || BucketKeeps(items, i, r.keepMonthly, cal.month)
    || BucketKeeps(items, i, r.keepYearly, cal.year)
  }

  /** Age decides only when no keep rule is set. */
  predicate AgeKeeps(a: Artifact, r: Retention, now: Time) {
    !r.HasKeepRule() && r.maxAgeDays > 0 && a.createdAt >= now - r.maxAgeDays * DAY
  }

  ghost predicate KeptAt(items: seq<Artifact>, i: nat, r: Retention, cal: Calendar, now: Time)
    requires i < |items|
  {
    r.IsZero() || i == 0 || RuleKeeps(items, i, r, cal) || AgeKeeps(items[i], r, now)
  }

  /** The policy's verdict on every position of a list sorted newest first. */
  ghost function Verdicts(items: seq<Artifact>, r: Retention, cal: Calendar, now: Time): (v: seq<bool>)
    ensures |v| == |items|
  {
    seq(|items|, i requires 0 <= i < |items| => KeptAt(items, i, r, cal, now))
  }

  /** The artifacts among the first `n` whose mark is `verdict`, in order. */
  ghost function Picked(items: seq<Artifact>, marks: seq<bool>, verdict: bool, n: nat): seq<Artifact>
    requires n <= |items| == |marks|
  {
    if n == 0 then []
    else Picked(items, marks, verdict, n - 1) + (if marks[n - 1] == verdict then [items[n - 1]] else [])
  }

  /** What `Plan` keeps (`verdict`) or removes (`!verdict`), newest first. */
  ghost function Planned(artifacts: seq<Artifact>, verdict: bool, r: Retention, cal: Calendar, now: Time): seq<Artifact> {
    var items := SortNewestFirst(artifacts);
    Picked(items, Verdicts(items, r, cal, now), verdict, |items|)
  }

  // ---------------------------------------------------------------------------
  // The algorithm
  // ---------------------------------------------------------------------------

  /** Marks what one bucket rule keeps, leaving every other mark as it was. */
  method ApplyBucket(items: seq<Artifact>, kept: array<bool>, count: int, key: Time -> string)
    requires kept.Length == |items|
    modifies kept
    ensures forall i :: 0 <= i < |items| ==> kept[i] == (old(kept[i]) || BucketKeeps(items, i, count, key))
  {
    if count <= 0 {
      return;
    }
    var seen: set<string> := {};
    var taken := 0;
    for i := 0 to |items|
      invariant seen == Buckets(items, i, key)
      invariant |seen| == taken < count
      invariant forall j :: 0 <= j < i ==> kept[j] == (old(kept[j]) || BucketKeeps(items, j, count, key))
      invariant forall j :: i <= j < |items| ==> kept[j] == old(kept[j])
    {
      var k := key(items[i].createdAt);
      OneMoreBucket(items, i, key);
      if k in seen {
        continue;
      }
      seen := seen + {k};
      kept[i] := true;
      taken := taken + 1;
      if taken >= count {
        FullBucketsKeepNoMore(items, i + 1, count, key);
        return;
      }
    }
  }

  lemma BucketsGrow(items: seq<Artifact>, m: nat, n: nat, key: Time -> string)
    requires m <= n <= |items|
    ensures Buckets(items, m, key) <= Buckets(items, n, key)
    ensures |Buckets(items, m, key)| <= |Buckets(items, n, key)|
  {
    SubsetSize(Buckets(items, m, key), Buckets(items, n, key));
  }

  lemma OneMoreBucket(items: seq<Artifact>, i: nat, key: Time -> string)
    requires i < |items|
    ensures Buckets(items, i + 1, key) == Buckets(items, i, key) + {key(items[i].createdAt)}
  {
  }

  lemma FullBucketsKeepNoMore(items: seq<Artifact>, i: nat, count: int, key: Time -> string)
    requires i <= |items| && |Buckets(items, i, key)| >= count
    ensures forall j :: i <= j < |items| ==> !BucketKeeps(items, j, count, key)
  {
    forall j | i <= j < |items| ensures !BucketKeeps(items, j, count, key) {
      BucketsGrow(items, i, j, key);
    }
  }

  /** Marks the newest artifact and everything a keep rule protects. */
  method MarkByRules(items: seq<Artifact>, kept: array<bool>, r: Retention, cal: Calendar)
    requires kept.Length == |items| > 0
    requires forall j :: 0 <= j < |items| ==> !kept[j]
    modifies kept
    ensures forall j :: 0 <= j < |items| ==> kept[j] == (j == 0 || RuleKeeps(items, j, r, cal))
  {
    kept[0] := true;
    if r.keepLast > 0 {
      var i := 0;
      while i < r.keepLast && i < |items|
        invariant 0 <= i <= |items| && i <= r.keepLast
        invariant forall j :: 0 <= j < |items| ==> kept[j] == (j == 0 || j < i)
      {
        kept[i] := true;
        i := i + 1;
      }
    }
    ApplyBucket(items, kept, r.keepHourly, cal.hour);
    ApplyBucket(items, kept, r.keepDaily, cal.day);
    ApplyBucket(items, kept, r.keepWeekly, cal.week);
    ApplyBucket(items, kept, r.keepMonthly, cal.month);
    ApplyBucket(items, kept, r.keepYearly, cal.year);
  }

  /** Marks everything a non-zero policy keeps. */
  method MarkKept(items: seq<Artifact>, r: Retention, cal: Calendar, now: Time) returns (kept: array<bool>)
    requires |items| > 0 && !r.IsZero()
    ensures kept[..] == Verdicts(items, r, cal, now)
  {
    hide RuleKeeps;
    kept := new bool[|items|](_ => false);
    MarkByRules(items, kept, r, cal);
    ghost var ruled := kept[..];
    if !r.HasKeepRule() && r.maxAgeDays > 0 {
      var cutoff := now - r.maxAgeDays * DAY;
      for i := 0 to |items|
        invariant forall j :: 0 <= j < i ==> kept[j] == (ruled[j] || AgeKeeps(items[j], r, now))
        invariant forall j :: i <= j < |items| ==> kept[j] == ruled[j]
      {
        if items[i].createdAt >= cutoff {
          kept[i] := true;
        }
      }
    }
    assert forall j :: 0 <= j < |items| ==> kept[j] == KeptAt(items, j, r, cal, now);
  }

  lemma ZeroMarksAll(items: seq<Artifact>, r: Retention, cal: Calendar, now: Time)
    requires r.IsZero()
    ensures var marks := Verdicts(items, r, cal, now);
      Picked(items, marks, true, |items|) == items && Picked(items, marks, false, |items|) == []
  {
    hide RuleKeeps, Picked;
    AllMarked(items, Verdicts(items, r, cal, now), |items|);
  }

  /** Splits the artifacts of one job on one destination into those to keep and those to remove. */
  method Plan(artifacts: seq<Artifact>, r: Retention, cal: Calendar, now: Time)
    returns (keep: seq<Artifact>, remove: seq<Artifact>)
    ensures keep == Planned(artifacts, true, r, cal, now)
    ensures remove == Planned(artifacts, false, r, cal, now)
  {
    hide Verdicts, SortNewestFirst;
    var items := SortNewestFirst(artifacts);
    ghost var marks := Verdicts(items, r, cal, now);
    keep, remove := [], [];
    if |items| == 0 {
      return;
    }
    if r.IsZero() {
      ZeroMarksAll(items, r, cal, now);
      return items, remove;
    }
    var kept := MarkKept(items, r, cal, now);
    for i := 0 to |items|
      invariant keep == Picked(items, marks, true, i)
      invariant remove == Picked(items, marks, false, i)
    {
      assert kept[i] == kept[..][i] == marks[i];
      if kept[i] {
        keep := keep + [items[i]];
        continue;
      }
      remove := remove + [items[i]];
    }
  }

  lemma {:induction false} AllMarked(items: seq<Artifact>, marks: seq<bool>, n: nat)
    requires n <= |items| == |marks| && forall i :: 0 <= i < |marks| ==> marks[i]
    ensures Picked(items, marks, true, n) == items[..n]
    ensures Picked(items, marks, false, n) == []
  {
    if n > 0 {
      AllMarked(items, marks, n - 1);
    }
  }
}
