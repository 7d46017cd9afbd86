/** What every plan guarantees, and the panel's estimate of its size. */
module RetentionFacts {
  import opened Core
  import opened RetentionPlan

  lemma {:induction false} PickedPartitions(items: seq<Artifact>, marks: seq<bool>, n: nat)
    requires n <= |items| == |marks|
    ensures multiset(Picked(items, marks, true, n)) + multiset(Picked(items, marks, false, n)) == multiset(items[..n])
  {
    if n == 0 {
      assert Picked(items, marks, true, n) == [] == Picked(items, marks, false, n) && items[..n] == [];
      hide *;
    } else {
      PickedPartitions(items, marks, n - 1);
      PickedStep(items, marks, true, n);
      PickedStep(items, marks, false, n);
      hide *;
      var keep, remove := Picked(items, marks, true, n - 1), Picked(items, marks, false, n - 1);
      var keepNow, removeNow := Picked(items, marks, true, n), Picked(items, marks, false, n);
      var all, allNow, x := items[..n - 1], items[..n], items[n - 1];
      OneMore(keep, remove, all, x);
      assert allNow == all + [x];
      if marks[n - 1] {
        assert keepNow == keep + [x] && removeNow == remove;
      } else {
        assert keepNow == keep && removeNow == remove + [x];
      }
    }
  }

  lemma PickedStep(items: seq<Artifact>, marks: seq<bool>, verdict: bool, n: nat)
    requires 0 < n <= |items| == |marks|
    ensures items[..n] == items[..n - 1] + [items[n - 1]]
    ensures var before := Picked(items, marks, verdict, n - 1);
      Picked(items, marks, verdict, n) == if marks[n - 1] == verdict then before + [items[n - 1]] else before
  {
  }

  lemma OneMore<T>(s: seq<T>, t: seq<T>, all: seq<T>, x: T)
    requires multiset(s) + multiset(t) == multiset(all)
    ensures multiset(s + [x]) + multiset(t) == multiset(all + [x])
    ensures multiset(s) + multiset(t + [x]) == multiset(all + [x])
  {
    assert multiset(s + [x]) == multiset(s) + multiset{x};
    assert multiset(t + [x]) == multiset(t) + multiset{x};
    assert multiset(all + [x]) == multiset(all) + multiset{x};
  }

  lemma {:induction false} PickedKeepsOrder(items: seq<Artifact>, marks: seq<bool>, verdict: bool, n: nat)
    requires n <= |items| == |marks| && NewestFirst(items)
    ensures NewestFirst(Picked(items, marks, verdict, n))
    ensures forall a :: a in Picked(items, marks, verdict, n) ==> a in items[..n]
  {
    if n > 0 {
      PickedKeepsOrder(items, marks, verdict, n - 1);
      forall a | a in items[..n - 1] ensures a.createdAt >= items[n - 1].createdAt {
      }
      assert items[..n] == items[..n - 1] + [items[n - 1]];
    }
  }

  lemma {:induction false} PickedStartsWithFirst(items: seq<Artifact>, marks: seq<bool>, n: nat)
    requires 0 < n <= |items| == |marks| && marks[0]
    ensures Picked(items, marks, true, n) != [] && Picked(items, marks, true, n)[0] == items[0]
  {
    if n > 1 {
      PickedStartsWithFirst(items, marks, n - 1);
    }
  }

  lemma VerdictFacts(items: seq<Artifact>, r: Retention, cal: Calendar, now: Time)
    ensures var marks := Verdicts(items, r, cal, now);
            && (r.IsZero() ==> forall i :: 0 <= i < |marks| ==> marks[i])
            && (items != [] ==> marks[0])
  {
    hide RuleKeeps;
  }

  lemma NoneIsNewerThanTheFirst(artifacts: seq<Artifact>, items: seq<Artifact>)
    requires multiset(items) == multiset(artifacts) && NewestFirst(items) && artifacts != []
    ensures items != [] && forall a :: a in artifacts ==> a.createdAt <= items[0].createdAt
  {
    assert artifacts[0] in multiset(items);
    forall a | a in artifacts
      ensures a.createdAt <= items[0].createdAt
    {
      assert a in multiset(items);
    }
  }

  /** A plan loses nothing, invents nothing, keeps the order, and never removes the newest artifact. */
  lemma PlanPartitions(artifacts: seq<Artifact>, r: Retention, cal: Calendar, now: Time)
    ensures var keep := Planned(artifacts, true, r, cal, now);
            var remove := Planned(artifacts, false, r, cal, now);
            && multiset(keep) + multiset(remove) == multiset(artifacts)
            && NewestFirst(keep) && NewestFirst(remove)
            && (artifacts != [] ==> keep != [] && forall a :: a in artifacts ==> a.createdAt <= keep[0].createdAt)
            && (r.IsZero() ==> remove == [])
  {
    var items := SortNewestFirst(artifacts);
    var marks := Verdicts(items, r, cal, now);
    VerdictFacts(items, r, cal, now);
    hide Verdicts, KeptAt, SortNewestFirst, Picked;
    SortSorts(artifacts);
    assert items[..|items|] == items;
    PickedPartitions(items, marks, |items|);
    PickedKeepsOrder(items, marks, true, |items|);
    PickedKeepsOrder(items, marks, false, |items|);
    hide NewestFirst;
    if r.IsZero() {
      AllMarked(items, marks, |items|);
    }
    if artifacts != [] {
      NoneIsNewerThanTheFirst(artifacts, items);
      PickedStartsWithFirst(items, marks, |items|);
    }
  }

  /** An artifact strictly newer than every other one listed is never removed, whatever the policy. */
  lemma StrictlyNewestIsKept(artifacts: seq<Artifact>, a: Artifact, r: Retention, cal: Calendar, now: Time)
    requires multiset(artifacts)[a] == 1
    requires forall b :: b in artifacts && b != a ==> b.createdAt < a.createdAt
    ensures a !in Planned(artifacts, false, r, cal, now)
  {
    var keep := Planned(artifacts, true, r, cal, now);
    var remove := Planned(artifacts, false, r, cal, now);
    PlanPartitions(artifacts, r, cal, now);
    assert a in multiset(artifacts);
    assert keep[0] in multiset(keep);
    assert keep[0] in multiset(artifacts);
    assert keep[0] == a;
    assert (multiset(keep) + multiset(remove))[a] == 1;
    assert a !in multiset(remove);
  }

  // ---------------------------------------------------------------------------
  // The panel's estimate
  // ---------------------------------------------------------------------------

  function EstimateKeptCount(r: Retention): int {
    r.keepLast + r.keepHourly + r.keepDaily + r.keepWeekly + r.keepMonthly + r.keepYearly
  }

  /** How many of the first `n` positions one bucket rule can have used up. */
  ghost function BucketTally(items: seq<Artifact>, n: nat, count: int, key: Time -> string): int
    requires n <= |items|
  {
    Min(|Buckets(items, n, key)|, count)
  }

  ghost function Tally(items: seq<Artifact>, n: nat, r: Retention, cal: Calendar): int
    requires n <= |items|
  {
    Min(n, r.keepLast)
    + BucketTally(items, n, r.keepHourly, cal.hour)
    + BucketTally(items, n, r.keepDaily, cal.day)
    + BucketTally(items, n, r.keepWeekly, cal.week)
    + BucketTally(items, n, r.keepMonthly, cal.month)
    + BucketTally(items, n, r.keepYearly, cal.year)
  }

  lemma BucketTallySteps(items: seq<Artifact>, n: nat, count: int, key: Time -> string)
    requires n < |items| && count >= 0
    ensures BucketTally(items, n + 1, count, key)
            >= BucketTally(items, n, count, key) + (if BucketKeeps(items, n, count, key) then 1 else 0)
    ensures n == 0 && count > 0 ==> BucketKeeps(items, n, count, key)
  {
    assert Buckets(items, n + 1, key) == Buckets(items, n, key) + {key(items[n].createdAt)};
    assert n == 0 ==> Buckets(items, n, key) == {};
  }

  lemma TallySteps(items: seq<Artifact>, n: nat, r: Retention, cal: Calendar)
    requires n < |items| && r.NonNegative()
    ensures Tally(items, n + 1, r, cal) >= Tally(items, n, r, cal) + (if RuleKeeps(items, n, r, cal) then 1 else 0)
    ensures n == 0 && r.HasKeepRule() ==> RuleKeeps(items, n, r, cal)
  {
    BucketTallySteps(items, n, r.keepHourly, cal.hour);
    BucketTallySteps(items, n, r.keepDaily, cal.day);
    BucketTallySteps(items, n, r.keepWeekly, cal.week);
    BucketTallySteps(items, n, r.keepMonthly, cal.month);
    BucketTallySteps(items, n, r.keepYearly, cal.year);
  }

  lemma {:induction false} KeptIsTallied(items: seq<Artifact>, marks: seq<bool>, n: nat, r: Retention, cal: Calendar)
    requires n <= |items| == |marks| && r.NonNegative()
    requires forall i :: 0 <= i < |items| && marks[i] ==> RuleKeeps(items, i, r, cal)
    ensures |Picked(items, marks, true, n)| <= Tally(items, n, r, cal)
  {
    if n > 0 {
      KeptIsTallied(items, marks, n - 1, r, cal);
      TallySteps(items, n - 1, r, cal);
    }
  }

  /** The panel's number bounds what is kept exactly when some keep rule is set. */
  lemma EstimateBoundsKept(artifacts: seq<Artifact>, r: Retention, cal: Calendar, now: Time)
    requires r.NonNegative() && artifacts != []
    ensures |Planned(artifacts, true, r, cal, now)| <= EstimateKeptCount(r) <==> r.HasKeepRule()
  {
    var items := SortNewestFirst(artifacts);
    var marks := Verdicts(items, r, cal, now);
    if r.HasKeepRule() {
      forall i | 0 <= i < |items| && marks[i] ensures RuleKeeps(items, i, r, cal) {
        if i == 0 {
          TallySteps(items, i, r, cal);
        }
      }
      KeptIsTallied(items, marks, |items|, r, cal);
    } else {
      PlanPartitions(artifacts, r, cal, now);
    }
  }
}
