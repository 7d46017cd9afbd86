/** Retention over a whole history: pruning early, late or only in part ends in the same place. */
module RetentionHistory {
  import opened Core
  import opened RetentionPlan

  // ---------------------------------------------------------------------------
  // The policy on a set of artifacts, without any order of listing
  // ---------------------------------------------------------------------------

  ghost predicate DistinctTimes(s: set<Artifact>) {
    forall a, b :: a in s && b in s && a.createdAt == b.createdAt ==> a == b
  }

  ghost function NewerThan(s: set<Artifact>, a: Artifact): set<Artifact> {
    set b | b in s && b.createdAt > a.createdAt
  }

  ghost function BucketsOf(s: set<Artifact>, key: Time -> string): set<string> {
    set b | b in s :: key(b.createdAt)
  }

  /** `a` is the newest of its bucket and fewer than `count` distinct buckets are newer. */
  ghost predicate BucketRule(s: set<Artifact>, a: Artifact, count: int, key: Time -> string) {
    var buckets := BucketsOf(NewerThan(s, a), key);
    key(a.createdAt) !in buckets && |buckets| < count
  }

  ghost predicate AnyBucketRule(s: set<Artifact>, a: Artifact, r: Retention, cal: Calendar) {
    || BucketRule(s, a, r.keepHourly, cal.hour)
    || BucketRule(s, a, r.keepDaily, cal.day)
    || BucketRule(s, a, r.keepWeekly, cal.week)
    || BucketRule(s, a, r.keepMonthly, cal.month)
    || BucketRule(s, a, r.keepYearly, cal.year)
  }

  ghost predicate Keeps(s: set<Artifact>, a: Artifact, r: Retention, cal: Calendar, now: Time) {
    || r.IsZero()
    || NewerThan(s, a) == {}
    || |NewerThan(s, a)| < r.keepLast
    || AnyBucketRule(s, a, r, cal)
    || AgeKeeps(a, r, now)
  }

  ghost function Kept(s: set<Artifact>, r: Retention, cal: Calendar, now: Time): set<Artifact> {
    set a | a in s && Keeps(s, a, r, cal, now)
  }

  // ---------------------------------------------------------------------------
  // `Plan` computes that set
  // ---------------------------------------------------------------------------

  ghost function Elements(items: seq<Artifact>): set<Artifact> {
    set a | a in items
  }

  ghost predicate StrictlyNewestFirst(items: seq<Artifact>) {
    forall i, j :: 0 <= i < j < |items| ==> items[i].createdAt > items[j].createdAt
  }

  /** A list whose creation times are all different. */
  ghost predicate DistinctList(items: seq<Artifact>) {
    forall i, j :: 0 <= i < j < |items| ==> items[i].createdAt != items[j].createdAt
  }

  lemma {:induction false} DistinctOccursOnce(items: seq<Artifact>, t: Time)
    requires DistinctList(items)
    ensures |CreatedAt(items, t)| <= 1
  {
    if items != [] {
      DistinctOccursOnce(items[1..], t);
      NoneAt(items[1..], items[0].createdAt);
    }
  }

  lemma {:induction false} OccursOnceDistinct(items: seq<Artifact>)
    requires forall t :: |CreatedAt(items, t)| <= 1
    ensures DistinctList(items)
  {
    if items != [] {
      var tail := items[1..];
      forall t ensures |CreatedAt(tail, t)| <= 1 {
        assert |CreatedAt(items, t)| <= 1;
      }
      OccursOnceDistinct(tail);
      assert |CreatedAt(items, items[0].createdAt)| <= 1;
      NoneAt(tail, items[0].createdAt);
      assert forall i :: 0 < i < |items| ==> items[i] == tail[i - 1];
    }
  }

  lemma {:induction false} NoneAt(items: seq<Artifact>, t: Time)
    ensures CreatedAt(items, t) == [] <==> forall i :: 0 <= i < |items| ==> items[i].createdAt != t
  {
    if items != [] {
      NoneAt(items[1..], t);
      if CreatedAt(items, t) == [] {
        forall i | 0 <= i < |items| ensures items[i].createdAt != t {
          assert i > 0 ==> items[i] == items[1..][i - 1];
        }
      } else if items[0].createdAt != t {
        var i :| 0 <= i < |items[1..]| && items[1..][i].createdAt == t;
        assert items[i + 1].createdAt == t;
      }
    }
  }

  lemma SortedStrictly(artifacts: seq<Artifact>)
    requires DistinctList(artifacts)
    ensures StrictlyNewestFirst(SortNewestFirst(artifacts))
    ensures Elements(SortNewestFirst(artifacts)) == Elements(artifacts)
    ensures DistinctTimes(Elements(artifacts))
  {
    var items := SortNewestFirst(artifacts);
    SortSorts(artifacts);
    forall t ensures |CreatedAt(items, t)| <= 1 {
      SortIsStable(artifacts, t);
      DistinctOccursOnce(artifacts, t);
    }
    OccursOnceDistinct(items);
    SameElements(items, artifacts);
  }

  lemma SameElements(a: seq<Artifact>, b: seq<Artifact>)
    requires multiset(a) == multiset(b)
    ensures Elements(a) == Elements(b)
  {
    forall x ensures x in a <==> x in b {
      assert x in a <==> x in multiset(a);
      assert x in b <==> x in multiset(b);
    }
  }

  /** In a strictly sorted list the artifacts newer than position `i` are exactly those before it. */
  lemma PositionIsRank(items: seq<Artifact>, i: nat, key: Time -> string)
    requires StrictlyNewestFirst(items) && i < |items|
    ensures NewerThan(Elements(items), items[i]) == Elements(items[..i])
    ensures |Elements(items[..i])| == i
    ensures BucketsOf(Elements(items[..i]), key) == Buckets(items, i, key)
  {
    forall b ensures b in NewerThan(Elements(items), items[i]) <==> b in items[..i] {
      if b in items && b.createdAt > items[i].createdAt {
        var j :| 0 <= j < |items| && items[j] == b;
        assert items[..i][j] == b;
      }
    }
    ElementsCount(items[..i]);
    forall k ensures k in BucketsOf(Elements(items[..i]), key) <==> k in Buckets(items, i, key) {
      if k in Buckets(items, i, key) {
        var j :| 0 <= j < i && key(items[j].createdAt) == k;
        assert items[..i][j] in Elements(items[..i]);
      }
    }
  }

  lemma {:induction false} ElementsCount(items: seq<Artifact>)
    requires StrictlyNewestFirst(items)
    ensures |Elements(items)| == |items|
  {
    if items != [] {
      var front := items[..|items| - 1];
      ElementsCount(front);
      assert items == front + [items[|items| - 1]];
      assert Elements(items) == Elements(front) + {items[|items| - 1]};
      assert items[|items| - 1] !in front;
    }
  }

  lemma VerdictIsMembership(items: seq<Artifact>, i: nat, r: Retention, cal: Calendar, now: Time)
    requires StrictlyNewestFirst(items) && i < |items|
    ensures KeptAt(items, i, r, cal, now) == Keeps(Elements(items), items[i], r, cal, now)
  {
    PositionIsRank(items, i, cal.hour);
    PositionIsRank(items, i, cal.day);
    PositionIsRank(items, i, cal.week);
    PositionIsRank(items, i, cal.month);
    PositionIsRank(items, i, cal.year);
  }

  lemma {:induction false} PickedIsFilter(items: seq<Artifact>, marks: seq<bool>, verdict: bool, n: nat, a: Artifact)
    requires n <= |items| == |marks|
    ensures a in Picked(items, marks, verdict, n) <==> exists i :: 0 <= i < n && items[i] == a && marks[i] == verdict
  {
    if n > 0 {
      PickedIsFilter(items, marks, verdict, n - 1, a);
    }
  }

  lemma VerdictsAreMembership(items: seq<Artifact>, r: Retention, cal: Calendar, now: Time)
    requires StrictlyNewestFirst(items)
    ensures forall i :: 0 <= i < |items| ==>
              (Verdicts(items, r, cal, now)[i] <==> items[i] in Kept(Elements(items), r, cal, now))
  {
    forall i | 0 <= i < |items|
      ensures Verdicts(items, r, cal, now)[i] <==> items[i] in Kept(Elements(items), r, cal, now)
    {
      VerdictIsMembership(items, i, r, cal, now);
    }
  }

  lemma PickedByMembership(items: seq<Artifact>, marks: seq<bool>, kept: set<Artifact>)
    requires |items| == |marks|
    requires forall i :: 0 <= i < |items| ==> (marks[i] <==> items[i] in kept)
    ensures Elements(Picked(items, marks, true, |items|)) == Elements(items) * kept
    ensures Elements(Picked(items, marks, false, |items|)) == Elements(items) - kept
  {
    forall a, verdict
      ensures a in Picked(items, marks, verdict, |items|) <==> a in items && (a in kept) == verdict
    {
      PickedIsFilter(items, marks, verdict, |items|, a);
    }
  }

  /** With distinct creation times, what `Plan` keeps and removes depends on the set of artifacts only. */
  lemma PlanIsSetLevel(artifacts: seq<Artifact>, r: Retention, cal: Calendar, now: Time)
    requires DistinctList(artifacts)
    ensures Elements(Planned(artifacts, true, r, cal, now)) == Kept(Elements(artifacts), r, cal, now)
    ensures Elements(Planned(artifacts, false, r, cal, now)) == Elements(artifacts) - Kept(Elements(artifacts), r, cal, now)
  {
    var items := SortNewestFirst(artifacts);
    SortedStrictly(artifacts);
    VerdictsAreMembership(items, r, cal, now);
    PickedByMembership(items, Verdicts(items, r, cal, now), Kept(Elements(items), r, cal, now));
  }

  // ---------------------------------------------------------------------------
  // The sandwich: only what the policy keeps matters
  // ---------------------------------------------------------------------------

  lemma {:induction false} NewestExists(s: set<Artifact>) returns (m: Artifact)
    requires s != {}
    ensures m in s && forall b :: b in s ==> b.createdAt <= m.createdAt
  {
    var a :| a in s;
    if s == {a} {
      m := a;
    } else {
      m := NewestExists(s - {a});
      assert s == (s - {a}) + {a};
      if a.createdAt > m.createdAt {
        m := a;
      }
    }
  }

  /** Older competitors gone or time passed: what is kept among more, or later, is kept among fewer, or earlier. */
  lemma KeepsIsAntitone(h: set<Artifact>, s: set<Artifact>, a: Artifact, r: Retention, cal: Calendar, now: Time, before: Time)
    requires s <= h && before <= now && Keeps(h, a, r, cal, now)
    ensures Keeps(s, a, r, cal, before)
  {
    SubsetSize(NewerThan(s, a), NewerThan(h, a));
    BucketRuleIsAntitone(h, s, a, r.keepHourly, cal.hour);
    BucketRuleIsAntitone(h, s, a, r.keepDaily, cal.day);
    BucketRuleIsAntitone(h, s, a, r.keepWeekly, cal.week);
    BucketRuleIsAntitone(h, s, a, r.keepMonthly, cal.month);
    BucketRuleIsAntitone(h, s, a, r.keepYearly, cal.year);
  }

  lemma BucketRuleIsAntitone(h: set<Artifact>, s: set<Artifact>, a: Artifact, count: int, key: Time -> string)
    requires s <= h
    ensures BucketRule(h, a, count, key) ==> BucketRule(s, a, count, key)
  {
    assert NewerThan(s, a) <= NewerThan(h, a);
    SubsetSize(BucketsOf(NewerThan(s, a), key), BucketsOf(NewerThan(h, a), key));
  }

  /** If `s` still has the `k` newest of `h`, then `a` has fewer than `k` newer ones in `h` as well. */
  lemma LastRuleReflects(h: set<Artifact>, s: set<Artifact>, a: Artifact, k: int)
    requires s <= h && |NewerThan(s, a)| < k
    requires forall b :: b in h && |NewerThan(h, b)| < k ==> b in s
    ensures NewerThan(h, a) == NewerThan(s, a)
  {
    var lost := NewerThan(h, a) - s;
    if lost != {} {
      var b := NewestExists(lost);
      assert NewerThan(h, b) <= NewerThan(s, a);
      SubsetSize(NewerThan(h, b), NewerThan(s, a));
      assert false;
    }
    forall c ensures c in NewerThan(h, a) <==> c in NewerThan(s, a) {
      assert c !in lost;
    }
  }

  /** The same for one bucket rule: the buckets newer than `a` are those of the whole history. */
  lemma BucketRuleReflects(h: set<Artifact>, s: set<Artifact>, a: Artifact, count: int, key: Time -> string)
    requires s <= h && BucketRule(s, a, count, key)
    requires forall b :: b in h && BucketRule(h, b, count, key) ==> b in s
    ensures BucketRule(h, a, count, key)
  {
    var seen := BucketsOf(NewerThan(s, a), key);
    var lost := set b | b in NewerThan(h, a) && key(b.createdAt) !in seen;
    if lost != {} {
      var b := NewestExists(lost);
      var newer := BucketsOf(NewerThan(h, b), key);
      forall k | k in newer ensures k in seen {
        var c :| c in NewerThan(h, b) && key(c.createdAt) == k;
        assert c in NewerThan(h, a) && c !in lost;
      }
      SubsetSize(newer, seen);
      assert false;
    }
    forall k ensures k in BucketsOf(NewerThan(h, a), key) <==> k in seen {
      if k in BucketsOf(NewerThan(h, a), key) {
        var c :| c in NewerThan(h, a) && key(c.createdAt) == k;
        assert c !in lost;
      }
    }
    assert BucketsOf(NewerThan(h, a), key) == seen;
  }

  lemma KeepsReflects(h: set<Artifact>, s: set<Artifact>, a: Artifact, r: Retention, cal: Calendar, now: Time)
    requires Kept(h, r, cal, now) <= s <= h
    requires Keeps(s, a, r, cal, now)
    ensures Keeps(h, a, r, cal, now)
  {
    var kept := Kept(h, r, cal, now);
    if NewerThan(s, a) == {} {
      assert |NewerThan(s, a)| < 1;
      forall b | b in h && |NewerThan(h, b)| < 1 ensures b in s {
        assert b in kept;
      }
      LastRuleReflects(h, s, a, 1);
    } else if |NewerThan(s, a)| < r.keepLast {
      forall b | b in h && |NewerThan(h, b)| < r.keepLast ensures b in s {
        assert b in kept;
      }
      LastRuleReflects(h, s, a, r.keepLast);
    } else if AnyBucketRule(s, a, r, cal) {
      AnyBucketRuleReflects(h, s, a, r, cal, now);
    }
  }

  lemma AnyBucketRuleReflects(h: set<Artifact>, s: set<Artifact>, a: Artifact, r: Retention, cal: Calendar, now: Time)
    requires Kept(h, r, cal, now) <= s <= h
    requires AnyBucketRule(s, a, r, cal)
    ensures AnyBucketRule(h, a, r, cal)
  {
    forall b | b in h && AnyBucketRule(h, b, r, cal) ensures b in s {
      assert b in Kept(h, r, cal, now);
    }
    if BucketRule(s, a, r.keepHourly, cal.hour) {
      BucketRuleReflects(h, s, a, r.keepHourly, cal.hour);
    } else if BucketRule(s, a, r.keepDaily, cal.day) {
      BucketRuleReflects(h, s, a, r.keepDaily, cal.day);
    } else if BucketRule(s, a, r.keepWeekly, cal.week) {
      BucketRuleReflects(h, s, a, r.keepWeekly, cal.week);
    } else if BucketRule(s, a, r.keepMonthly, cal.month) {
      BucketRuleReflects(h, s, a, r.keepMonthly, cal.month);
    } else {
      BucketRuleReflects(h, s, a, r.keepYearly, cal.year);
    }
  }

  /** Whatever else was deleted, a set that still holds all the policy keeps is planned the same. */
  lemma Sandwich(h: set<Artifact>, s: set<Artifact>, r: Retention, cal: Calendar, now: Time)
    requires Kept(h, r, cal, now) <= s <= h
    ensures Kept(s, r, cal, now) == Kept(h, r, cal, now)
  {
    forall a | a in s
      ensures Keeps(s, a, r, cal, now) == Keeps(h, a, r, cal, now)
    {
      if Keeps(h, a, r, cal, now) {
        KeepsIsAntitone(h, s, a, r, cal, now, now);
      } else if Keeps(s, a, r, cal, now) {
        KeepsReflects(h, s, a, r, cal, now);
      }
    }
  }

  // ---------------------------------------------------------------------------
  // Pruning after every backup
  // ---------------------------------------------------------------------------

  /** One backup: the new artifact, the clock when retention ran, and the deletions that failed. */
  datatype Round = Round(uploaded: Artifact, now: Time, failed: set<Artifact>)

  ghost predicate Chronological(rounds: seq<Round>) {
    forall i, j :: 0 <= i < j < |rounds| ==>
      rounds[i].uploaded.createdAt < rounds[j].uploaded.createdAt && rounds[i].now <= rounds[j].now
  }

  /** Every artifact ever uploaded. */
  ghost function History(rounds: seq<Round>): set<Artifact> {
    set i | 0 <= i < |rounds| :: rounds[i].uploaded
  }

  /** What is still present after uploading and pruning once per round. */
  ghost function Survivors(rounds: seq<Round>, r: Retention, cal: Calendar): set<Artifact> {
    if rounds == [] then {}
    else
      var last := rounds[|rounds| - 1];
      var present := Survivors(rounds[..|rounds| - 1], r, cal) + {last.uploaded};
      var remove := present - Kept(present, r, cal, last.now);
      present - (remove - last.failed)
  }

  /** However many deletions failed on the way, exactly the kept artifacts of the whole history are guaranteed to survive. */
  lemma {:induction false} SurvivorsAreSandwiched(rounds: seq<Round>, r: Retention, cal: Calendar)
    requires rounds != [] && Chronological(rounds)
    ensures Kept(History(rounds), r, cal, rounds[|rounds| - 1].now) <= Survivors(rounds, r, cal) <= History(rounds)
  {
    var n := |rounds| - 1;
    var before, last := rounds[..n], rounds[n];
    var h, h' := History(before), History(rounds);
    assert h' == h + {last.uploaded} by {
      forall a ensures a in h' <==> a in h + {last.uploaded} {
        if a in h {
          var i :| 0 <= i < |before| && before[i].uploaded == a;
          assert rounds[i].uploaded == a;
        }
        if a in h' {
          var i :| 0 <= i < |rounds| && rounds[i].uploaded == a;
          assert i < n ==> before[i].uploaded == a;
        }
      }
    }
    var present := Survivors(before, r, cal) + {last.uploaded};
    if before != [] {
      SurvivorsAreSandwiched(before, r, cal);
    }
    forall a | a in Kept(h', r, cal, last.now) ensures a in present {
      if a in h {
        KeepsIsAntitone(h', h, a, r, cal, last.now, before[n - 1].now);
      }
    }
    Sandwich(h', present, r, cal, last.now);
  }

  /** Path independence: one plan of the survivors equals one plan of the whole history, now or at any later time. */
  lemma PruningIsPathIndependent(rounds: seq<Round>, r: Retention, cal: Calendar, now: Time)
    requires rounds != [] && Chronological(rounds) && rounds[|rounds| - 1].now <= now
    ensures Kept(Survivors(rounds, r, cal), r, cal, now) == Kept(History(rounds), r, cal, now)
    ensures rounds[|rounds| - 1].failed == {} ==>
              Survivors(rounds, r, cal) == Kept(History(rounds), r, cal, rounds[|rounds| - 1].now)
  {
    var last := rounds[|rounds| - 1];
    var h, s := History(rounds), Survivors(rounds, r, cal);
    SurvivorsAreSandwiched(rounds, r, cal);
    Sandwich(h, s, r, cal, last.now);
    forall a | a in Kept(h, r, cal, now) ensures a in s {
      KeepsIsAntitone(h, h, a, r, cal, now, last.now);
      assert a in Kept(h, r, cal, last.now);
    }
    Sandwich(h, s, r, cal, now);
    if last.failed == {} {
      var present := Survivors(rounds[..|rounds| - 1], r, cal) + {last.uploaded};
      assert s == Kept(present, r, cal, last.now);
      forall a | a in s ensures a in Kept(s, r, cal, last.now) {
        KeepsIsAntitone(present, s, a, r, cal, last.now, last.now);
      }
    }
  }

  /** The same in terms of the lists the engine hands to `Plan`, in whatever order the store returns them. */
  lemma PlanIsPathIndependent(
    rounds: seq<Round>, present: seq<Artifact>, everything: seq<Artifact>, r: Retention, cal: Calendar, now: Time)
    requires rounds != [] && Chronological(rounds) && rounds[|rounds| - 1].now <= now
    requires DistinctList(present) && Elements(present) == Survivors(rounds, r, cal)
    requires DistinctList(everything) && Elements(everything) == History(rounds)
    ensures Elements(Planned(present, true, r, cal, now)) == Elements(Planned(everything, true, r, cal, now))
  {
    PruningIsPathIndependent(rounds, r, cal, now);
    PlanIsSetLevel(present, r, cal, now);
    PlanIsSetLevel(everything, r, cal, now);
  }
}
