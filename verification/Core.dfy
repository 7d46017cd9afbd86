/** Values shared by the engine modules: times, artifacts and retention policies. */
module Core {

  /** Nanoseconds since an arbitrary epoch, in UTC. */
  type Time = int

  const DAY: int := 86_400_000_000_000

  datatype Option<+T> = None | Some(value: T)

  function Min(a: int, b: int): int {
    if a < b then a else b
  }

  lemma {:induction false} SubsetSize<T>(a: set<T>, b: set<T>)
    requires a <= b
    ensures |a| <= |b|
  {
    if a != {} {
      var x :| x in a;
      SubsetSize(a - {x}, b - {x});
    }
  }

  datatype RunStatus = Queued | Running | Success | Warning | Failed | Canceled
  {
    predicate Terminal() {
      Success? || Warning? || Failed? || Canceled?
    }

    function Rank(): nat {
      if Queued? then 0 else if Running? then 1 else 2
    }
  }

  datatype ArtifactStatus = Present | Missing | Pruned | Deleted

  datatype Artifact = Artifact(
    id: nat,
    jobId: string,
    destinationId: string,
    path: string,
    size: int,
    status: ArtifactStatus,
    createdAt: Time,
    verifiedAt: Option<Time>)

  datatype Retention = Retention(
    keepLast: int,
    keepHourly: int,
    keepDaily: int,
    keepWeekly: int,
    keepMonthly: int,
    keepYearly: int,
    maxAgeDays: int)
  {
    predicate IsZero() {
      this == Retention(0, 0, 0, 0, 0, 0, 0)
    }

    predicate HasKeepRule() {
      keepLast > 0 || keepHourly > 0 || keepDaily > 0 || keepWeekly > 0 || keepMonthly > 0 || keepYearly > 0
    }

    predicate NonNegative() {
      keepLast >= 0 && keepHourly >= 0 && keepDaily >= 0 && keepWeekly >= 0 && keepMonthly >= 0 && keepYearly >= 0
    }
  }

  /** The five bucket keys of a creation time. The calendar itself is a parameter. */
  datatype Calendar = Calendar(
    hour: Time -> string,
    day: Time -> string,
    week: Time -> string,
    month: Time -> string,
    year: Time -> string)
}
