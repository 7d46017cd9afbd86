/** Which jobs count as missed or overdue, and when an overdue job is announced. */
module Overdue {
  import opened Core
  import opened Schedule

  const MILLISECOND := 1_000_000

  datatype Plan = Blank | Unreadable | Fires(next: Next)

  /** A job as the two checks read it; a start time is none when no run was recorded or it never started. */
  datatype Job = Job(
    enabled: bool,
    push: bool,
    plan: Plan,
    expectedIntervalMinutes: int,
    createdAt: Option<Time>,
    lastStartedAt: Option<Time>,
    lastSuccessAt: Option<Time>,
    lastDurationMS: int)

  function Grace(job: Job): int {
    if job.lastDurationMS > 0 && 2 * job.lastDurationMS * MILLISECOND > 30 * MINUTE
    then 2 * job.lastDurationMS * MILLISECOND
    else 30 * MINUTE
  }

  function StartedSince(job: Job, slot: Time): bool {
    job.lastStartedAt.Some? && job.lastStartedAt.value >= slot
  }

  method JobIsOverdue(job: Job, now: Time) returns (overdue: bool)
    ensures job.push || job.plan.Blank? ==>
      (overdue <==> job.expectedIntervalMinutes > 0
                    && (job.lastSuccessAt.Some? || job.createdAt.Some?)
                    && now - (if job.lastSuccessAt.Some? then job.lastSuccessAt else job.createdAt).value
                       > job.expectedIntervalMinutes * MINUTE)
    ensures !job.push && job.plan.Unreadable? ==> !overdue
    ensures !job.push && job.plan.Fires? ==> overdue == SlotUncovered(job, now - 25 * HOUR, now - Grace(job))
  {
    if job.push || job.plan.Blank? {
      if job.expectedIntervalMinutes <= 0 {
        return false;
      }
      var deadline := job.expectedIntervalMinutes * MINUTE;
      match job.lastSuccessAt {
        case None =>
          if job.createdAt.None? || now - job.createdAt.value <= deadline {
            return false;
          }
          return true;
        case Some(last) =>
          return now - last > deadline;
      }
    }
    var grace := 30 * MINUTE;
    if job.lastDurationMS > 0 {
      var expected := 2 * job.lastDurationMS * MILLISECOND;
      if expected > grace {
        grace := expected;
      }
    }
    match job.plan {
      case Fires(next) =>
        var slot := PreviousSlot(next, now - 25 * HOUR, now - grace);
        return slot.Some? && !StartedSince(job, slot.value);
      case _ =>
        return false;
    }
  }

  /** The latest slot the search finds in the window exists and no run started at or after it. */
  predicate SlotUncovered(job: Job, from: Time, until: Time)
    requires job.plan.Fires?
  {
    var slot := Walk(job.plan.next, from, until, SLOT_CAP);
    slot.Some? && !StartedSince(job, slot.value)
  }

  /** A fire time in the window that came after the last start. */
  ghost predicate FireUnanswered(job: Job, fires: iset<Time>, from: Time, until: Time) {
    exists t :: t in fires && from < t <= until && (job.lastStartedAt.None? || job.lastStartedAt.value < t)
  }

  lemma UncoveredMeansUnanswered(job: Job, fires: iset<Time>, from: Time, until: Time)
    requires job.plan.Fires? && Gives(job.plan.next, fires) && AtMostOncePer(fires, MINUTE) && until - from <= 25 * HOUR
    ensures SlotUncovered(job, from, until) <==> FireUnanswered(job, fires, from, until)
  {
    MinuteSchedulesAreSearchedFully(job.plan.next, fires, from, until);
    var slot := Walk(job.plan.next, from, until, SLOT_CAP);
    if FireUnanswered(job, fires, from, until) {
      var t :| t in fires && from < t <= until && (job.lastStartedAt.None? || job.lastStartedAt.value < t);
      assert slot.Some? && t <= slot.value;
    }
  }

  /**
   * A scheduled job is overdue exactly when some fire time of the last 25 hours,
   * at least the grace old, came after the start of its last run.
   */
  lemma OverdueExactlyWhenAFireIsUnanswered(job: Job, fires: iset<Time>, now: Time)
    requires job.plan.Fires? && Gives(job.plan.next, fires) && AtMostOncePer(fires, MINUTE)
    ensures SlotUncovered(job, now - 25 * HOUR, now - Grace(job))
       <==> FireUnanswered(job, fires, now - 25 * HOUR, now - Grace(job))
    ensures job.lastDurationMS >= 45_000_000 ==> !SlotUncovered(job, now - 25 * HOUR, now - Grace(job))
  {
    UncoveredMeansUnanswered(job, fires, now - 25 * HOUR, now - Grace(job));
    hide SlotUncovered, Gives, AtMostOncePer;
  }

  /**
   * A fire time no run answered makes the job overdue once the grace is over,
   * but 25 hours on it is forgotten: until the next one the job is not overdue.
   */
  lemma UnansweredFireIsForgotten(job: Job, fires: iset<Time>, slot: Time)
    requires job.plan.Fires? && Gives(job.plan.next, fires) && AtMostOncePer(fires, MINUTE) && slot in fires
    requires job.lastStartedAt.None? || job.lastStartedAt.value < slot
    requires Grace(job) < 25 * HOUR && forall u :: slot < u <= slot + 25 * HOUR ==> u !in fires
    ensures SlotUncovered(job, slot + Grace(job) - 25 * HOUR, slot)
    ensures !SlotUncovered(job, slot, slot + 25 * HOUR - Grace(job))
  {
    hide SlotUncovered;
    UncoveredMeansUnanswered(job, fires, slot + Grace(job) - 25 * HOUR, slot);
    UncoveredMeansUnanswered(job, fires, slot, slot + 25 * HOUR - Grace(job));
  }

  // ---------------------------------------------------------------------------
  // Missed runs, when the scheduler comes back
  // ---------------------------------------------------------------------------

  predicate Missed(job: Job, now: Time) {
    job.enabled && !job.push && job.plan.Fires? && SlotUncovered(job, now - 24 * HOUR, now)
  }

  /** The jobs enqueued, by position, in the order of the list. */
  function MissedJobs(jobs: seq<Job>, now: Time): seq<nat> {
    if jobs == [] then []
    else
      var last := |jobs| - 1;
      MissedJobs(jobs[..last], now) + (if Missed(jobs[last], now) then [last] else [])
  }

  method RunMissed(jobs: seq<Job>, now: Time) returns (enqueued: seq<nat>)
    ensures enqueued == MissedJobs(jobs, now)
  {
    enqueued := [];
    for i := 0 to |jobs|
      invariant enqueued == MissedJobs(jobs[..i], now)
    {
      var job := jobs[i];
      assert jobs[..i + 1][..i] == jobs[..i];
      if !job.enabled || job.push || job.plan.Blank? {
        continue;
      }
      match job.plan {
        case Fires(next) =>
          var slot := PreviousSlot(next, now - 24 * HOUR, now);
          if slot.None? || StartedSince(job, slot.value) {
            continue;
          }
          enqueued := enqueued + [i];
        case _ =>
      }
    }
    assert jobs[..|jobs|] == jobs;
  }

  /** Each job is enqueued at most once, and exactly when a fire of the last day came after its last start. */
  lemma {:induction false} MissedExactlyWhenAFireIsUnanswered(jobs: seq<Job>, now: Time, fires: seq<iset<Time>>)
    requires |fires| == |jobs|
    requires forall k :: 0 <= k < |jobs| && jobs[k].plan.Fires? ==>
      Gives(jobs[k].plan.next, fires[k]) && AtMostOncePer(fires[k], MINUTE)
    ensures forall i, j :: 0 <= i < j < |MissedJobs(jobs, now)| ==> MissedJobs(jobs, now)[i] < MissedJobs(jobs, now)[j]
    ensures forall k: nat :: k in MissedJobs(jobs, now) <==>
      (k < |jobs| && jobs[k].enabled && !jobs[k].push && jobs[k].plan.Fires?
       && FireUnanswered(jobs[k], fires[k], now - 24 * HOUR, now))
  {
    if jobs != [] {
      var last := |jobs| - 1;
      MissedExactlyWhenAFireIsUnanswered(jobs[..last], now, fires[..last]);
      if jobs[last].plan.Fires? {
        UncoveredMeansUnanswered(jobs[last], fires[last], now - 24 * HOUR, now);
      }
      hide SlotUncovered, Gives, AtMostOncePer, FireUnanswered;
      var earlier := MissedJobs(jobs[..last], now);
      forall k | 0 <= k < |earlier|
        ensures earlier[k] < last
      {
        assert earlier[k] in earlier;
      }
    }
  }

  // ---------------------------------------------------------------------------
  // Constant-delay schedules
  // ---------------------------------------------------------------------------

  function WholeSecond(t: Time): Time {
    t - t % SECOND
  }

  /** `@every d`: the next time is a distance from the moment asked about, not a moment of a fixed set. */
  function Every(delay: int): Next {
    t => Some(WholeSecond(t) + delay)
  }

  /** From `from` the search counts k = min(cap, whole delays up to `until`) delays on. */
  lemma {:induction false} EveryWalk(delay: int, from: Time, until: Time, cap: nat, k: nat)
    requires delay >= SECOND && delay % SECOND == 0
    requires WholeSecond(from) + k * delay <= until < WholeSecond(from) + (k + 1) * delay
    ensures Walk(Every(delay), from, until, cap)
         == if k == 0 || cap == 0 then None else Some(WholeSecond(from) + (if k < cap then k else cap) * delay)
    decreases cap
  {
    var t := WholeSecond(from) + delay;
    if k == 0 {
      assert t > until;
    } else if cap != 0 {
      assert k * delay == (k - 1) * delay + delay;
      assert WholeSecond(t) == t;
      EveryWalk(delay, t, until, cap - 1, k - 1);
      var n := if k < cap then k else cap;
      assert n * delay == (n - 1) * delay + delay;
    }
  }

  lemma {:induction false} Quotient(x: int, d: int, least: nat) returns (k: nat)
    requires d > 0 && x >= least * d
    ensures k >= least && k * d <= x < (k + 1) * d
    decreases x - least * d
  {
    if x < (least + 1) * d {
      k := least;
    } else {
      assert (least + 1) * d == least * d + d;
      k := Quotient(x, d, least + 1);
    }
  }

  /** `@every d` for d under the window over 2000: the cap hides every later slot. */
  lemma ShortDelaysHitTheCap(delay: int, from: Time, until: Time)
    requires delay >= SECOND && delay % SECOND == 0
    requires until - WholeSecond(from) >= SLOT_CAP * delay
    ensures Walk(Every(delay), from, until, SLOT_CAP) == Some(WholeSecond(from) + SLOT_CAP * delay)
  {
    var k := Quotient(until - WholeSecond(from), delay, SLOT_CAP);
    EveryWalk(delay, from, until, SLOT_CAP, k);
  }

  /**
   * A job on `@every 24h` that last ran for at most half an hour is overdue
   * exactly when that run started before the whole second 25 hours ago plus 24
   * hours, so about an hour after each run.
   */
  lemma DailyDelayLooksOverdueAfterAnHour(job: Job, now: Time)
    requires job.plan == Fires(Every(24 * HOUR)) && job.lastDurationMS <= 1_790_000
    ensures SlotUncovered(job, now - 25 * HOUR, now - Grace(job))
       <==> !StartedSince(job, WholeSecond(now - 25 * HOUR) + 24 * HOUR)
  {
    EveryWalk(24 * HOUR, now - 25 * HOUR, now - Grace(job), SLOT_CAP, 1);
  }

  // ---------------------------------------------------------------------------
  // Announcing
  // ---------------------------------------------------------------------------

  /** The stored flag of a job. */
  datatype Flag = Flag(overdue: bool, notified: bool)

  /** One check with its verdict, or the end of a run that clears the flag; `ok` says whether the store took the change. */
  datatype Event = Check(overdue: bool, ok: bool) | Cleared(ok: bool)

  function AfterEvent(f: Flag, e: Event): Flag {
    match e
    case Check(overdue, ok) => if ok then Flag(overdue, overdue) else f
    case Cleared(ok) => if ok then Flag(false, false) else f
  }

  method CheckOverdue(flag: Flag, overdue: bool, ok: bool) returns (after: Flag, announced: bool)
    ensures announced <==> overdue && ok && flag != Flag(true, true)
    ensures after == if flag.overdue == overdue && (overdue ==> flag.notified) then flag
                     else AfterEvent(flag, Check(overdue, ok))
  {
    after, announced := flag, false;
    if overdue == flag.overdue && (!overdue || flag.notified) {
      return;
    }
    if !ok {
      return;
    }
    after := Flag(overdue, overdue);
    announced := overdue;
  }

  function FlagAfter(f: Flag, e: Event): Flag {
    if e.Check? && f.overdue == e.overdue && (e.overdue ==> f.notified) then f else AfterEvent(f, e)
  }

  function Announcements(f: Flag, events: seq<Event>): nat
    decreases |events|
  {
    if events == [] then 0
    else
      var e := events[0];
      (if e.Check? && e.overdue && e.ok && f != Flag(true, true) then 1 else 0)
      + Announcements(FlagAfter(f, e), events[1..])
  }

  /** Stored ends of an overdue spell. */
  function Ends(events: seq<Event>): nat {
    if events == [] then 0
    else (if events[0].ok && (events[0].Cleared? || !events[0].overdue) then 1 else 0) + Ends(events[1..])
  }

  /** However checks, failing stores and run ends interleave, a spell is announced at most once. */
  lemma {:induction false} OneAnnouncementPerSpell(f: Flag, events: seq<Event>)
    ensures Announcements(f, events) <= (if f == Flag(true, true) then 0 else 1) + Ends(events)
    decreases |events|
  {
    if events != [] {
      OneAnnouncementPerSpell(FlagAfter(f, events[0]), events[1..]);
    }
  }
}
