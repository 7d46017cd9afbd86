/** Fire times of a schedule, the capped search for the latest one, and the decisions that rest on it. */
module Schedule {
  import opened Core

  const SECOND: int := 1_000_000_000
  const MINUTE := 60 * SECOND
  const HOUR := 60 * MINUTE
  /** How far ahead the cron library looks at least before it gives up. */
  const HORIZON := 4 * 365 * 24 * HOUR
  const SLOT_CAP: nat := 2000

  /** The fire time a schedule gives after a moment; none stands for the zero time. */
  type Next = Time -> Option<Time>

  /** `next` gives the least moment of `fires` strictly after its argument. */
  ghost predicate Gives(next: Next, fires: iset<Time>) {
    forall t :: match next(t)
                case Some(n) => t < n && n in fires && (forall u :: t < u < n ==> u !in fires)
                case None => forall u :: t < u <= t + HORIZON ==> u !in fires
  }

  /** The fire times in (from, until], ascending. */
  ghost predicate FiresIn(fires: iset<Time>, from: Time, until: Time, ts: seq<Time>) {
    && (forall i, j :: 0 <= i < j < |ts| ==> ts[i] < ts[j])
    && (forall t :: t in ts <==> t in fires && from < t <= until)
  }

  // ---------------------------------------------------------------------------
  // The capped search
  // ---------------------------------------------------------------------------

  /** The last of at most `cap` fire times reached from `from` without passing `until`. */
  function Walk(next: Next, from: Time, until: Time, cap: nat): Option<Time>
    decreases cap
  {
    match next(from)
    case Some(t) =>
      if cap == 0 || t > until then None
      else if Walk(next, t, until, cap - 1).None? then Some(t)
      else Walk(next, t, until, cap - 1)
    case None => None
  }

  method PreviousSlot(next: Next, from: Time, until: Time) returns (last: Option<Time>)
    ensures last == Walk(next, from, until, SLOT_CAP)
  {
    var cursor := from;
    last := None;
    for i := 0 to SLOT_CAP
      invariant Walk(next, from, until, SLOT_CAP)
             == if Walk(next, cursor, until, SLOT_CAP - i).None? then last else Walk(next, cursor, until, SLOT_CAP - i)
    {
      match next(cursor) {
        case None =>
          return;
        case Some(t) =>
          if t > until {
            return;
          }
          last := Some(t);
          cursor := t;
      }
    }
  }

  method NextRuns(next: Next, from: Time, count: nat) returns (out: seq<Time>)
    ensures |out| <= count
    ensures forall fires :: Gives(next, fires) ==> FiresIn(fires, from, if out == [] then from else out[|out| - 1], out)
    ensures |out| < count ==> next(if out == [] then from else out[|out| - 1]).None?
  {
    out := [];
    var cursor := from;
    for i := 0 to count
      invariant |out| == i && cursor == if out == [] then from else out[|out| - 1]
      invariant forall fires :: Gives(next, fires) ==> from <= cursor && FiresIn(fires, from, cursor, out)
    {
      match next(cursor) {
        case None =>
          return;
        case Some(t) =>
          forall fires | Gives(next, fires)
            ensures from <= t && FiresIn(fires, from, t, out + [t])
          {
            ExtendFires(next, fires, from, cursor, out, t);
          }
          cursor := t;
          out := out + [t];
      }
    }
  }

  lemma FireBounds(fires: iset<Time>, from: Time, until: Time, ts: seq<Time>, k: nat)
    requires FiresIn(fires, from, until, ts) && k < |ts|
    ensures ts[k] in fires && from < ts[k] <= until
  {
    assert ts[k] in ts;
  }

  lemma ExtendFires(next: Next, fires: iset<Time>, from: Time, cursor: Time, ts: seq<Time>, t: Time)
    requires Gives(next, fires) && from <= cursor && FiresIn(fires, from, cursor, ts) && next(cursor) == Some(t)
    ensures FiresIn(fires, from, t, ts + [t])
  {
    forall k | 0 <= k < |ts|
      ensures ts[k] < t
    {
      FireBounds(fires, from, cursor, ts, k);
    }
    forall u
      ensures u in ts + [t] <==> u in ts || u == t
    {
    }
  }

  // ---------------------------------------------------------------------------
  // What the search finds
  // ---------------------------------------------------------------------------

  lemma FirstFire(next: Next, fires: iset<Time>, from: Time, until: Time, ts: seq<Time>)
    requires Gives(next, fires) && FiresIn(fires, from, until, ts) && until - from <= HORIZON
    ensures ts == [] ==> next(from).None? || next(from).value > until
    ensures ts != [] ==> next(from) == Some(ts[0]) && FiresIn(fires, ts[0], until, ts[1..])
  {
    if ts != [] {
      assert ts[0] in ts;
      assert forall u :: u in ts ==> u >= ts[0];
      assert next(from).Some? && next(from).value <= ts[0];
      assert next(from).value in ts;
      assert forall u :: u in ts[1..] <==> u in ts && u != ts[0];
    }
  }

  /** The search returns the fire time numbered min(count, cap) of those in the window. */
  lemma {:induction false} WalkCounts(next: Next, fires: iset<Time>, from: Time, until: Time, cap: nat, ts: seq<Time>)
    requires Gives(next, fires) && FiresIn(fires, from, until, ts) && until - from <= HORIZON
    ensures Walk(next, from, until, cap)
         == if ts == [] || cap == 0 then None else Some(ts[(if |ts| < cap then |ts| else cap) - 1])
    decreases cap
  {
    FirstFire(next, fires, from, until, ts);
    if ts != [] && cap != 0 {
      WalkCounts(next, fires, ts[0], until, cap - 1, ts[1..]);
    }
  }

  lemma {:induction false} ListFires(next: Next, fires: iset<Time>, from: Time, until: Time) returns (ts: seq<Time>)
    requires Gives(next, fires) && until - from <= HORIZON
    ensures FiresIn(fires, from, until, ts)
    decreases until - from
  {
    match next(from)
    case Some(t) =>
      if t > until {
        ts := [];
      } else {
        var rest := ListFires(next, fires, t, until);
        ts := [t] + rest;
        forall k | 0 <= k < |rest|
          ensures t < rest[k]
        {
          FireBounds(fires, t, until, rest, k);
        }
        forall u
          ensures u in ts <==> u == t || u in rest
        {
          InPrepended(t, rest, u);
        }
      }
    case None => ts := [];
  }

  lemma InPrepended(t: Time, rest: seq<Time>, u: Time)
    ensures u in [t] + rest <==> u == t || u in rest
  {
    var ts := [t] + rest;
    assert ts[0] == t && forall k :: 0 <= k < |rest| ==> rest[k] == ts[k + 1];
  }

  /** `slot` is the greatest fire time in (from, until]; none if there is none. */
  ghost predicate IsLatest(fires: iset<Time>, from: Time, until: Time, slot: Option<Time>) {
    match slot
    case Some(t) => t in fires && from < t <= until && (forall u :: t < u <= until ==> u !in fires)
    case None => forall u :: from < u <= until ==> u !in fires
  }

  /** The search is right exactly when its cap covers the window. */
  lemma SearchIsRightExactlyUpToTheCap(next: Next, fires: iset<Time>, from: Time, until: Time, ts: seq<Time>)
    requires Gives(next, fires) && FiresIn(fires, from, until, ts) && until - from <= HORIZON
    ensures IsLatest(fires, from, until, Walk(next, from, until, SLOT_CAP)) <==> |ts| <= SLOT_CAP
  {
    WalkCounts(next, fires, from, until, SLOT_CAP, ts);
    hide Walk, Gives;
    if ts != [] {
      var last := ts[|ts| - 1];
      FireBounds(fires, from, until, ts, |ts| - 1);
      if |ts| > SLOT_CAP {
        assert ts[SLOT_CAP - 1] < last;
      } else {
        LastFireIsLatest(fires, from, until, ts);
      }
    }
  }

  lemma LastFireIsLatest(fires: iset<Time>, from: Time, until: Time, ts: seq<Time>)
    requires FiresIn(fires, from, until, ts) && ts != []
    ensures IsLatest(fires, from, until, Some(ts[|ts| - 1]))
  {
    FireBounds(fires, from, until, ts, |ts| - 1);
    var last := ts[|ts| - 1];
    forall u | u in fires && from < u <= until
      ensures u <= last
    {
      assert u in ts;
      var k :| 0 <= k < |ts| && ts[k] == u;
      assert k == |ts| - 1 || ts[k] < last;
    }
  }

  ghost predicate AtMostOncePer(fires: iset<Time>, gap: int) {
    forall a, b :: a in fires && b in fires && a < b ==> b - a >= gap
  }

  lemma {:induction false} SpacedFiresAreFew(fires: iset<Time>, from: Time, until: Time, gap: int, ts: seq<Time>)
    requires gap > 0 && AtMostOncePer(fires, gap) && FiresIn(fires, from, until, ts) && ts != []
    ensures (|ts| - 1) * gap <= ts[|ts| - 1] - ts[0]
    decreases |ts|
  {
    if |ts| > 1 {
      var shorter := ts[..|ts| - 1];
      var until' := ts[|ts| - 2];
      assert ts[|ts| - 1] in ts && ts[|ts| - 2] in ts;
      assert FiresIn(fires, from, until', shorter) by {
        assert forall u :: u in ts && u != ts[|ts| - 1] ==> u in shorter;
        assert forall u :: u in shorter ==> u in ts;
        assert forall u :: u in fires && from < u <= until' ==> u in ts;
      }
      SpacedFiresAreFew(fires, from, until', gap, shorter);
      assert (|ts| - 1) * gap == (|shorter| - 1) * gap + gap;
      assert ts[|ts| - 1] - ts[|ts| - 2] >= gap;
    }
  }

  /** A schedule that fires at most once a minute has at most 1500 fires in 25 hours: the search finds the latest. */
  lemma MinuteSchedulesAreSearchedFully(next: Next, fires: iset<Time>, from: Time, until: Time)
    requires Gives(next, fires) && AtMostOncePer(fires, MINUTE) && until - from <= 25 * HOUR
    ensures IsLatest(fires, from, until, Walk(next, from, until, SLOT_CAP))
  {
    var ts := ListFires(next, fires, from, until);
    if ts != [] {
      SpacedFiresAreFew(fires, from, until, MINUTE, ts);
      assert ts[0] in ts && ts[|ts| - 1] in ts;
      assert |ts| <= 1500;
    }
    SearchIsRightExactlyUpToTheCap(next, fires, from, until, ts);
  }
}
