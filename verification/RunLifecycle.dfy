/** The in-memory state of one run: its stages, its warning flag, and how it ends. */
module RunLifecycle {
  import opened Core

  datatype StageStatus = StageRunning | StageSuccess | StageFailed | StageSkipped

  datatype Stage = Stage(name: string, status: StageStatus, message: string)

  datatype Run = Run(
    id: string,
    jobId: string,
    status: RunStatus,
    error: string,
    stages: seq<Stage>,
    artifactIds: seq<nat>)

  datatype ErrorKind = CanceledError | DeadlineError | OtherError

  datatype Error = Error(kind: ErrorKind, text: string)

  /** The state of a run's context: alive, or ended for one of two reasons. */
  datatype Context = Alive | ContextCanceled | ContextDeadline

  /** How a run ends: cancellation wins, then the timeout, then the error, then the warning. */
  function Outcome(ctx: Context, err: Option<Error>, warned: bool): RunStatus {
    if ctx.ContextCanceled? || (err.Some? && err.value.kind.CanceledError?) then Canceled
    else if ctx.ContextDeadline? || (err.Some? && err.value.kind.DeadlineError?) then Failed
    else if err.Some? then Failed
    else if warned then Warning
    else Success
  }

  /** The index of the last running stage of that name, as the stage handle searches for it. */
  function LastRunning(stages: seq<Stage>, name: string): (i: int)
    ensures -1 <= i < |stages|
    ensures i >= 0 ==> stages[i].name == name && stages[i].status.StageRunning?
    ensures forall j :: i < j < |stages| ==> !(stages[j].name == name && stages[j].status.StageRunning?)
  {
    if stages == [] then -1
    else
      var n := |stages| - 1;
      if stages[n].name == name && stages[n].status.StageRunning? then n
      else LastRunning(stages[..n], name)
  }

  lemma LastIsHereOrBefore(stages: seq<Stage>, name: string, i: nat)
    requires LastRunning(stages, name) <= i < |stages|
    ensures if stages[i].name == name && stages[i].status.StageRunning? then LastRunning(stages, name) == i
            else LastRunning(stages, name) <= i - 1
  {
  }

  function CloseStage(s: Stage, message: string): Stage {
    if s.status.StageRunning? then
      Stage(s.name, StageFailed, if s.message == "" then message else s.message)
    else s
  }

  function CloseStages(stages: seq<Stage>, message: string): seq<Stage> {
    seq(|stages|, i requires 0 <= i < |stages| => CloseStage(stages[i], message))
  }

  function TerminalEvents(events: seq<Run>): nat {
    if events == [] then 0
    else TerminalEvents(events[..|events| - 1]) + (if events[|events| - 1].status.Terminal() then 1 else 0)
  }

  class RunState {
    var run: Run
    var warned: bool
    var warnMsg: string
    /** The row last saved in the store; a failed save leaves it behind. */
    var stored: Run
    /** Every snapshot this run put on the bus. */
    var events: seq<Run>

    constructor (r: Run)
      ensures run == r && stored == r && !warned && warnMsg == "" && events == []
    {
      run, stored, warned, warnMsg, events := r, r, false, "", [];
    }

    /** Between `start` and `finish`. */
    ghost predicate Live()
      reads this
    {
      && run.status.Running?
      && !stored.status.Terminal()
      && TerminalEvents(events) == 0
    }

    method Update(next: Run)
      modifies this`run, this`stored, this`events
      ensures run == next && events == old(events) + [next]
      ensures stored == next || stored == old(stored)
    {
      run := next;
      var saved: bool := *;
      if saved {
        stored := next;
      }
      events := events + [next];
    }

    method Start()
      requires run.status.Queued? && !stored.status.Terminal() && TerminalEvents(events) == 0
      modifies this`run, this`stored, this`events
      ensures Live() && run == old(run).(status := Running)
    {
      Update(run.(status := Running));
    }

    method Warn(msg: string)
      modifies this`warned, this`warnMsg
      ensures warned && warnMsg == if old(warnMsg) == "" then msg else old(warnMsg)
    {
      warned := true;
      if warnMsg == "" {
        warnMsg := msg;
      }
    }

    method OpenStage(name: string)
      requires Live()
      modifies this`run, this`stored, this`events
      ensures Live() && run == old(run).(stages := old(run).stages + [Stage(name, StageRunning, "")])
    {
      Update(run.(stages := run.stages + [Stage(name, StageRunning, "")]));
    }

    method SkipStage(name: string, message: string)
      requires Live()
      modifies this`run, this`stored, this`events
      ensures Live() && run == old(run).(stages := old(run).stages + [Stage(name, StageSkipped, message)])
    {
      Update(run.(stages := run.stages + [Stage(name, StageSkipped, message)]));
    }

    /** Settles the last running stage of that name, and no other. */
    method SetStage(name: string, status: StageStatus, message: string)
      requires Live()
      modifies this`run, this`stored, this`events
      ensures Live()
      ensures var i := LastRunning(old(run).stages, name);
              run == if i < 0 then old(run)
                     else old(run).(stages := old(run).stages[i := Stage(name, status, message)])
    {
      var stages := run.stages;
      ghost var last := LastRunning(stages, name);
      hide LastRunning;
      var i := |stages| - 1;
      while i >= 0
        invariant -1 <= i < |stages| && last <= i && stages == run.stages && unchanged(this)
      {
        LastIsHereOrBefore(stages, name, i);
        if stages[i].name == name && stages[i].status.StageRunning? {
          stages := stages[i := Stage(name, status, message)];
          break;
        }
        i := i - 1;
      }
      Update(run.(stages := stages));
    }

    method AddArtifact(id: nat)
      requires Live()
      modifies this`run, this`stored, this`events
      ensures Live() && run == old(run).(artifactIds := old(run).artifactIds + [id])
    {
      Update(run.(artifactIds := run.artifactIds + [id]));
    }

    /** Ends the run: one terminal event, no stage left running, the outcome decided once. */
    method Finish(ctx: Context, err: Option<Error>)
      requires Live()
      modifies this`run, this`stored, this`events
      ensures run.status == Outcome(ctx, err, warned) && run.status.Terminal()
      ensures run.stages == CloseStages(old(run).stages, run.error)
      ensures forall i :: 0 <= i < |run.stages| ==> !run.stages[i].status.StageRunning?
      ensures run.artifactIds == old(run).artifactIds && run.id == old(run).id && run.jobId == old(run).jobId
      ensures events == old(events) + [run] && TerminalEvents(events) == 1
      ensures stored == run || stored == old(stored)
    {
      var status := Outcome(ctx, err, warned);
      var message :=
        if status.Canceled? then "run canceled"
        else if ctx.ContextDeadline? || (err.Some? && err.value.kind.DeadlineError?) then "run timed out"
        else if err.Some? then err.value.text
        else if warned then warnMsg
        else "";
      var stages := run.stages;
      for i := 0 to |stages|
        invariant |stages| == |run.stages|
        invariant forall j :: 0 <= j < i ==> stages[j] == CloseStage(run.stages[j], message)
        invariant forall j :: i <= j < |stages| ==> stages[j] == run.stages[j]
      {
        stages := stages[i := CloseStage(stages[i], message)];
      }
      Update(run.(status := status, error := message, stages := stages));
    }
  }
}
