/** The engine's guarantees over all behaviours. */
module EngineTheorems {
  import opened Core
  import opened EngineProtocol
  import opened EngineSafety
  import opened EngineCounting
  import opened EngineLifecycle

  ghost predicate Invariant(s: State) {
    LocksAreOwned(s) && PlacesAgree(s) && TokensAgree(s) && CounterAgrees(s) && LivesAgree(s)
  }

  lemma InitHolds(s: State)
    requires Init(s)
    ensures Invariant(s)
  {
    assert Holders(s.runs, 0) == {};
    assert Unsent(s.runs) == {};
  }

  lemma CounterStep(s: State, a: Action)
    requires Enabled(s, a) && CounterAgrees(s) && PlacesAgree(s) && LivesAgree(s)
    ensures CounterAgrees(Next(s, a))
  {
    match a
    case Control(c) =>
    case Caller(c) =>
      assert LocalOk(s, c.id);
      CounterStepCaller(s, c);
    case Dispatch(d) => CounterStepDispatcher(s, d);
    case Ingesting(i) => CounterStepIngest(s, i);
    case Execute(x) => CounterStepRun(s, x);
  }

  lemma StepHolds(s: State, a: Action)
    requires Enabled(s, a) && Invariant(s)
    ensures Invariant(Next(s, a))
  {
    LocksStep(s, a);
    PlacesStep(s, a);
    TokensStep(s, a);
    CounterStep(s, a);
    LivesStep(s, a);
  }

  /** The invariant holds in every state of every interleaving. */
  lemma {:induction false} AlwaysHolds(states: seq<State>, actions: seq<Action>, n: nat)
    requires IsBehaviour(states, actions) && n < |states|
    ensures Invariant(states[n])
  {
    hide Invariant, Next, Enabled;
    if n == 0 {
      InitHolds(states[0]);
    } else {
      AlwaysHolds(states, actions, n - 1);
      StepHolds(states[n - 1], actions[n - 1]);
    }
  }

  // ---------------------------------------------------------------------------
  // One run at a time per job
  // ---------------------------------------------------------------------------

  /** Between taking and releasing its lock, a backup, prune or ingest run is the only one of its job. */
  lemma OneRunPerJob(states: seq<State>, actions: seq<Action>, n: nat, a: RunId, b: RunId)
    requires IsBehaviour(states, actions) && n < |states|
    requires a in states[n].runs && b in states[n].runs
    requires OwnsLock(states[n].runs[a]) && OwnsLock(states[n].runs[b])
    requires states[n].runs[a].job == states[n].runs[b].job != ""
    ensures a == b
  {
    AlwaysHolds(states, actions, n);
    assert LocksAreOwned(states[n]);
  }

  /** A held lock always belongs to a run that is being queued, queued, in hand or executing, and that will release it. */
  lemma HeldLockHasALiveOwner(states: seq<State>, actions: seq<Action>, n: nat, job: string)
    requires IsBehaviour(states, actions) && n < |states| && job in states[n].locks
    ensures var owner := states[n].locks[job];
            && owner in states[n].runs && states[n].runs[owner].job == job && OwnsLock(states[n].runs[owner])
            && (states[n].runs[owner].pc.InQueue? <==> owner in states[n].queue)
            && (InHandPc(states[n].runs[owner].pc) ==> HandHolds(states[n].hand, owner))
  {
    AlwaysHolds(states, actions, n);
    assert LocksAreOwned(states[n]);
    assert PlacesAgree(states[n]);
  }

  /** A verify or restore run of the same job passes through every release without freeing the job. */
  lemma OutsiderNeverFrees(states: seq<State>, actions: seq<Action>, n: nat, id: RunId)
    requires IsBehaviour(states, actions) && n < |actions|
    requires id in states[n].runs && !states[n].runs[id].kind.Locks()
    requires actions[n] == Execute(ReleaseJob(id)) || (actions[n] == Dispatch(ReleaseAbandoned) && states[n].hand.id == id)
    ensures states[n + 1].locks == states[n].locks
  {
    AlwaysHolds(states, actions, n);
    assert LocksAreOwned(states[n]);
  }

  lemma {:induction false} CountedOnce(queue: seq<RunId>, id: RunId)
    requires forall i, j :: 0 <= i < j < |queue| ==> queue[i] != queue[j]
    ensures multiset(queue)[id] == if id in queue then 1 else 0
  {
    if queue != [] {
      var (init, last) := (queue[..|queue| - 1], queue[|queue| - 1]);
      CountedOnce(init, id);
      assert queue == init + [last];
    }
  }

  /**
   * An accepted run is at every moment in exactly one place: once in the queue,
   * in the dispatcher's hand, or past both, executing, ended or abandoned.
   */
  lemma AcceptedIsInOnePlace(states: seq<State>, actions: seq<Action>, n: nat, id: RunId)
    requires IsBehaviour(states, actions) && n < |states|
    requires id in states[n].runs && !states[n].runs[id].sending.NotSent?
    ensures var (s, pc) := (states[n], states[n].runs[id].pc);
            && multiset(s.queue)[id] == (if pc.InQueue? then 1 else 0)
            && (HandHolds(s.hand, id) <==> InHandPc(pc))
            && !Unsendable(pc)
  {
    AlwaysHolds(states, actions, n);
    var s := states[n];
    CountedOnce(s.queue, id);
    assert LocalOk(s, id) && PlacesAgree(s);
    assert PcIs(s, id, InQueue) <==> s.runs[id].pc.InQueue?;
  }

  // ---------------------------------------------------------------------------
  // Concurrency and the queued counter
  // ---------------------------------------------------------------------------

  ghost function Executing(s: State): set<RunId> {
    set id | id in s.runs && HoldsToken(s.runs[id].pc)
  }

  /** While the setting never changed, queued and ingest runs together never exceed it. */
  lemma ConcurrencyIsBounded(states: seq<State>, actions: seq<Action>, n: nat)
    requires IsBehaviour(states, actions) && n < |states| && |states[n].caps| == 1
    ensures |Executing(states[n])| <= states[n].caps[0]
  {
    AlwaysHolds(states, actions, n);
    var s := states[n];
    assert TokensAgree(s);
    assert Executing(s) == Holders(s.runs, 0);
  }

  /** Across setting changes every generation keeps its own bound, so no token is ever lost or forged. */
  lemma GenerationsAreBounded(states: seq<State>, actions: seq<Action>, n: nat, g: nat)
    requires IsBehaviour(states, actions) && n < |states| && g < |states[n].caps|
    ensures |states[n].tokens| == |states[n].caps|
    ensures |Holders(states[n].runs, g)| <= states[n].tokens[g] <= states[n].caps[g]
    ensures states[n].tokens[g] == |Holders(states[n].runs, g)| + HandTokens(states[n].hand, g)
  {
    AlwaysHolds(states, actions, n);
    assert TokensAgree(states[n]);
  }

  /** Returning a token never blocks. */
  lemma ReturningNeverBlocks(states: seq<State>, actions: seq<Action>, n: nat, id: RunId)
    requires IsBehaviour(states, actions) && n < |states| && id in states[n].runs
    requires if states[n].runs[id].kind.Ingest? then states[n].runs[id].pc.Unregistered? else states[n].runs[id].pc.JobReleased?
    ensures Enabled(states[n], Execute(ReturnToken(id)))
  {
    AlwaysHolds(states, actions, n);
    var s := states[n];
    assert TokensAgree(s);
    assert id in Holders(s.runs, s.runs[id].gen);
  }

  function QueuedRuns(s: State): int {
    if s.queued < 0 then 0 else s.queued
  }

  /** The reported number of queued runs is exact once no send is waiting to be counted, and otherwise short by those. */
  lemma QueuedRunsIsExact(states: seq<State>, actions: seq<Action>, n: nat)
    requires IsBehaviour(states, actions) && n < |states|
    ensures var s := states[n];
            && s.queued == |s.queue| + HandCounts(s.hand) - |Unsent(s.runs)|
            && |s.queue| <= QUEUE_CAPACITY
            && (Unsent(s.runs) == {} ==> QueuedRuns(s) == |s.queue| + HandCounts(s.hand))
  {
    AlwaysHolds(states, actions, n);
    assert CounterAgrees(states[n]) && PlacesAgree(states[n]);
  }

  // ---------------------------------------------------------------------------
  // Stored status and terminal events
  // ---------------------------------------------------------------------------

  /** A stored status only moves from queued to running to terminal, and a terminal one never changes. */
  ghost predicate Advances(before: map<RunId, RunStatus>, after: map<RunId, RunStatus>, id: RunId) {
    id in before ==>
      && id in after
      && before[id].Rank() <= after[id].Rank()
      && (before[id].Terminal() ==> after[id] == before[id])
  }

  lemma StatusAdvancesCaller(s: State, a: CallerAction, id: RunId)
    requires CallerEnabled(s, a)
    ensures Advances(s.rows, CallerNext(s, a).rows, id)
  {
  }

  lemma StatusAdvancesDispatcher(s: State, a: DispatcherAction, id: RunId)
    requires DispatcherEnabled(s, a) && LocalOk(s, id) && id !in s.reopened
    ensures Advances(s.rows, DispatcherNext(s, a).rows, id)
  {
    hide EndOk;
  }

  lemma StatusAdvancesIngest(s: State, a: IngestAction, id: RunId)
    requires IngestEnabled(s, a) && LocalOk(s, id) && id !in s.reopened
    ensures Advances(s.rows, IngestNext(s, a).rows, id)
  {
    hide EndOk;
  }

  lemma StatusAdvancesRun(s: State, a: RunAction, id: RunId)
    requires RunEnabled(s, a) && LocalOk(s, id) && id !in s.reopened
    ensures Advances(s.rows, RunNext(s, a).rows, id)
  {
    hide EndOk;
  }

  lemma StatusAdvances(s: State, a: Action, id: RunId)
    requires Enabled(s, a) && LivesAgree(s) && id !in s.reopened
    ensures Advances(s.rows, Next(s, a).rows, id)
  {
    assert LocalOk(s, id);
    match a
    case Control(_) =>
    case Caller(c) => StatusAdvancesCaller(s, c, id);
    case Dispatch(d) => StatusAdvancesDispatcher(s, d, id);
    case Ingesting(i) => StatusAdvancesIngest(s, i, id);
    case Execute(x) => StatusAdvancesRun(s, x, id);
  }

  /** In every behaviour, the stored status of a run advances at each step unless a restart has reopened it. */
  lemma StoredStatusAdvances(states: seq<State>, actions: seq<Action>, n: nat, id: RunId)
    requires IsBehaviour(states, actions) && n < |actions| && id !in states[n].reopened
    ensures Advances(states[n].rows, states[n + 1].rows, id)
  {
    AlwaysHolds(states, actions, n);
    hide IsBehaviour;
    StatusAdvances(states[n], actions[n], id);
  }

  lemma CallerReopensNothing(s: State, a: CallerAction)
    requires CallerEnabled(s, a)
    ensures CallerNext(s, a).reopened == s.reopened
  {
  }

  lemma DispatcherReopensNothing(s: State, a: DispatcherAction)
    requires DispatcherEnabled(s, a)
    ensures DispatcherNext(s, a).reopened == s.reopened
  {
  }

  lemma IngestReopensNothing(s: State, a: IngestAction)
    requires IngestEnabled(s, a)
    ensures IngestNext(s, a).reopened == s.reopened
  {
  }

  lemma RunReopensNothing(s: State, a: RunAction)
    requires RunEnabled(s, a)
    ensures RunNext(s, a).reopened == s.reopened
  {
  }

  /** Step `i` is a start that finds the row of `id` unfinished and its run still able to save it. */
  ghost predicate Reopens(states: seq<State>, actions: seq<Action>, i: nat, id: RunId)
    requires i < |actions| < |states|
  {
    && actions[i] == Control(Start)
    && id in states[i].runs && MayStillSave(states[i].runs[id].pc)
    && id in states[i].rows && !states[i].rows[id].Terminal()
  }

  /** Only a start that finds a run still able to save its row reopens one. */
  lemma ReopeningNeedsARestart(states: seq<State>, actions: seq<Action>, n: nat, id: RunId)
    requires IsBehaviour(states, actions) && n < |actions|
    ensures id in states[n + 1].reopened <==> id in states[n].reopened || Reopens(states, actions, n, id)
  {
    hide CallerNext, DispatcherNext, IngestNext, RunNext, CallerEnabled, DispatcherEnabled, IngestEnabled, RunEnabled;
    var s, a := states[n], actions[n];
    match a
    case Control(_) =>
    case Caller(c) => CallerReopensNothing(s, c);
    case Dispatch(d) => DispatcherReopensNothing(s, d);
    case Ingesting(i) => IngestReopensNothing(s, i);
    case Execute(x) => RunReopensNothing(s, x);
  }

  ghost predicate ReopenedBy(states: seq<State>, actions: seq<Action>, n: nat, id: RunId)
    requires n <= |actions| < |states|
  {
    exists i :: 0 <= i < n && Reopens(states, actions, i, id)
  }

  lemma ReopenedByOneMore(states: seq<State>, actions: seq<Action>, n: nat, id: RunId)
    requires n < |actions| < |states|
    ensures ReopenedBy(states, actions, n + 1, id) <==> ReopenedBy(states, actions, n, id) || Reopens(states, actions, n, id)
  {
    hide Reopens;
  }

  /** The runs marked reopened are those some start really caught. */
  lemma {:induction false} ReopenedIsHistory(states: seq<State>, actions: seq<Action>, n: nat, id: RunId)
    requires IsBehaviour(states, actions) && n < |states|
    ensures id in states[n].reopened <==> ReopenedBy(states, actions, n, id)
  {
    hide Next, Enabled, Reopens;
    if n > 0 {
      ReopenedIsHistory(states, actions, n - 1, id);
      ReopeningNeedsARestart(states, actions, n - 1, id);
      ReopenedByOneMore(states, actions, n - 1, id);
    }
  }

  lemma AdvancesOn(first: map<RunId, RunStatus>, middle: map<RunId, RunStatus>, last: map<RunId, RunStatus>, id: RunId)
    requires Advances(first, middle, id) && Advances(middle, last, id)
    ensures Advances(first, last, id)
  {
  }

  /** Between any two moments of a behaviour a run's stored status has only advanced, unless a start caught the run in between. */
  lemma {:induction false} StatusOnlyAdvances(states: seq<State>, actions: seq<Action>, m: nat, n: nat, id: RunId)
    requires IsBehaviour(states, actions) && m <= n < |states| && !ReopenedBy(states, actions, n, id)
    ensures Advances(states[m].rows, states[n].rows, id)
    decreases n
  {
    if m < n {
      ReopenedByOneMore(states, actions, n - 1, id);
      ReopenedIsHistory(states, actions, n - 1, id);
      hide *;
      StatusOnlyAdvances(states, actions, m, n - 1, id);
      StoredStatusAdvances(states, actions, n - 1, id);
      AdvancesOn(states[m].rows, states[n - 1].rows, states[n].rows, id);
    }
  }

  /** The engine is started only while there are no runs, as the server does: once, before it accepts requests. */
  ghost predicate StartsBeforeRuns(states: seq<State>, actions: seq<Action>) {
    |actions| < |states| && forall i :: 0 <= i < |actions| && actions[i] == Control(Start) ==> states[i].runs == map[]
  }

  /** Under the server's use nothing is ever reopened, and every stored status advances from any moment to any later one. */
  lemma ServedStatusOnlyAdvances(states: seq<State>, actions: seq<Action>, m: nat, n: nat, id: RunId)
    requires IsBehaviour(states, actions) && StartsBeforeRuns(states, actions) && m <= n < |states|
    ensures states[n].reopened == {}
    ensures Advances(states[m].rows, states[n].rows, id)
  {
    forall other
      ensures other !in states[n].reopened
    {
      ReopenedIsHistory(states, actions, n, other);
    }
    ReopenedIsHistory(states, actions, n, id);
    hide IsBehaviour;
    StatusOnlyAdvances(states, actions, m, n, id);
  }

  /** Every run that ended put exactly one terminal event on the bus; any other has put none. */
  lemma EndsExactlyOnce(states: seq<State>, actions: seq<Action>, n: nat, id: RunId)
    requires IsBehaviour(states, actions) && n < |states|
    ensures Ends(states[n].bus, id) == if id in states[n].runs && Ended(states[n].runs[id].pc) then 1 else 0
  {
    AlwaysHolds(states, actions, n);
    assert LocalOk(states[n], id);
  }

  /** `Cancel` and `IsRunning` find exactly the runs between registration and the end. */
  lemma CancelFindsTheExecuting(states: seq<State>, actions: seq<Action>, n: nat, id: RunId)
    requires IsBehaviour(states, actions) && n < |states|
    ensures id in states[n].cancels <==> id in states[n].runs && Cancelable(states[n].runs[id].pc)
  {
    AlwaysHolds(states, actions, n);
    assert LocalOk(states[n], id);
  }

  lemma RestartFailsAWaitingRow(s: State, id: RunId)
    requires Invariant(s) && !s.running && s.hand == Stopped && id !in s.reopened
    requires PcIs(s, id, Waiting) && TokenFree(s, s.runs[id].gen)
    ensures id in s.rows && s.rows[id] == Queued
    ensures var t := ControlNext(s, Start);
            && id in t.rows && t.rows[id] == Failed
            && PcIs(t, id, Waiting) && TokenFree(t, t.runs[id].gen)
  {
    assert LocalOk(s, id);
    hide Invariant, LivesAgree, PlacesAgree, TokensAgree, CounterAgrees, LocksAreOwned, LocalOk;
  }

  /** A waiting ingest call that gets its slot stores its run as running, whatever its row said. */
  lemma WaitingRunStarts(t: State, id: RunId)
    requires PcIs(t, id, Waiting) && TokenFree(t, t.runs[id].gen) && id in t.rows
    ensures Enabled(t, Ingesting(AcquireIngest(id)))
    ensures var t2 := Next(t, Ingesting(AcquireIngest(id)));
            && Enabled(t2, Execute(Register(id)))
            && var t3 := Next(t2, Execute(Register(id)));
            && Enabled(t3, Execute(SaveStart(id, true)))
            && var t4 := Next(t3, Execute(SaveStart(id, true)));
            && id in t4.rows && t4.rows[id] == Running
  {
    hide ControlNext, CallerNext, DispatcherNext, ControlEnabled, CallerEnabled, DispatcherEnabled;
  }

  /**
   * Stopping and starting again while an ingest call still waits for a worker slot: recovery stores its run
   * as failed, the call then gets its slot, and the stored status goes back from failed to running.
   */
  lemma RestartReopensAWaitingRun(t: State, id: RunId)
    requires Invariant(t) && !t.running && t.hand == Stopped && id !in t.reopened
    requires PcIs(t, id, Waiting) && TokenFree(t, t.runs[id].gen)
    ensures MayStillSave(t.runs[id].pc) && id in t.rows && t.rows[id] == Queued
    ensures Enabled(t, Control(Start))
    ensures var t1 := Next(t, Control(Start));
            && id in t1.rows && t1.rows[id] == Failed && Enabled(t1, Ingesting(AcquireIngest(id)))
            && var t2 := Next(t1, Ingesting(AcquireIngest(id)));
            && Enabled(t2, Execute(Register(id)))
            && var t3 := Next(t2, Execute(Register(id)));
            && Enabled(t3, Execute(SaveStart(id, true)))
            && var t4 := Next(t3, Execute(SaveStart(id, true)));
            && id in t4.rows && t4.rows[id] == Running
  {
    RestartFailsAWaitingRow(t, id);
    hide Invariant, ControlNext, CallerNext, DispatcherNext, IngestNext, RunNext;
    assert Next(t, Control(Start)) == ControlNext(t, Start);
    WaitingRunStarts(ControlNext(t, Start), id);
    hide Next, Enabled, TokenFree;
  }

  lemma Extended(states: seq<State>, actions: seq<Action>, a: Action) returns (more: seq<State>, acts: seq<Action>)
    requires IsBehaviour(states, actions) && Enabled(states[|actions|], a)
    ensures acts == actions + [a] && more == states + [Next(states[|actions|], a)]
    ensures IsBehaviour(more, acts)
  {
    acts := actions + [a];
    more := states + [Next(states[|actions|], a)];
    hide Next, Enabled, Init;
  }

  lemma NoStepYet(s: State)
    requires Init(s)
    ensures IsBehaviour([s], [])
  {
  }

  /** An engine that holds nothing but one run, at rest between dispatches. */
  ghost predicate Alone(t: State, id: RunId, run: Run, running: bool) {
    && t.running == running && t.shutdown == !running && t.hand == Idle && t.reopened == {}
    && t.runs == map[id := run] && t.caps == [2] && t.tokens == [0]
    && (run.pc in {New, Locked} ==> id !in t.rows && t.locks.Keys <= {run.job})
    && (run.pc.New? ==> t.locks == map[])
  }

  lemma AloneEnters(s: State, id: RunId, job: string)
    requires Init(s) && id !in s.rows
    ensures Enabled(s, Control(Start))
    ensures var t := Next(s, Control(Start));
            && Enabled(t, Caller(NewRun(id, job, Ingest)))
            && Alone(Next(t, Caller(NewRun(id, job, Ingest))), id, Run(job, Ingest, New, NotSent, 0, Queued), true)
  {
    hide DispatcherNext, IngestNext, RunNext, DispatcherEnabled, IngestEnabled, RunEnabled;
    hide Unfinished, MayStillSave;
  }

  lemma AloneQueues(t: State, id: RunId, run: Run, pc: Pc, a: Action)
    requires Alone(t, id, run, true) && run.kind.Ingest?
    requires || (run.pc.New? && pc.Locked? && a == Caller(TryLock(id)))
             || (run.pc.Locked? && pc.Created? && a == Caller(CreateRow(id, true)))
    ensures Enabled(t, a) && Alone(Next(t, a), id, run.(pc := pc), true)
  {
    hide ControlNext, DispatcherNext, IngestNext, RunNext, DispatcherEnabled, IngestEnabled, RunEnabled, ControlEnabled;
  }

  lemma AloneWaits(t: State, id: RunId, run: Run, pc: Pc, a: Action)
    requires Alone(t, id, run, true) && run.kind.Ingest? && run.gen == 0
    requires || (run.pc.Created? && pc.Announced? && a == Ingesting(TellIngest(id)))
             || (run.pc.Announced? && pc.Waiting? && a == Ingesting(ChooseIngestSem(id)))
    ensures Enabled(t, a) && Alone(Next(t, a), id, run.(pc := pc), true)
  {
    hide ControlNext, CallerNext, DispatcherNext, RunNext, CallerEnabled, DispatcherEnabled, RunEnabled, ControlEnabled;
  }

  lemma AloneStops(t: State, id: RunId, run: Run)
    requires Alone(t, id, run, true) && run.pc.Waiting? && run.gen == 0
    ensures Enabled(t, Control(Stop)) && Enabled(Next(t, Control(Stop)), Dispatch(StopDispatch))
    ensures var u := Next(Next(t, Control(Stop)), Dispatch(StopDispatch));
            && !u.running && u.hand == Stopped && u.reopened == {}
            && PcIs(u, id, Waiting) && TokenFree(u, u.runs[id].gen)
  {
    hide CallerNext, IngestNext, RunNext, CallerEnabled, IngestEnabled, RunEnabled;
  }

  /** From any store, an ingest call can be left waiting for its slot by a stopped engine. */
  lemma StoppedWhileWaiting(s: State, id: RunId, job: string) returns (states: seq<State>, actions: seq<Action>)
    requires Init(s) && id !in s.rows
    ensures |actions| == 8 && IsBehaviour(states, actions) && states[0] == s
    ensures var t := states[8];
            && !t.running && t.hand == Stopped && t.reopened == {}
            && PcIs(t, id, Waiting) && TokenFree(t, t.runs[id].gen)
  {
    hide IsBehaviour, Next, Enabled, Alone, Init;
    states, actions := [s], [];
    NoStepYet(s);
    AloneEnters(s, id, job);
    states, actions := Extended(states, actions, Control(Start));
    states, actions := Extended(states, actions, Caller(NewRun(id, job, Ingest)));
    var run := Run(job, Ingest, New, NotSent, 0, Queued);
    AloneQueues(states[2], id, run, Locked, Caller(TryLock(id)));
    states, actions := Extended(states, actions, Caller(TryLock(id)));
    AloneQueues(states[3], id, run.(pc := Locked), Created, Caller(CreateRow(id, true)));
    states, actions := Extended(states, actions, Caller(CreateRow(id, true)));
    AloneWaits(states[4], id, run.(pc := Created), Announced, Ingesting(TellIngest(id)));
    states, actions := Extended(states, actions, Ingesting(TellIngest(id)));
    AloneWaits(states[5], id, run.(pc := Announced), Waiting, Ingesting(ChooseIngestSem(id)));
    states, actions := Extended(states, actions, Ingesting(ChooseIngestSem(id)));
    AloneStops(states[6], id, run.(pc := Waiting));
    states, actions := Extended(states, actions, Control(Stop));
    states, actions := Extended(states, actions, Dispatch(StopDispatch));
  }

  /** A behaviour of the engine, from its initial state, in which a stored status goes back from failed to running. */
  lemma RestartBreaksTheOrder(s: State, id: RunId, job: string) returns (states: seq<State>, actions: seq<Action>)
    requires Init(s) && id !in s.rows
    ensures |actions| == 12 && IsBehaviour(states, actions) && states[0] == s
    ensures Reopens(states, actions, 8, id)
    ensures id in states[9].rows && states[9].rows[id] == Failed
    ensures id in states[12].rows && states[12].rows[id] == Running
  {
    states, actions := StoppedWhileWaiting(s, id, job);
    AlwaysHolds(states, actions, 8);
    RestartReopensAWaitingRun(states[8], id);
    hide IsBehaviour, Invariant, Next, Enabled, Init, TokenFree, MayStillSave;
    states, actions := Extended(states, actions, Control(Start));
    states, actions := Extended(states, actions, Ingesting(AcquireIngest(id)));
    states, actions := Extended(states, actions, Execute(Register(id)));
    states, actions := Extended(states, actions, Execute(SaveStart(id, true)));
  }

  lemma OthersUntouched(s: State, t: State, actor: RunId, id: RunId)
    requires Touches(s, t, actor) && actor != id && id in s.runs && id in s.rows
    ensures id in t.rows && t.rows[id] == s.rows[id] && id in t.runs && t.runs[id] == s.runs[id]
  {
  }

  /** A caller whose task is refused leaves its row as it is, queued: only a restart ever settles it. */
  lemma RefusedRowStaysQueued(s: State, id: RunId, a: Action)
    requires Invariant(s) && PcIs(s, id, Refused) && id in s.rows && Enabled(s, a) && a != Control(Start)
    ensures var t := Next(s, a);
            id in t.rows && t.rows[id] == s.rows[id] && PcIs(t, id, Refused)
  {
    hide Touches, TokensAgree, CounterAgrees, LocksAreOwned;
    assert LocalOk(s, id);
    match a
    case Control(_) =>
    case Caller(c) =>
      CallerTouches(s, c);
      OthersUntouched(s, CallerNext(s, c), c.id, id);
    case Dispatch(d) =>
      if !d.StopDispatch? {
        DispatcherTouches(s, d);
        DispatcherHoldsUnstarted(s, d);
        OthersUntouched(s, DispatcherNext(s, d), Mover(s, d), id);
      }
    case Ingesting(i) =>
      IngestTouches(s, i);
      OthersUntouched(s, IngestNext(s, i), i.id, id);
    case Execute(x) =>
      RunTouches(s, x);
      OthersUntouched(s, RunNext(s, x), x.id, id);
  }
}
