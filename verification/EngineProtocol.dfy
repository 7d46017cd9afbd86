/**
 * The run engine as an interleaving of atomic steps: one per critical section,
 * channel operation, counter update, store write or published event.
 */
module EngineProtocol {
  import opened Core

  const QUEUE_CAPACITY := 256

  type RunId = nat

  datatype Kind = Backup | Prune | Verify | Restore | Ingest
  {
    /** Verify and restore runs carry a job id but never take its lock. */
    predicate Locks() {
      Backup? || Prune? || Ingest?
    }
  }

  /** Where a run is, from its creation to its end. */
  datatype Pc =
    // the caller, before it is accepted
    | New | Locked | Created | Allowed | Refusing | Refused
    // an accepted task
    | InQueue | InHand | Spawned
    // an ingest run, on its caller's thread
    | Announced | Waiting | Holding | GivingUp | GaveUpSaved | GaveUpPublished
    // executing
    | Registered | StartSaved | Body | EndSaved | EndPublished | Unregistered
    // after the end: a task releases the job and then its token, an ingest run the other way round
    | JobReleased | TokenReturned | Done
    // dropped at shutdown
    | Dropping | AbandonSaved | AbandonReleased | Abandoned

  /** The caller's own progress after its task entered the queue. */
  datatype Sending = NotSent | Sent | Counted | Told

  datatype Run = Run(job: string, kind: Kind, pc: Pc, sending: Sending, gen: nat, result: RunStatus)

  datatype Dispatcher =
    | Idle
    | Took(id: RunId)
    | Chose(id: RunId, gen: nat)
    | Acquired(id: RunId, gen: nat)
    | Discounted(id: RunId, gen: nat)
    | Aborting(id: RunId)
    | Abandoning(id: RunId)
    | Stopped

  datatype Event = Event(id: RunId, status: RunStatus)

  datatype State = State(
    running: bool,
    shutdown: bool,
    runs: map<RunId, Run>,
    locks: map<string, RunId>,
    queue: seq<RunId>,
    hand: Dispatcher,
    queued: int,
    caps: seq<nat>,
    tokens: seq<nat>,
    cancels: set<RunId>,
    rows: map<RunId, RunStatus>,
    bus: seq<Event>,
    reopened: set<RunId>)

  /** A fresh engine over a store that may hold rows of an earlier process. */
  ghost predicate Init(s: State) {
    && !s.running && s.shutdown
    && s.runs == map[] && s.locks == map[] && s.queue == [] && s.hand == Stopped
    && s.queued == 0 && s.caps == [2] && s.tokens == [0]
    && s.cancels == {} && s.bus == [] && s.reopened == {}
  }

  // ---------------------------------------------------------------------------
  // The critical sections
  // ---------------------------------------------------------------------------

  function LockFree(locks: map<string, RunId>, job: string): bool {
    job == "" || job !in locks
  }

  function WithLock(locks: map<string, RunId>, job: string, id: RunId): map<string, RunId> {
    if job == "" then locks else locks[job := id]
  }

  /** Only the owner's release frees a job. */
  function WithoutLock(locks: map<string, RunId>, job: string, id: RunId): map<string, RunId> {
    if job != "" && job in locks && locks[job] == id then locks - {job} else locks
  }

  function Saved(rows: map<RunId, RunStatus>, id: RunId, status: RunStatus, ok: bool): map<RunId, RunStatus> {
    if ok && id in rows then rows[id := status] else rows
  }

  function At(s: State, id: RunId, pc: Pc): State
    requires id in s.runs
  {
    s.(runs := s.runs[id := s.runs[id].(pc := pc)])
  }

  function Concurrency(n: int): nat {
    if n <= 0 then 2 else n
  }

  /** A run at this point may write its row again. */
  predicate MayStillSave(pc: Pc) {
    pc in {Created, Allowed, InQueue, InHand, Spawned, Announced, Waiting, Holding, GivingUp, Registered, StartSaved, Body, Dropping}
  }

  /** Rows a restart finds unfinished. */
  ghost function Unfinished(rows: map<RunId, RunStatus>): set<RunId> {
    set id | id in rows && !rows[id].Terminal()
  }

  predicate PcIs(s: State, id: RunId, pc: Pc) {
    id in s.runs && s.runs[id].pc == pc
  }

  predicate IsIngest(s: State, id: RunId) {
    id in s.runs && s.runs[id].kind.Ingest?
  }

  predicate TokenFree(s: State, gen: nat) {
    gen < |s.caps| && gen < |s.tokens| && s.tokens[gen] < s.caps[gen]
  }

  // ---------------------------------------------------------------------------
  // Starting, stopping, settings
  // ---------------------------------------------------------------------------

  datatype ControlAction = Start | Stop | SetConcurrency(n: int)

  ghost predicate ControlEnabled(s: State, a: ControlAction) {
    match a
    case Start => !s.running && s.hand == Stopped
    case Stop => s.running
    case SetConcurrency(_) => true
  }

  ghost function ControlNext(s: State, a: ControlAction): State
    requires ControlEnabled(s, a)
  {
    match a
    case Start =>
      // recovery marks every unfinished row failed before the dispatcher starts
      s.(running := true, shutdown := false, hand := Idle,
         rows := map id | id in s.rows :: if s.rows[id].Terminal() then s.rows[id] else Failed,
         reopened := s.reopened + set id | id in Unfinished(s.rows) && id in s.runs && MayStillSave(s.runs[id].pc))
    case Stop => s.(running := false, shutdown := true)
    case SetConcurrency(n) =>
      if s.caps != [] && s.caps[|s.caps| - 1] == Concurrency(n) then s
      else s.(caps := s.caps + [Concurrency(n)], tokens := s.tokens + [0])
  }

  // ---------------------------------------------------------------------------
  // Callers that queue a task
  // ---------------------------------------------------------------------------

  datatype CallerAction =
    | NewRun(id: RunId, job: string, kind: Kind)
    | TryLock(id: RunId)
    | CreateRow(id: RunId, ok: bool)
    | ReadRunning(id: RunId)
    | Send(id: RunId)
    | CountSent(id: RunId)
    | TellQueued(id: RunId)
    | Refuse(id: RunId)

  ghost predicate CallerEnabled(s: State, a: CallerAction) {
    match a
    case NewRun(id, _, _) => id !in s.runs && id !in s.rows
    case TryLock(id) => PcIs(s, id, New)
    case CreateRow(id, _) => PcIs(s, id, Locked) && id !in s.rows
    case ReadRunning(id) => PcIs(s, id, Created) && !IsIngest(s, id)
    case Send(id) => PcIs(s, id, Allowed)
    case CountSent(id) => id in s.runs && s.runs[id].sending == Sent
    case TellQueued(id) => id in s.runs && s.runs[id].sending == Counted
    case Refuse(id) => PcIs(s, id, Refusing)
  }

  ghost function CallerNext(s: State, a: CallerAction): State
    requires CallerEnabled(s, a)
  {
    match a
    case NewRun(id, job, kind) =>
      s.(runs := s.runs[id := Run(job, kind, New, NotSent, 0, Queued)])
    case TryLock(id) =>
      var r := s.runs[id];
      if !r.kind.Locks() then At(s, id, Locked)
      else if LockFree(s.locks, r.job) then At(s.(locks := WithLock(s.locks, r.job, id)), id, Locked)
      else At(s, id, Refused)
    case CreateRow(id, ok) =>
      if ok then At(s.(rows := s.rows[id := Queued]), id, Created) else At(s, id, Refusing)
    case ReadRunning(id) => At(s, id, if s.running then Allowed else Refusing)
    case Send(id) =>
      if |s.queue| < QUEUE_CAPACITY then
        s.(queue := s.queue + [id], runs := s.runs[id := s.runs[id].(pc := InQueue, sending := Sent)])
      else At(s, id, Refusing)
    case CountSent(id) => s.(queued := s.queued + 1, runs := s.runs[id := s.runs[id].(sending := Counted)])
    case TellQueued(id) => s.(bus := s.bus + [Event(id, Queued)], runs := s.runs[id := s.runs[id].(sending := Told)])
    case Refuse(id) =>
      At(s.(locks := if s.runs[id].kind.Locks() then WithoutLock(s.locks, s.runs[id].job, id) else s.locks), id, Refused)
  }

  // ---------------------------------------------------------------------------
  // The dispatcher
  // ---------------------------------------------------------------------------

  datatype DispatcherAction =
    | Take | ChooseSem | Acquire | Discount | Spawn
    | NoticeShutdown | DiscountAborted | SaveAbandoned(ok: bool) | ReleaseAbandoned | TellAbandoned
    | StopDispatch

  ghost predicate DispatcherEnabled(s: State, a: DispatcherAction) {
    match a
    case Take => s.hand == Idle && s.queue != [] && s.queue[0] in s.runs
    case ChooseSem => s.hand.Took? && s.caps != []
    case Acquire => s.hand.Chose? && TokenFree(s, s.hand.gen)
    case Discount => s.hand.Acquired?
    case Spawn => s.hand.Discounted? && PcIs(s, s.hand.id, InHand)
    case NoticeShutdown => s.hand.Chose? && s.shutdown && PcIs(s, s.hand.id, InHand)
    case DiscountAborted => s.hand.Aborting?
    case SaveAbandoned(_) => s.hand.Abandoning? && PcIs(s, s.hand.id, Dropping)
    case ReleaseAbandoned => s.hand.Abandoning? && PcIs(s, s.hand.id, AbandonSaved)
    case TellAbandoned => s.hand.Abandoning? && PcIs(s, s.hand.id, AbandonReleased)
    case StopDispatch => s.hand == Idle && s.shutdown
  }

  ghost function DispatcherNext(s: State, a: DispatcherAction): State
    requires DispatcherEnabled(s, a)
  {
    match a
    case Take => At(s.(queue := s.queue[1..], hand := Took(s.queue[0])), s.queue[0], InHand)
    case ChooseSem => s.(hand := Chose(s.hand.id, |s.caps| - 1))
    case Acquire => s.(tokens := s.tokens[s.hand.gen := s.tokens[s.hand.gen] + 1], hand := Acquired(s.hand.id, s.hand.gen))
    case Discount => s.(queued := s.queued - 1, hand := Discounted(s.hand.id, s.hand.gen))
    case Spawn => s.(hand := Idle, runs := s.runs[s.hand.id := s.runs[s.hand.id].(pc := Spawned, gen := s.hand.gen)])
    case NoticeShutdown => At(s.(hand := Aborting(s.hand.id)), s.hand.id, Dropping)
    case DiscountAborted => s.(queued := s.queued - 1, hand := Abandoning(s.hand.id))
    case SaveAbandoned(ok) => At(s.(rows := Saved(s.rows, s.hand.id, Failed, ok)), s.hand.id, AbandonSaved)
    case ReleaseAbandoned =>
      At(s.(locks := WithoutLock(s.locks, s.runs[s.hand.id].job, s.hand.id)), s.hand.id, AbandonReleased)
    case TellAbandoned => At(s.(bus := s.bus + [Event(s.hand.id, Failed)], hand := Stopped), s.hand.id, Abandoned)
    case StopDispatch => s.(hand := Stopped)
  }

  // ---------------------------------------------------------------------------
  // Ingest callers, which wait for a token themselves
  // ---------------------------------------------------------------------------

  datatype IngestAction =
    | TellIngest(id: RunId)
    | ChooseIngestSem(id: RunId)
    | AcquireIngest(id: RunId)
    | GiveUp(id: RunId)
    | SaveGivenUp(id: RunId, ok: bool)
    | TellGivenUp(id: RunId)

  ghost predicate IngestEnabled(s: State, a: IngestAction) {
    match a
    case TellIngest(id) => PcIs(s, id, Created) && IsIngest(s, id)
    case ChooseIngestSem(id) => PcIs(s, id, Announced) && s.caps != []
    case AcquireIngest(id) => PcIs(s, id, Waiting) && TokenFree(s, s.runs[id].gen)
    case GiveUp(id) => PcIs(s, id, Waiting)
    case SaveGivenUp(id, _) => PcIs(s, id, GivingUp)
    case TellGivenUp(id) => PcIs(s, id, GaveUpSaved)
  }

  ghost function IngestNext(s: State, a: IngestAction): State
    requires IngestEnabled(s, a)
  {
    match a
    case TellIngest(id) => At(s.(bus := s.bus + [Event(id, Queued)]), id, Announced)
    case ChooseIngestSem(id) => s.(runs := s.runs[id := s.runs[id].(pc := Waiting, gen := |s.caps| - 1)])
    case AcquireIngest(id) => At(s.(tokens := s.tokens[s.runs[id].gen := s.tokens[s.runs[id].gen] + 1]), id, Holding)
    case GiveUp(id) => At(s, id, GivingUp)
    case SaveGivenUp(id, ok) => At(s.(rows := Saved(s.rows, id, Failed, ok)), id, GaveUpSaved)
    case TellGivenUp(id) => At(s.(bus := s.bus + [Event(id, Failed)]), id, GaveUpPublished)
  }

  // ---------------------------------------------------------------------------
  // Executing a run
  // ---------------------------------------------------------------------------

  datatype RunAction =
    | Register(id: RunId)
    | SaveStart(id: RunId, ok: bool)
    | TellStart(id: RunId)
    | Work(id: RunId, ok: bool)
    | SaveEnd(id: RunId, status: RunStatus, ok: bool)
    | TellEnd(id: RunId)
    | Unregister(id: RunId)
    | ReleaseJob(id: RunId)
    | ReturnToken(id: RunId)

  ghost predicate RunEnabled(s: State, a: RunAction) {
    match a
    case Register(id) => PcIs(s, id, Spawned) || PcIs(s, id, Holding)
    case SaveStart(id, _) => PcIs(s, id, Registered)
    case TellStart(id) => PcIs(s, id, StartSaved)
    case Work(id, _) => PcIs(s, id, Body)
    case SaveEnd(id, status, _) => PcIs(s, id, Body) && status.Terminal()
    case TellEnd(id) => PcIs(s, id, EndSaved)
    case Unregister(id) => PcIs(s, id, EndPublished)
    case ReleaseJob(id) =>
      if IsIngest(s, id) then PcIs(s, id, TokenReturned) || PcIs(s, id, GaveUpPublished) else PcIs(s, id, Unregistered)
    case ReturnToken(id) =>
      (if IsIngest(s, id) then PcIs(s, id, Unregistered) else PcIs(s, id, JobReleased))
      && s.runs[id].gen < |s.tokens| && s.tokens[s.runs[id].gen] > 0
  }

  ghost function RunNext(s: State, a: RunAction): State
    requires RunEnabled(s, a)
  {
    match a
    case Register(id) => At(s.(cancels := s.cancels + {id}), id, Registered)
    case SaveStart(id, ok) => At(s.(rows := Saved(s.rows, id, Running, ok)), id, StartSaved)
    case TellStart(id) => At(s.(bus := s.bus + [Event(id, Running)]), id, Body)
    case Work(id, ok) => s.(rows := Saved(s.rows, id, Running, ok), bus := s.bus + [Event(id, Running)])
    case SaveEnd(id, status, ok) =>
      s.(rows := Saved(s.rows, id, status, ok), runs := s.runs[id := s.runs[id].(pc := EndSaved, result := status)])
    case TellEnd(id) => At(s.(bus := s.bus + [Event(id, s.runs[id].result)]), id, EndPublished)
    case Unregister(id) => At(s.(cancels := s.cancels - {id}), id, Unregistered)
    case ReleaseJob(id) =>
      At(s.(locks := WithoutLock(s.locks, s.runs[id].job, id)), id, if IsIngest(s, id) then Done else JobReleased)
    case ReturnToken(id) =>
      At(s.(tokens := s.tokens[s.runs[id].gen := s.tokens[s.runs[id].gen] - 1]), id,
         if IsIngest(s, id) then TokenReturned else Done)
  }

  // ---------------------------------------------------------------------------
  // Interleavings
  // ---------------------------------------------------------------------------

  datatype Action =
    | Control(control: ControlAction)
    | Caller(caller: CallerAction)
    | Dispatch(dispatch: DispatcherAction)
    | Ingesting(ingest: IngestAction)
    | Execute(execute: RunAction)

  ghost predicate Enabled(s: State, a: Action) {
    match a
    case Control(c) => ControlEnabled(s, c)
    case Caller(c) => CallerEnabled(s, c)
    case Dispatch(d) => DispatcherEnabled(s, d)
    case Ingesting(i) => IngestEnabled(s, i)
    case Execute(x) => RunEnabled(s, x)
  }

  ghost function Next(s: State, a: Action): State
    requires Enabled(s, a)
  {
    match a
    case Control(c) => ControlNext(s, c)
    case Caller(c) => CallerNext(s, c)
    case Dispatch(d) => DispatcherNext(s, d)
    case Ingesting(i) => IngestNext(s, i)
    case Execute(x) => RunNext(s, x)
  }

  /** A finite run of the engine: any interleaving of enabled steps. */
  ghost predicate IsBehaviour(states: seq<State>, actions: seq<Action>) {
    && |states| == |actions| + 1
    && Init(states[0])
    && forall i :: 0 <= i < |actions| ==> Enabled(states[i], actions[i]) && states[i + 1] == Next(states[i], actions[i])
  }
}
