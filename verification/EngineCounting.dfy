/** Semaphore tokens and the queued counter, in every reachable state. */
module EngineCounting {
  import opened Core
  import opened EngineProtocol
  import opened EngineSafety

  // ---------------------------------------------------------------------------
  // Semaphore generations
  // ---------------------------------------------------------------------------

  predicate HoldsToken(pc: Pc) {
    || pc.Spawned? || pc.Holding? || pc.Registered? || pc.StartSaved? || pc.Body?
    || pc.EndSaved? || pc.EndPublished? || pc.Unregistered? || pc.JobReleased?
  }

  predicate HoldsOf(r: Run, gen: nat) {
    HoldsToken(r.pc) && r.gen == gen
  }

  /** The runs that hold a token of this generation. */
  ghost function Holders(runs: map<RunId, Run>, gen: nat): set<RunId> {
    set id | id in runs && HoldsOf(runs[id], gen)
  }

  function HandTokens(hand: Dispatcher, gen: nat): nat {
    if (hand.Acquired? || hand.Discounted?) && hand.gen == gen then 1 else 0
  }

  /** Every token of every generation is held by one run or by the dispatcher, within that generation's capacity. */
  ghost predicate TokensAgree(s: State) {
    && |s.caps| == |s.tokens| > 0
    && (forall g :: 0 <= g < |s.caps| ==>
          s.tokens[g] == |Holders(s.runs, g)| + HandTokens(s.hand, g) && s.tokens[g] <= s.caps[g] && s.caps[g] > 0)
    && (forall id :: id in s.runs && (HoldsToken(s.runs[id].pc) || s.runs[id].pc.Waiting?) ==> s.runs[id].gen < |s.caps|)
    && (s.hand.Chose? || s.hand.Acquired? || s.hand.Discounted? ==> s.hand.gen < |s.caps|)
  }

  lemma HoldersOther(runs: map<RunId, Run>, id: RunId, r: Run, gen: nat)
    requires id in runs ==> HoldsOf(runs[id], gen) == HoldsOf(r, gen)
    requires id !in runs ==> !HoldsOf(r, gen)
    ensures Holders(runs[id := r], gen) == Holders(runs, gen)
  {
  }

  lemma HoldersEnter(runs: map<RunId, Run>, id: RunId, r: Run, gen: nat)
    requires id in runs && !HoldsOf(runs[id], gen) && HoldsOf(r, gen)
    ensures |Holders(runs[id := r], gen)| == |Holders(runs, gen)| + 1
  {
    assert Holders(runs[id := r], gen) == Holders(runs, gen) + {id};
  }

  lemma HoldersLeave(runs: map<RunId, Run>, id: RunId, r: Run, gen: nat)
    requires id in runs && HoldsOf(runs[id], gen) && !HoldsOf(r, gen)
    ensures |Holders(runs[id := r], gen)| == |Holders(runs, gen)| - 1
  {
    assert Holders(runs[id := r], gen) == Holders(runs, gen) - {id};
  }

  /** Steps that move a run without touching tokens. */
  lemma TokensSame(s: State, t: State, id: RunId)
    requires TokensAgree(s) && OneMoves(s, t, id) && t.caps == s.caps && t.tokens == s.tokens && t.hand == s.hand
    requires HoldsToken(t.runs[id].pc) == HoldsToken(s.runs[id].pc)
    requires t.runs[id].gen == s.runs[id].gen || !HoldsToken(t.runs[id].pc)
    requires t.runs[id].gen == s.runs[id].gen || t.runs[id].gen < |s.caps|
    requires t.runs[id].pc.Waiting? ==> t.runs[id].gen < |s.caps| || (s.runs[id].pc.Waiting? && t.runs[id].gen == s.runs[id].gen)
    ensures TokensAgree(t)
  {
    forall g: nat ensures Holders(t.runs, g) == Holders(s.runs, g) {
      HoldersOther(s.runs, id, t.runs[id], g);
    }
  }

  lemma TokensUntouched(s: State, t: State)
    requires TokensAgree(s) && t.runs == s.runs && t.caps == s.caps && t.tokens == s.tokens
    requires forall g: nat :: HandTokens(t.hand, g) == HandTokens(s.hand, g)
    requires t.hand.Chose? || t.hand.Acquired? || t.hand.Discounted? ==> t.hand.gen < |s.caps|
    ensures TokensAgree(t)
  {
  }

  lemma TokenToHand(s: State, t: State, g: nat)
    requires TokensAgree(s) && t.runs == s.runs && t.caps == s.caps && TokenFree(s, g)
    requires t.tokens == s.tokens[g := s.tokens[g] + 1]
    requires s.hand.Chose? && t.hand.Acquired? && t.hand.gen == g
    ensures TokensAgree(t)
  {
  }

  lemma TokenToRun(s: State, t: State, id: RunId, g: nat)
    requires TokensAgree(s) && OneMoves(s, t, id) && t.caps == s.caps && TokenFree(s, g) && t.hand == s.hand
    requires t.tokens == s.tokens[g := s.tokens[g] + 1]
    requires !HoldsToken(s.runs[id].pc) && HoldsOf(t.runs[id], g)
    ensures TokensAgree(t)
  {
    HoldersEnter(s.runs, id, t.runs[id], g);
    forall h: nat | h != g ensures Holders(t.runs, h) == Holders(s.runs, h) {
      HoldersOther(s.runs, id, t.runs[id], h);
    }
  }

  lemma TokenReturned(s: State, t: State, id: RunId, g: nat)
    requires TokensAgree(s) && OneMoves(s, t, id) && t.caps == s.caps && g < |s.tokens| && s.tokens[g] > 0 && t.hand == s.hand
    requires t.tokens == s.tokens[g := s.tokens[g] - 1]
    requires HoldsOf(s.runs[id], g) && !HoldsToken(t.runs[id].pc) && !t.runs[id].pc.Waiting?
    ensures TokensAgree(t)
  {
    HoldersLeave(s.runs, id, t.runs[id], g);
    forall h: nat | h != g ensures Holders(t.runs, h) == Holders(s.runs, h) {
      HoldersOther(s.runs, id, t.runs[id], h);
    }
  }

  lemma HandPassesToken(s: State, t: State, id: RunId)
    requires TokensAgree(s) && OneMoves(s, t, id) && t.caps == s.caps && t.tokens == s.tokens
    requires s.hand.Discounted? && t.hand.Idle?
    requires !HoldsToken(s.runs[id].pc) && HoldsOf(t.runs[id], s.hand.gen)
    ensures TokensAgree(t)
  {
    HoldersEnter(s.runs, id, t.runs[id], s.hand.gen);
    forall h: nat | h != s.hand.gen ensures Holders(t.runs, h) == Holders(s.runs, h) {
      HoldersOther(s.runs, id, t.runs[id], h);
    }
  }

  lemma TokensNewGeneration(s: State, n: int)
    requires TokensAgree(s)
    ensures TokensAgree(ControlNext(s, SetConcurrency(n)))
  {
    var g := |s.caps|;
    assert Holders(s.runs, g) == {};
  }

  lemma TokensNewRun(s: State, id: RunId, job: string, kind: Kind)
    requires CallerEnabled(s, NewRun(id, job, kind)) && TokensAgree(s)
    ensures TokensAgree(CallerNext(s, NewRun(id, job, kind)))
  {
    forall g: nat ensures Holders(CallerNext(s, NewRun(id, job, kind)).runs, g) == Holders(s.runs, g) {
      HoldersOther(s.runs, id, Run(job, kind, New, NotSent, 0, Queued), g);
    }
  }

  lemma TokensStepCaller(s: State, a: CallerAction)
    requires CallerEnabled(s, a) && TokensAgree(s)
    ensures TokensAgree(CallerNext(s, a))
  {
    hide TokensAgree, OneMoves, CallerNext, CallerEnabled;
    match a
    case NewRun(id, job, kind) => TokensNewRun(s, id, job, kind);
    case _ =>
      CallerStepMoves(s, a);
      CallerLeavesTokens(s, a);
      CallerHoldsNothing(s, a);
      TokensSame(s, CallerNext(s, a), a.id);
  }

  lemma CallerLeavesTokens(s: State, a: CallerAction)
    requires CallerEnabled(s, a)
    ensures var t := CallerNext(s, a);
            t.caps == s.caps && t.tokens == s.tokens && t.hand == s.hand
  {
  }

  /** Before a task is accepted its run can hold no token. */
  predicate Unaccepted(pc: Pc) {
    pc.New? || pc.Locked? || pc.Created? || pc.Allowed? || pc.Refusing? || pc.Refused? || pc.InQueue?
  }

  lemma PreparingHoldsNothing(s: State, a: CallerAction)
    requires CallerEnabled(s, a) && !a.NewRun?
    requires Preparing(a)
    ensures var r, r' := s.runs[a.id], CallerNext(s, a).runs[a.id];
            r'.gen == r.gen && (r'.pc == r.pc || (Unaccepted(r.pc) && Unaccepted(r'.pc)))
  {
  }

  lemma SendingHoldsNothing(s: State, a: CallerAction)
    requires CallerEnabled(s, a) && !a.NewRun?
    requires !Preparing(a)
    ensures var r, r' := s.runs[a.id], CallerNext(s, a).runs[a.id];
            r'.gen == r.gen && (r'.pc == r.pc || (Unaccepted(r.pc) && Unaccepted(r'.pc)))
  {
  }

  lemma CallerHoldsNothing(s: State, a: CallerAction)
    requires CallerEnabled(s, a) && !a.NewRun?
    ensures var r, r' := s.runs[a.id], CallerNext(s, a).runs[a.id];
            r'.gen == r.gen && (r'.pc == r.pc || (Unaccepted(r.pc) && Unaccepted(r'.pc)))
  {
    hide *;
    if Preparing(a) {
      PreparingHoldsNothing(s, a);
    } else {
      SendingHoldsNothing(s, a);
    }
  }

  lemma TokensStepTaking(s: State, a: DispatcherAction)
    requires DispatcherEnabled(s, a) && TokensAgree(s) && PlacesAgree(s)
    requires a.Take? || a.ChooseSem? || a.Acquire? || a.Discount? || a.Spawn?
    ensures TokensAgree(DispatcherNext(s, a))
  {
    HandKnown(s);
    assert s.queue != [] && s.queue[0] in s.runs ==> s.runs[s.queue[0]].pc.InQueue? by {
      if s.queue != [] {
        assert s.queue[0] in s.queue;
      }
    }
    GenerationsKnown(s);
    DispatcherStepMoves(s, a);
    hide TokensAgree, PlacesAgree, OneMoves;
    var t := DispatcherNext(s, a);
    match a
    case Take => TokensSameIdle(s, t, s.queue[0]);
    case ChooseSem => TokensUntouched(s, t);
    case Acquire => TokenToHand(s, t, s.hand.gen);
    case Discount => TokensUntouched(s, t);
    case Spawn => HandPassesToken(s, t, s.hand.id);
  }

  lemma TokensStepDropping(s: State, a: DispatcherAction)
    requires DispatcherEnabled(s, a) && TokensAgree(s) && PlacesAgree(s)
    requires !a.Take? && !a.ChooseSem? && !a.Acquire? && !a.Discount? && !a.Spawn?
    ensures TokensAgree(DispatcherNext(s, a))
  {
    HandKnown(s);
    DispatcherStepMoves(s, a);
    hide TokensAgree, PlacesAgree, OneMoves;
    var t := DispatcherNext(s, a);
    match a
    case NoticeShutdown => TokensSameIdle(s, t, s.hand.id);
    case DiscountAborted => TokensUntouched(s, t);
    case SaveAbandoned(_) => TokensSameIdle(s, t, s.hand.id);
    case ReleaseAbandoned => TokensSameIdle(s, t, s.hand.id);
    case TellAbandoned => TokensSameIdle(s, t, s.hand.id);
    case StopDispatch => TokensUntouched(s, t);
  }

  lemma TokensStepDispatcher(s: State, a: DispatcherAction)
    requires DispatcherEnabled(s, a) && TokensAgree(s) && PlacesAgree(s)
    ensures TokensAgree(DispatcherNext(s, a))
  {
    hide TokensAgree, PlacesAgree, DispatcherNext, DispatcherEnabled;
    if a.Take? || a.ChooseSem? || a.Acquire? || a.Discount? || a.Spawn? {
      TokensStepTaking(s, a);
    } else {
      TokensStepDropping(s, a);
    }
  }

  lemma GenerationsKnown(s: State)
    requires TokensAgree(s)
    ensures s.hand.Chose? || s.hand.Acquired? || s.hand.Discounted? ==> s.hand.gen < |s.caps|
    ensures |s.caps| == |s.tokens| > 0
  {
  }

  /** The dispatcher moves its task while neither holds a token. */
  lemma TokensSameIdle(s: State, t: State, id: RunId)
    requires TokensAgree(s) && OneMoves(s, t, id) && t.caps == s.caps && t.tokens == s.tokens
    requires t.runs[id].gen == s.runs[id].gen
    requires !HoldsToken(s.runs[id].pc) && !HoldsToken(t.runs[id].pc) && !t.runs[id].pc.Waiting?
    requires !s.hand.Acquired? && !s.hand.Discounted? && !t.hand.Chose? && !t.hand.Acquired? && !t.hand.Discounted?
    ensures TokensAgree(t)
  {
    forall g: nat ensures Holders(t.runs, g) == Holders(s.runs, g) {
      HoldersOther(s.runs, id, t.runs[id], g);
    }
  }

  lemma TokensStepIngest(s: State, a: IngestAction)
    requires IngestEnabled(s, a) && TokensAgree(s)
    ensures TokensAgree(IngestNext(s, a))
  {
    hide *;
    if a.ChooseIngestSem? || a.AcquireIngest? {
      TokensStepChoosing(s, a);
    } else {
      TokensStepTelling(s, a);
    }
  }

  lemma TokensStepChoosing(s: State, a: IngestAction)
    requires IngestEnabled(s, a) && TokensAgree(s) && (a.ChooseIngestSem? || a.AcquireIngest?)
    ensures TokensAgree(IngestNext(s, a))
  {
    GenerationsKnown(s);
    IngestStepMoves(s, a);
    hide TokensAgree, OneMoves;
    var t := IngestNext(s, a);
    match a
    case ChooseIngestSem(id) => TokensSame(s, t, id);
    case AcquireIngest(id) => TokenToRun(s, t, id, s.runs[id].gen);
  }

  lemma TokensStepTelling(s: State, a: IngestAction)
    requires IngestEnabled(s, a) && TokensAgree(s) && !a.ChooseIngestSem? && !a.AcquireIngest?
    ensures TokensAgree(IngestNext(s, a))
  {
    GenerationsKnown(s);
    IngestStepMoves(s, a);
    hide TokensAgree, OneMoves;
    TokensSame(s, IngestNext(s, a), a.id);
  }

  lemma RunHoldsOn(s: State, a: RunAction)
    requires RunEnabled(s, a) && !a.Work? && !a.ReturnToken?
    ensures var t := RunNext(s, a);
            && t.caps == s.caps && t.tokens == s.tokens && t.hand == s.hand
            && HoldsToken(t.runs[a.id].pc) == HoldsToken(s.runs[a.id].pc)
            && t.runs[a.id].gen == s.runs[a.id].gen
            && !t.runs[a.id].pc.Waiting?
  {
  }

  lemma TokensStepRun(s: State, a: RunAction)
    requires RunEnabled(s, a) && TokensAgree(s)
    ensures TokensAgree(RunNext(s, a))
  {
    RunStepMoves(s, a);
    hide TokensAgree, OneMoves;
    var t := RunNext(s, a);
    match a
    case Work(_, _) => TokensUntouched(s, t);
    case ReturnToken(id) => TokenReturned(s, t, id, s.runs[id].gen);
    case _ =>
      RunHoldsOn(s, a);
      TokensSame(s, t, a.id);
  }

  lemma TokensStep(s: State, a: Action)
    requires Enabled(s, a) && TokensAgree(s) && PlacesAgree(s)
    ensures TokensAgree(Next(s, a))
  {
    match a
    case Control(c) =>
      if c.SetConcurrency? {
        TokensNewGeneration(s, c.n);
      } else {
        TokensUntouched(s, ControlNext(s, c));
      }
    case Caller(c) => TokensStepCaller(s, c);
    case Dispatch(d) => TokensStepDispatcher(s, d);
    case Ingesting(i) => TokensStepIngest(s, i);
    case Execute(x) => TokensStepRun(s, x);
  }

  // ---------------------------------------------------------------------------
  // The queued counter
  // ---------------------------------------------------------------------------

  /** Tasks whose send has happened and whose increment has not. */
  ghost function Unsent(runs: map<RunId, Run>): set<RunId> {
    set id | id in runs && runs[id].sending.Sent?
  }

  /** The dispatcher holds a task it has not yet discounted. */
  function HandCounts(hand: Dispatcher): nat {
    if hand.Took? || hand.Chose? || hand.Acquired? || hand.Aborting? then 1 else 0
  }

  ghost predicate CounterAgrees(s: State) {
    s.queued == |s.queue| + HandCounts(s.hand) - |Unsent(s.runs)|
  }

  lemma UnsentOther(runs: map<RunId, Run>, id: RunId, r: Run)
    requires if id in runs then runs[id].sending.Sent? == r.sending.Sent? else !r.sending.Sent?
    ensures Unsent(runs[id := r]) == Unsent(runs)
  {
  }

  lemma CounterStepCaller(s: State, a: CallerAction)
    requires CallerEnabled(s, a) && CounterAgrees(s)
    requires a.Send? ==> s.runs[a.id].sending.NotSent?
    ensures CounterAgrees(CallerNext(s, a))
  {
    match a
    case Send(id) => CounterStepSend(s, id);
    case CountSent(id) => CounterStepCount(s, id);
    case _ =>
      CallerSendsNothing(s, a);
      hide CallerNext, CallerEnabled, Unsent;
      UnsentOther(s.runs, a.id, CallerNext(s, a).runs[a.id]);
  }

  lemma CounterStepSend(s: State, id: RunId)
    requires CallerEnabled(s, Send(id)) && CounterAgrees(s) && s.runs[id].sending.NotSent?
    ensures CounterAgrees(CallerNext(s, Send(id)))
  {
    var t := CallerNext(s, Send(id));
    if |s.queue| < QUEUE_CAPACITY {
      assert Unsent(t.runs) == Unsent(s.runs) + {id};
    } else {
      UnsentOther(s.runs, id, t.runs[id]);
    }
  }

  lemma CounterStepCount(s: State, id: RunId)
    requires CallerEnabled(s, CountSent(id)) && CounterAgrees(s)
    ensures CounterAgrees(CallerNext(s, CountSent(id)))
  {
    assert Unsent(CallerNext(s, CountSent(id)).runs) == Unsent(s.runs) - {id};
  }

  lemma CallerSendsNothing(s: State, a: CallerAction)
    requires CallerEnabled(s, a) && !a.Send? && !a.CountSent?
    ensures var t := CallerNext(s, a);
            && t.queue == s.queue && t.hand == s.hand && t.queued == s.queued
            && a.id in t.runs && t.runs == s.runs[a.id := t.runs[a.id]]
            && (if a.id in s.runs then s.runs[a.id].sending.Sent? == t.runs[a.id].sending.Sent? else !t.runs[a.id].sending.Sent?)
  {
    hide CallerEnabled, CallerNext;
    if Preparing(a) {
      PreparingSendsNothing(s, a);
    } else {
      TellingSendsNothing(s, a);
    }
  }

  lemma EnteringSendsNothing(s: State, a: CallerAction)
    requires CallerEnabled(s, a) && Preparing(a)
    requires a.NewRun? || a.TryLock?
    ensures var t := CallerNext(s, a);
            && t.queue == s.queue && t.hand == s.hand && t.queued == s.queued
            && a.id in t.runs && t.runs == s.runs[a.id := t.runs[a.id]]
            && (if a.id in s.runs then s.runs[a.id].sending.Sent? == t.runs[a.id].sending.Sent? else !t.runs[a.id].sending.Sent?)
  {
  }

  lemma CreatingSendsNothing(s: State, a: CallerAction)
    requires CallerEnabled(s, a) && Preparing(a)
    requires !(a.NewRun? || a.TryLock?)
    ensures var t := CallerNext(s, a);
            && t.queue == s.queue && t.hand == s.hand && t.queued == s.queued
            && a.id in t.runs && t.runs == s.runs[a.id := t.runs[a.id]]
            && (if a.id in s.runs then s.runs[a.id].sending.Sent? == t.runs[a.id].sending.Sent? else !t.runs[a.id].sending.Sent?)
  {
  }

  lemma PreparingSendsNothing(s: State, a: CallerAction)
    requires CallerEnabled(s, a) && Preparing(a)
    ensures var t := CallerNext(s, a);
            && t.queue == s.queue && t.hand == s.hand && t.queued == s.queued
            && a.id in t.runs && t.runs == s.runs[a.id := t.runs[a.id]]
            && (if a.id in s.runs then s.runs[a.id].sending.Sent? == t.runs[a.id].sending.Sent? else !t.runs[a.id].sending.Sent?)
  {
    hide *;
    if a.NewRun? || a.TryLock? {
      EnteringSendsNothing(s, a);
    } else {
      CreatingSendsNothing(s, a);
    }
  }

  lemma TellingSendsNothing(s: State, a: CallerAction)
    requires CallerEnabled(s, a) && (a.TellQueued? || a.Refuse?)
    ensures var t := CallerNext(s, a);
            && t.queue == s.queue && t.hand == s.hand && t.queued == s.queued
            && a.id in t.runs && t.runs == s.runs[a.id := t.runs[a.id]]
            && (if a.id in s.runs then s.runs[a.id].sending.Sent? == t.runs[a.id].sending.Sent? else !t.runs[a.id].sending.Sent?)
  {
  }

  lemma CounterStepDispatcher(s: State, a: DispatcherAction)
    requires DispatcherEnabled(s, a) && CounterAgrees(s) && PlacesAgree(s)
    ensures CounterAgrees(DispatcherNext(s, a))
  {
    HandKnown(s);
    var t := DispatcherNext(s, a);
    match a
    case Take => UnsentOther(s.runs, s.queue[0], t.runs[s.queue[0]]);
    case ChooseSem =>
    case Acquire =>
    case Discount =>
    case StopDispatch =>
    case DiscountAborted =>
    case _ => UnsentOther(s.runs, s.hand.id, t.runs[s.hand.id]);
  }

  lemma CounterStepIngest(s: State, a: IngestAction)
    requires IngestEnabled(s, a) && CounterAgrees(s)
    ensures CounterAgrees(IngestNext(s, a))
  {
    UnsentOther(s.runs, a.id, IngestNext(s, a).runs[a.id]);
  }

  lemma CounterStepRun(s: State, a: RunAction)
    requires RunEnabled(s, a) && CounterAgrees(s)
    ensures CounterAgrees(RunNext(s, a))
  {
    RunLeavesQueue(s, a);
    UnsentOther(s.runs, a.id, RunNext(s, a).runs[a.id]);
  }
}
