/** What holds in every state the engine can reach, however its threads interleave. */
module EngineSafety {
  import opened EngineProtocol

  // ---------------------------------------------------------------------------
  // Job locks
  // ---------------------------------------------------------------------------

  /** Where a locking run owns the lock of its job. */
  predicate OwnsLock(r: Run) {
    && r.kind.Locks()
    && r.pc != New && r.pc != Refused && r.pc != Done
    && r.pc != JobReleased && r.pc != AbandonReleased && r.pc != Abandoned
  }

  ghost predicate LocksAreOwned(s: State) {
    && (forall job :: job in s.locks ==>
          job != "" && s.locks[job] in s.runs && s.runs[s.locks[job]].job == job && OwnsLock(s.runs[s.locks[job]]))
    && (forall id :: id in s.runs && OwnsLock(s.runs[id]) && s.runs[id].job != "" ==>
          s.runs[id].job in s.locks && s.locks[s.runs[id].job] == id)
  }

  // ---------------------------------------------------------------------------
  // Places
  // ---------------------------------------------------------------------------

  predicate HandHolds(hand: Dispatcher, id: RunId) {
    !hand.Idle? && !hand.Stopped? && hand.id == id
  }

  predicate InHandPc(pc: Pc) {
    pc.InHand? || pc.Dropping? || pc.AbandonSaved? || pc.AbandonReleased?
  }

  predicate HandMatches(hand: Dispatcher, pc: Pc) {
    match hand
    case Idle => false
    case Stopped => false
    case Took(_) => pc.InHand?
    case Chose(_, _) => pc.InHand?
    case Acquired(_, _) => pc.InHand?
    case Discounted(_, _) => pc.InHand?
    case Aborting(_) => pc.Dropping?
    case Abandoning(_) => pc.Dropping? || pc.AbandonSaved? || pc.AbandonReleased?
  }

  /** An accepted task is in the queue, in the dispatcher's hand or past both, and the engine's fields agree. */
  ghost predicate PlacesAgree(s: State) {
    && |s.queue| <= QUEUE_CAPACITY
    && (forall i, j :: 0 <= i < j < |s.queue| ==> s.queue[i] != s.queue[j])
    && (forall id :: id in s.queue <==> PcIs(s, id, InQueue))
    && (forall id :: id in s.runs && InHandPc(s.runs[id].pc) ==> HandHolds(s.hand, id))
    && (!s.hand.Idle? && !s.hand.Stopped? ==> s.hand.id in s.runs && HandMatches(s.hand, s.runs[s.hand.id].pc))
  }

  /** `t` differs from `s` in the record of one run, whose job and kind stay. */
  ghost predicate OneMoves(s: State, t: State, id: RunId) {
    && id in s.runs && id in t.runs && t.runs == s.runs[id := t.runs[id]]
    && t.runs[id].job == s.runs[id].job && t.runs[id].kind == s.runs[id].kind
  }

  lemma RunStepMoves(s: State, a: RunAction)
    requires RunEnabled(s, a)
    ensures if a.Work? then RunNext(s, a).runs == s.runs else OneMoves(s, RunNext(s, a), a.id)
  {
  }

  lemma DispatcherStepMoves(s: State, a: DispatcherAction)
    requires DispatcherEnabled(s, a)
    ensures match a
            case Take => OneMoves(s, DispatcherNext(s, a), s.queue[0])
            case Spawn => OneMoves(s, DispatcherNext(s, a), s.hand.id)
            case NoticeShutdown => OneMoves(s, DispatcherNext(s, a), s.hand.id)
            case SaveAbandoned(_) => OneMoves(s, DispatcherNext(s, a), s.hand.id)
            case ReleaseAbandoned => OneMoves(s, DispatcherNext(s, a), s.hand.id)
            case TellAbandoned => OneMoves(s, DispatcherNext(s, a), s.hand.id)
            case _ => DispatcherNext(s, a).runs == s.runs
  {
  }

  lemma IngestStepMoves(s: State, a: IngestAction)
    requires IngestEnabled(s, a)
    ensures OneMoves(s, IngestNext(s, a), a.id)
  {
  }

  lemma PreparingMoves(s: State, a: CallerAction)
    requires CallerEnabled(s, a) && !a.NewRun?
    requires Preparing(a)
    ensures OneMoves(s, CallerNext(s, a), a.id)
  {
  }

  lemma SendingMoves(s: State, a: CallerAction)
    requires CallerEnabled(s, a) && !a.NewRun?
    requires !Preparing(a)
    ensures OneMoves(s, CallerNext(s, a), a.id)
  {
  }

  lemma CallerStepMoves(s: State, a: CallerAction)
    requires CallerEnabled(s, a) && !a.NewRun?
    ensures OneMoves(s, CallerNext(s, a), a.id)
  {
    hide *;
    if Preparing(a) {
      PreparingMoves(s, a);
    } else {
      SendingMoves(s, a);
    }
  }

  lemma SameOwners(s: State, t: State, id: RunId)
    requires LocksAreOwned(s) && OneMoves(s, t, id) && t.locks == s.locks && OwnsLock(s.runs[id]) == OwnsLock(t.runs[id])
    ensures LocksAreOwned(t)
  {
  }

  lemma OwnerLeaves(s: State, t: State, id: RunId)
    requires LocksAreOwned(s) && OneMoves(s, t, id) && !OwnsLock(t.runs[id])
    requires t.locks == WithoutLock(s.locks, s.runs[id].job, id)
    ensures LocksAreOwned(t)
  {
  }

  lemma OwnerEnters(s: State, t: State, id: RunId)
    requires LocksAreOwned(s) && OneMoves(s, t, id) && OwnsLock(t.runs[id]) && !OwnsLock(s.runs[id])
    requires LockFree(s.locks, s.runs[id].job) && t.locks == WithLock(s.locks, s.runs[id].job, id)
    ensures LocksAreOwned(t)
  {
  }

  lemma SameRuns(s: State, t: State)
    requires LocksAreOwned(s) && t.runs == s.runs && t.locks == s.locks
    ensures LocksAreOwned(t)
  {
  }

  lemma LocksNewRun(s: State, id: RunId, job: string, kind: Kind)
    requires LocksAreOwned(s) && id !in s.runs
    ensures LocksAreOwned(CallerNext(s, NewRun(id, job, kind)))
    requires CallerEnabled(s, NewRun(id, job, kind))
  {
  }

  /** The steps of a caller before its task is offered to the queue. */
  predicate Preparing(a: CallerAction) {
    a.NewRun? || a.TryLock? || a.CreateRow? || a.ReadRunning?
  }

  lemma LocksStepCaller(s: State, a: CallerAction)
    requires CallerEnabled(s, a) && LocksAreOwned(s)
    ensures LocksAreOwned(CallerNext(s, a))
  {
    hide LocksAreOwned, CallerEnabled, CallerNext;
    if Preparing(a) {
      LocksStepPreparing(s, a);
    } else {
      LocksStepSending(s, a);
    }
  }

  lemma LocksStepPreparing(s: State, a: CallerAction)
    requires CallerEnabled(s, a) && LocksAreOwned(s) && Preparing(a)
    ensures LocksAreOwned(CallerNext(s, a))
  {
    hide LocksAreOwned, OneMoves;
    if a.NewRun? {
      LocksNewRun(s, a.id, a.job, a.kind);
    } else {
      CallerStepMoves(s, a);
      if a.TryLock? && s.runs[a.id].kind.Locks() && LockFree(s.locks, s.runs[a.id].job) {
        OwnerEnters(s, CallerNext(s, a), a.id);
      } else {
        SameOwners(s, CallerNext(s, a), a.id);
      }
    }
  }

  lemma LocksStepSending(s: State, a: CallerAction)
    requires CallerEnabled(s, a) && LocksAreOwned(s) && !Preparing(a)
    ensures LocksAreOwned(CallerNext(s, a))
  {
    hide LocksAreOwned, OneMoves;
    CallerStepMoves(s, a);
    if a.Refuse? && s.runs[a.id].kind.Locks() {
      OwnerLeaves(s, CallerNext(s, a), a.id);
    } else {
      SameOwners(s, CallerNext(s, a), a.id);
    }
  }

  lemma LocksStepDispatcher(s: State, a: DispatcherAction)
    requires DispatcherEnabled(s, a) && LocksAreOwned(s) && PlacesAgree(s)
    ensures LocksAreOwned(DispatcherNext(s, a))
  {
    hide *;
    if Abandons(a) {
      AbandoningKeepsLocks(s, a);
    } else {
      HandingKeepsLocks(s, a);
    }
  }

  /** The steps that drop what is in hand. */
  predicate Abandons(a: DispatcherAction) {
    a.NoticeShutdown? || a.DiscountAborted? || a.SaveAbandoned? || a.ReleaseAbandoned? || a.TellAbandoned?
  }

  lemma HandingKeepsLocks(s: State, a: DispatcherAction)
    requires DispatcherEnabled(s, a) && LocksAreOwned(s) && PlacesAgree(s) && !Abandons(a)
    ensures LocksAreOwned(DispatcherNext(s, a))
  {
    DispatcherStepMoves(s, a);
    hide LocksAreOwned, OneMoves;
    var t := DispatcherNext(s, a);
    match a
    case Take =>
      assert s.queue[0] in s.queue;
      SameOwners(s, t, s.queue[0]);
    case Spawn => SameOwners(s, t, s.hand.id);
    case _ => SameRuns(s, t);
  }

  lemma AbandoningKeepsLocks(s: State, a: DispatcherAction)
    requires DispatcherEnabled(s, a) && LocksAreOwned(s) && PlacesAgree(s) && Abandons(a)
    ensures LocksAreOwned(DispatcherNext(s, a))
  {
    DispatcherStepMoves(s, a);
    hide LocksAreOwned, OneMoves;
    var t := DispatcherNext(s, a);
    match a
    case NoticeShutdown => SameOwners(s, t, s.hand.id);
    case DiscountAborted => SameRuns(s, t);
    case SaveAbandoned(_) => SameOwners(s, t, s.hand.id);
    case ReleaseAbandoned => ReleaseKeepsLocks(s, t, s.hand.id);
    case TellAbandoned => SameOwners(s, t, s.hand.id);
  }

  /** A release by a run of any kind: the owner frees its job, anybody else frees nothing. */
  lemma ReleaseKeepsLocks(s: State, t: State, id: RunId)
    requires LocksAreOwned(s) && OneMoves(s, t, id) && !OwnsLock(t.runs[id])
    requires s.runs[id].kind.Locks() ==> OwnsLock(s.runs[id])
    requires t.locks == WithoutLock(s.locks, s.runs[id].job, id)
    ensures LocksAreOwned(t)
    ensures !s.runs[id].kind.Locks() ==> t.locks == s.locks
  {
  }

  lemma LocksStepIngest(s: State, a: IngestAction)
    requires IngestEnabled(s, a) && LocksAreOwned(s)
    ensures LocksAreOwned(IngestNext(s, a))
  {
    hide LocksAreOwned, OneMoves;
    IngestStepMoves(s, a);
    SameOwners(s, IngestNext(s, a), a.id);
  }

  lemma RunKeepsOwning(s: State, a: RunAction)
    requires RunEnabled(s, a) && !a.Work? && !a.ReleaseJob?
    ensures OwnsLock(RunNext(s, a).runs[a.id]) == OwnsLock(s.runs[a.id])
  {
  }

  lemma RunLeavesLocks(s: State, a: RunAction)
    requires RunEnabled(s, a) && !a.ReleaseJob?
    ensures RunNext(s, a).locks == s.locks
  {
  }

  lemma LocksStepRun(s: State, a: RunAction)
    requires RunEnabled(s, a) && LocksAreOwned(s)
    ensures LocksAreOwned(RunNext(s, a))
  {
    hide LocksAreOwned, OneMoves;
    RunStepMoves(s, a);
    if a.ReleaseJob? {
      ReleaseKeepsLocks(s, RunNext(s, a), a.id);
    } else {
      RunLeavesLocks(s, a);
      if a.Work? {
        SameRuns(s, RunNext(s, a));
      } else {
        RunKeepsOwning(s, a);
        hide RunNext, RunEnabled;
        SameOwners(s, RunNext(s, a), a.id);
      }
    }
  }

  lemma LocksStep(s: State, a: Action)
    requires Enabled(s, a) && LocksAreOwned(s) && PlacesAgree(s)
    ensures LocksAreOwned(Next(s, a))
  {
    match a
    case Control(c) => SameRuns(s, ControlNext(s, c));
    case Caller(c) => LocksStepCaller(s, c);
    case Dispatch(d) => LocksStepDispatcher(s, d);
    case Ingesting(i) => LocksStepIngest(s, i);
    case Execute(x) => LocksStepRun(s, x);
  }

  // ---------------------------------------------------------------------------
  // Places are kept
  // ---------------------------------------------------------------------------

  predicate Placed(pc: Pc) {
    pc.InQueue? || InHandPc(pc)
  }

  lemma SamePlaces(s: State, t: State, id: RunId)
    requires PlacesAgree(s) && OneMoves(s, t, id) && t.queue == s.queue && t.hand == s.hand
    requires s.runs[id].pc == t.runs[id].pc || (!Placed(s.runs[id].pc) && !Placed(t.runs[id].pc))
    ensures PlacesAgree(t)
  {
  }

  lemma EntersQueue(s: State, t: State, id: RunId)
    requires PlacesAgree(s) && OneMoves(s, t, id) && t.queue == s.queue + [id] && t.hand == s.hand
    requires !Placed(s.runs[id].pc) && t.runs[id].pc.InQueue? && |s.queue| < QUEUE_CAPACITY
    ensures PlacesAgree(t)
  {
    assert id !in s.queue;
  }

  lemma LeavesQueue(s: State, t: State)
    requires PlacesAgree(s) && s.queue != [] && s.hand == Idle && OneMoves(s, t, s.queue[0])
    requires t.queue == s.queue[1..] && t.hand == Took(s.queue[0]) && t.runs[s.queue[0]].pc.InHand?
    ensures PlacesAgree(t)
  {
    var head := s.queue[0];
    assert s.queue == [head] + s.queue[1..];
    assert head !in s.queue[1..];
    forall id ensures id in t.queue <==> PcIs(t, id, InQueue) {
      assert id in s.queue <==> id == head || id in s.queue[1..];
    }
  }

  /** The dispatcher advances with what it holds. */
  lemma HandAdvances(s: State, t: State)
    requires PlacesAgree(s) && t.queue == s.queue && !s.hand.Idle? && !s.hand.Stopped?
    requires t.runs == s.runs || OneMoves(s, t, s.hand.id)
    requires !t.hand.Idle? && !t.hand.Stopped? && t.hand.id == s.hand.id
    requires s.hand.id in t.runs && HandMatches(t.hand, t.runs[s.hand.id].pc)
    ensures PlacesAgree(t)
  {
  }

  lemma HandLetsGo(s: State, t: State)
    requires PlacesAgree(s) && t.queue == s.queue && !s.hand.Idle? && !s.hand.Stopped? && OneMoves(s, t, s.hand.id)
    requires t.hand.Idle? || t.hand.Stopped?
    requires !Placed(t.runs[s.hand.id].pc)
    ensures PlacesAgree(t)
  {
  }

  lemma EmptyHand(s: State, t: State)
    requires PlacesAgree(s) && t.queue == s.queue && t.runs == s.runs
    requires t.hand == s.hand || ((s.hand.Idle? || s.hand.Stopped?) && (t.hand.Idle? || t.hand.Stopped?))
    ensures PlacesAgree(t)
  {
  }

  lemma PlacesNewRun(s: State, id: RunId, job: string, kind: Kind)
    requires CallerEnabled(s, NewRun(id, job, kind)) && PlacesAgree(s)
    ensures PlacesAgree(CallerNext(s, NewRun(id, job, kind)))
  {
  }

  lemma PlacesStepCaller(s: State, a: CallerAction)
    requires CallerEnabled(s, a) && PlacesAgree(s)
    ensures PlacesAgree(CallerNext(s, a))
  {
    hide PlacesAgree, CallerEnabled, CallerNext;
    if Preparing(a) {
      PlacesStepPreparing(s, a);
    } else {
      PlacesStepSending(s, a);
    }
  }

  lemma TryingPlacesNothing(s: State, a: CallerAction)
    requires CallerEnabled(s, a) && Preparing(a) && !a.NewRun?
    requires a.TryLock?
    ensures var t := CallerNext(s, a);
            t.queue == s.queue && t.hand == s.hand && !Placed(s.runs[a.id].pc) && a.id in t.runs && !Placed(t.runs[a.id].pc)
  {
  }

  lemma CreatingPlacesNothing(s: State, a: CallerAction)
    requires CallerEnabled(s, a) && Preparing(a) && !a.NewRun?
    requires !a.TryLock?
    ensures var t := CallerNext(s, a);
            t.queue == s.queue && t.hand == s.hand && !Placed(s.runs[a.id].pc) && a.id in t.runs && !Placed(t.runs[a.id].pc)
  {
  }

  lemma PreparingPlacesNothing(s: State, a: CallerAction)
    requires CallerEnabled(s, a) && Preparing(a) && !a.NewRun?
    ensures var t := CallerNext(s, a);
            t.queue == s.queue && t.hand == s.hand && !Placed(s.runs[a.id].pc) && a.id in t.runs && !Placed(t.runs[a.id].pc)
  {
    hide *;
    if a.TryLock? {
      TryingPlacesNothing(s, a);
    } else {
      CreatingPlacesNothing(s, a);
    }
  }

  lemma PlacesStepPreparing(s: State, a: CallerAction)
    requires CallerEnabled(s, a) && PlacesAgree(s) && Preparing(a)
    ensures PlacesAgree(CallerNext(s, a))
  {
    hide PlacesAgree, OneMoves;
    if a.NewRun? {
      PlacesNewRun(s, a.id, a.job, a.kind);
    } else {
      CallerStepMoves(s, a);
      PreparingPlacesNothing(s, a);
      hide CallerNext, CallerEnabled;
      SamePlaces(s, CallerNext(s, a), a.id);
    }
  }

  lemma PlacesStepSending(s: State, a: CallerAction)
    requires CallerEnabled(s, a) && PlacesAgree(s) && !Preparing(a)
    ensures PlacesAgree(CallerNext(s, a))
  {
    hide PlacesAgree, OneMoves;
    CallerStepMoves(s, a);
    if a.Send? && |s.queue| < QUEUE_CAPACITY {
      EntersQueue(s, CallerNext(s, a), a.id);
    } else {
      SamePlaces(s, CallerNext(s, a), a.id);
    }
  }

  lemma PlacesStepDispatcher(s: State, a: DispatcherAction)
    requires DispatcherEnabled(s, a) && PlacesAgree(s)
    ensures PlacesAgree(DispatcherNext(s, a))
  {
    HandKnown(s);
    hide PlacesAgree;
    var t := DispatcherNext(s, a);
    match a
    case Take => LeavesQueue(s, t);
    case ChooseSem => HandAdvances(s, t);
    case Acquire => HandAdvances(s, t);
    case Discount => HandAdvances(s, t);
    case Spawn => HandLetsGo(s, t);
    case NoticeShutdown => HandAdvances(s, t);
    case DiscountAborted => HandAdvances(s, t);
    case SaveAbandoned(_) => HandAdvances(s, t);
    case ReleaseAbandoned => HandAdvances(s, t);
    case TellAbandoned => HandLetsGo(s, t);
    case StopDispatch => EmptyHand(s, t);
  }

  lemma HandKnown(s: State)
    requires PlacesAgree(s)
    ensures !s.hand.Idle? && !s.hand.Stopped? ==> s.hand.id in s.runs && HandMatches(s.hand, s.runs[s.hand.id].pc)
  {
  }

  lemma RunLeavesQueue(s: State, a: RunAction)
    requires RunEnabled(s, a)
    ensures RunNext(s, a).queue == s.queue && RunNext(s, a).hand == s.hand
  {
  }

  lemma RunIsPastPlaces(s: State, a: RunAction)
    requires RunEnabled(s, a) && !a.Work?
    ensures !Placed(s.runs[a.id].pc) && !Placed(RunNext(s, a).runs[a.id].pc)
  {
  }

  lemma PlacesStepRun(s: State, a: RunAction)
    requires RunEnabled(s, a) && PlacesAgree(s)
    ensures PlacesAgree(RunNext(s, a))
  {
    hide PlacesAgree, OneMoves;
    RunStepMoves(s, a);
    RunLeavesQueue(s, a);
    if a.Work? {
      EmptyHand(s, RunNext(s, a));
    } else {
      RunIsPastPlaces(s, a);
      hide RunNext, RunEnabled;
      var t := RunNext(s, a);
      SamePlaces(s, t, a.id);
    }
  }

  lemma PlacesStepIngest(s: State, a: IngestAction)
    requires IngestEnabled(s, a) && PlacesAgree(s)
    ensures PlacesAgree(IngestNext(s, a))
  {
    hide PlacesAgree, OneMoves;
    IngestStepMoves(s, a);
    IngestPlacesNothing(s, a);
    hide IngestNext, IngestEnabled;
    SamePlaces(s, IngestNext(s, a), a.id);
  }

  lemma IngestPlacesNothing(s: State, a: IngestAction)
    requires IngestEnabled(s, a)
    ensures var t := IngestNext(s, a);
            t.queue == s.queue && t.hand == s.hand && !Placed(s.runs[a.id].pc) && a.id in t.runs && !Placed(t.runs[a.id].pc)
  {
  }

  lemma PlacesStep(s: State, a: Action)
    requires Enabled(s, a) && PlacesAgree(s)
    ensures PlacesAgree(Next(s, a))
  {
    hide PlacesAgree;
    match a
    case Control(c) => EmptyHand(s, ControlNext(s, c));
    case Caller(c) => PlacesStepCaller(s, c);
    case Dispatch(d) => PlacesStepDispatcher(s, d);
    case Ingesting(i) => PlacesStepIngest(s, i);
    case Execute(x) => PlacesStepRun(s, x);
  }
}
