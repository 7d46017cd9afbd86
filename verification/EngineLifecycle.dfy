/** The life of each run: its stored status, its events and its cancel entry. */
module EngineLifecycle {
  import opened Core
  import opened EngineProtocol
  import opened EngineSafety

  /** How many terminal events of this run are on the bus. */
  ghost function Ends(bus: seq<Event>, id: RunId): nat {
    if bus == [] then 0
    else
      var last := bus[|bus| - 1];
      Ends(bus[..|bus| - 1], id) + (if last.id == id && last.status.Terminal() then 1 else 0)
  }

  predicate BeforeStart(pc: Pc) {
    || pc.Created? || pc.Allowed? || pc.InQueue? || pc.InHand? || pc.Spawned? || pc.Announced? || pc.Waiting?
    || pc.Holding? || pc.GivingUp? || pc.Registered? || pc.Dropping?
  }

  predicate Ended(pc: Pc) {
    || pc.EndPublished? || pc.Unregistered? || pc.JobReleased? || pc.TokenReturned? || pc.Done?
    || pc.Abandoned? || pc.GaveUpPublished?
  }

  predicate Cancelable(pc: Pc) {
    pc.Registered? || pc.StartSaved? || pc.Body? || pc.EndSaved? || pc.EndPublished?
  }

  predicate Unsendable(pc: Pc) {
    pc.New? || pc.Locked? || pc.Created? || pc.Allowed? || pc.Refusing? || pc.Refused?
  }

  /** The stored row of a run that may still be saved follows its progress, unless a restart reopened it. */
  ghost predicate RowOk(s: State, id: RunId)
    requires id in s.runs
  {
    var r := s.runs[id];
    && (Unsendable(r.pc) ==> r.sending.NotSent?)
    && (r.pc.New? || r.pc.Locked? ==> id !in s.rows)
    && (MayStillSave(r.pc) ==> id in s.rows)
    && (MayStillSave(r.pc) && id !in s.reopened ==> !s.rows[id].Terminal())
    && (BeforeStart(r.pc) && id !in s.reopened ==> s.rows[id] == Queued)
  }

  /** A run has put one terminal event on the bus once it ended and none before, and can be canceled while it executes. */
  ghost predicate EndOk(s: State, id: RunId)
    requires id in s.runs
  {
    var r := s.runs[id];
    && (r.pc.EndSaved? ==> r.result.Terminal())
    && Ends(s.bus, id) == (if Ended(r.pc) then 1 else 0)
    && (id in s.cancels <==> Cancelable(r.pc))
  }

  ghost predicate LocalOk(s: State, id: RunId) {
    if id in s.runs then RowOk(s, id) && EndOk(s, id)
    else Ends(s.bus, id) == 0 && id !in s.cancels && id !in s.reopened
  }

  ghost predicate LivesAgree(s: State) {
    forall id :: LocalOk(s, id)
  }

  /** Only entries of `id` differ, and only events of `id` were added. */
  ghost predicate Touches(s: State, t: State, id: RunId) {
    && id in t.runs && t.runs == s.runs[id := t.runs[id]]
    && (forall other :: other != id ==> (other in t.rows <==> other in s.rows) && (other in s.rows ==> t.rows[other] == s.rows[other]))
    && (t.bus == s.bus || (exists status :: t.bus == s.bus + [Event(id, status)]))
    && (forall other :: other != id ==> (other in t.cancels <==> other in s.cancels))
    && t.reopened == s.reopened
  }

  lemma EndsAppend(bus: seq<Event>, e: Event, id: RunId)
    ensures Ends(bus + [e], id) == Ends(bus, id) + (if e.id == id && e.status.Terminal() then 1 else 0)
  {
    assert (bus + [e])[..|bus|] == bus;
  }

  lemma OthersLive(s: State, t: State, id: RunId)
    requires LivesAgree(s) && Touches(s, t, id) && LocalOk(t, id)
    ensures LivesAgree(t)
  {
    forall other | other != id ensures Ends(t.bus, other) == Ends(s.bus, other) {
      if t.bus != s.bus {
        var status :| t.bus == s.bus + [Event(id, status)];
        EndsAppend(s.bus, Event(id, status), other);
      }
    }
    forall other ensures LocalOk(t, other) {
      if other != id {
        assert LocalOk(s, other);
      }
    }
  }

  lemma LivesStepCaller(s: State, a: CallerAction)
    requires CallerEnabled(s, a) && LivesAgree(s)
    ensures LivesAgree(CallerNext(s, a))
  {
    var t := CallerNext(s, a);
    CallerTouches(s, a);
    assert LocalOk(s, a.id);
    CallerRow(s, a);
    CallerEnd(s, a);
    assert LocalOk(t, a.id);
    hide CallerNext, CallerEnabled, Touches, LocalOk;
    OthersLive(s, t, a.id);
  }

  lemma CallerTouches(s: State, a: CallerAction)
    requires CallerEnabled(s, a)
    ensures Touches(s, CallerNext(s, a), a.id)
  {
    hide CallerEnabled, CallerNext;
    if Preparing(a) {
      PreparingTouches(s, a);
    } else {
      SendingTouches(s, a);
    }
  }

  lemma EnteringTouches(s: State, a: CallerAction)
    requires CallerEnabled(s, a) && Preparing(a)
    requires a.NewRun? || a.TryLock?
    ensures Touches(s, CallerNext(s, a), a.id)
  {
  }

  lemma CreatingTouches(s: State, a: CallerAction)
    requires CallerEnabled(s, a) && Preparing(a)
    requires !(a.NewRun? || a.TryLock?)
    ensures Touches(s, CallerNext(s, a), a.id)
  {
  }

  lemma PreparingTouches(s: State, a: CallerAction)
    requires CallerEnabled(s, a) && Preparing(a)
    ensures Touches(s, CallerNext(s, a), a.id)
  {
    hide *;
    if a.NewRun? || a.TryLock? {
      EnteringTouches(s, a);
    } else {
      CreatingTouches(s, a);
    }
  }

  lemma SendingTouches(s: State, a: CallerAction)
    requires CallerEnabled(s, a) && !Preparing(a)
    ensures Touches(s, CallerNext(s, a), a.id)
  {
  }

  lemma CallerRow(s: State, a: CallerAction)
    requires CallerEnabled(s, a) && LocalOk(s, a.id)
    ensures a.id in CallerNext(s, a).runs && RowOk(CallerNext(s, a), a.id)
  {
    hide CallerEnabled, CallerNext;
    if a.NewRun? || a.TryLock? {
      LockingRow(s, a);
    } else if Preparing(a) {
      PreparingRow(s, a);
    } else {
      SendingRow(s, a);
    }
  }

  lemma LockingRow(s: State, a: CallerAction)
    requires CallerEnabled(s, a) && LocalOk(s, a.id) && (a.NewRun? || a.TryLock?)
    ensures a.id in CallerNext(s, a).runs && RowOk(CallerNext(s, a), a.id)
  {
    hide Ends, EndOk;
  }

  lemma PreparingRow(s: State, a: CallerAction)
    requires CallerEnabled(s, a) && LocalOk(s, a.id) && (a.CreateRow? || a.ReadRunning?)
    ensures a.id in CallerNext(s, a).runs && RowOk(CallerNext(s, a), a.id)
  {
    hide Ends, EndOk;
  }

  lemma SendingRow(s: State, a: CallerAction)
    requires CallerEnabled(s, a) && LocalOk(s, a.id) && !Preparing(a)
    ensures a.id in CallerNext(s, a).runs && RowOk(CallerNext(s, a), a.id)
  {
    hide Ends, EndOk;
  }

  lemma CallerIsQuiet(s: State, a: CallerAction)
    requires CallerEnabled(s, a)
    ensures var t := CallerNext(s, a);
            && t.cancels == s.cancels
            && (t.bus == s.bus || t.bus == s.bus + [Event(a.id, Queued)])
  {
  }

  lemma PreparingStaysEarly(s: State, a: CallerAction)
    requires CallerEnabled(s, a)
    requires Preparing(a)
    ensures a.id in CallerNext(s, a).runs
    ensures var r' := CallerNext(s, a).runs[a.id];
            (a.id in s.runs && r'.pc == s.runs[a.id].pc && r'.result == s.runs[a.id].result)
            || ((a.id !in s.runs || Unsendable(s.runs[a.id].pc)) && (Unsendable(r'.pc) || r'.pc.InQueue?))
  {
  }

  lemma SendingStaysEarly(s: State, a: CallerAction)
    requires CallerEnabled(s, a)
    requires !Preparing(a)
    ensures a.id in CallerNext(s, a).runs
    ensures var r' := CallerNext(s, a).runs[a.id];
            (a.id in s.runs && r'.pc == s.runs[a.id].pc && r'.result == s.runs[a.id].result)
            || ((a.id !in s.runs || Unsendable(s.runs[a.id].pc)) && (Unsendable(r'.pc) || r'.pc.InQueue?))
  {
  }

  lemma CallerStaysEarly(s: State, a: CallerAction)
    requires CallerEnabled(s, a)
    ensures a.id in CallerNext(s, a).runs
    ensures var r' := CallerNext(s, a).runs[a.id];
            (a.id in s.runs && r'.pc == s.runs[a.id].pc && r'.result == s.runs[a.id].result)
            || ((a.id !in s.runs || Unsendable(s.runs[a.id].pc)) && (Unsendable(r'.pc) || r'.pc.InQueue?))
  {
    hide *;
    if Preparing(a) {
      PreparingStaysEarly(s, a);
    } else {
      SendingStaysEarly(s, a);
    }
  }

  lemma CallerEnd(s: State, a: CallerAction)
    requires CallerEnabled(s, a) && LocalOk(s, a.id)
    ensures a.id in CallerNext(s, a).runs && EndOk(CallerNext(s, a), a.id)
  {
    CallerIsQuiet(s, a);
    CallerStaysEarly(s, a);
    EndsAppend(s.bus, Event(a.id, Queued), a.id);
    LocalEnd(s, a.id);
    assert !Queued.Terminal();
    hide *;
    EarlyEnd(s, CallerNext(s, a), a.id);
  }

  /** A step that leaves a run where it was, or moves it among the places before it executes. */
  lemma EarlyEnd(s: State, t: State, id: RunId)
    requires if id in s.runs then EndOk(s, id) else Ends(s.bus, id) == 0 && id !in s.cancels
    requires id in t.runs && t.cancels == s.cancels && Ends(t.bus, id) == Ends(s.bus, id)
    requires (id in s.runs && t.runs[id].pc == s.runs[id].pc && t.runs[id].result == s.runs[id].result)
             || ((id !in s.runs || Unsendable(s.runs[id].pc)) && (Unsendable(t.runs[id].pc) || t.runs[id].pc.InQueue?))
    ensures EndOk(t, id)
  {
    hide Ends;
  }

  lemma IngestTouches(s: State, a: IngestAction)
    requires IngestEnabled(s, a)
    ensures Touches(s, IngestNext(s, a), a.id)
  {
  }

  lemma IngestRow(s: State, a: IngestAction)
    requires IngestEnabled(s, a) && LocalOk(s, a.id)
    ensures a.id in IngestNext(s, a).runs && RowOk(IngestNext(s, a), a.id)
  {
    hide IngestEnabled, IngestNext;
    if a.TellIngest? || a.ChooseIngestSem? || a.AcquireIngest? {
      EnteringRow(s, a);
    } else {
      GivingUpRow(s, a);
    }
  }

  lemma EnteringRow(s: State, a: IngestAction)
    requires IngestEnabled(s, a) && LocalOk(s, a.id) && (a.TellIngest? || a.ChooseIngestSem? || a.AcquireIngest?)
    ensures a.id in IngestNext(s, a).runs && RowOk(IngestNext(s, a), a.id)
  {
    hide Ends, EndOk;
  }

  lemma GivingUpRow(s: State, a: IngestAction)
    requires IngestEnabled(s, a) && LocalOk(s, a.id) && !(a.TellIngest? || a.ChooseIngestSem? || a.AcquireIngest?)
    ensures a.id in IngestNext(s, a).runs && RowOk(IngestNext(s, a), a.id)
  {
    hide Ends, EndOk;
  }

  lemma IngestEnd(s: State, a: IngestAction)
    requires IngestEnabled(s, a) && LocalOk(s, a.id)
    ensures a.id in IngestNext(s, a).runs && EndOk(IngestNext(s, a), a.id)
  {
    hide IngestEnabled, IngestNext;
    if a.TellGivenUp? {
      GivenUpEnd(s, a);
    } else {
      WaitingEnd(s, a);
    }
  }

  lemma GivenUpEnd(s: State, a: IngestAction)
    requires IngestEnabled(s, a) && LocalOk(s, a.id) && a.TellGivenUp?
    ensures a.id in IngestNext(s, a).runs && EndOk(IngestNext(s, a), a.id)
  {
    hide Ends, RowOk;
    EndsAppend(s.bus, Event(a.id, Failed), a.id);
  }

  lemma AskingEnd(s: State, a: IngestAction)
    requires IngestEnabled(s, a) && LocalOk(s, a.id) && !a.TellGivenUp?
    requires a.TellIngest? || a.ChooseIngestSem? || a.AcquireIngest?
    ensures a.id in IngestNext(s, a).runs && EndOk(IngestNext(s, a), a.id)
  {
    hide Ends, RowOk;
    EndsAppend(s.bus, Event(a.id, Queued), a.id);
  }

  lemma GivingUpEnd(s: State, a: IngestAction)
    requires IngestEnabled(s, a) && LocalOk(s, a.id) && !a.TellGivenUp?
    requires !(a.TellIngest? || a.ChooseIngestSem? || a.AcquireIngest?)
    ensures a.id in IngestNext(s, a).runs && EndOk(IngestNext(s, a), a.id)
  {
    hide Ends, RowOk;
    EndsAppend(s.bus, Event(a.id, Queued), a.id);
  }

  lemma WaitingEnd(s: State, a: IngestAction)
    requires IngestEnabled(s, a) && LocalOk(s, a.id) && !a.TellGivenUp?
    ensures a.id in IngestNext(s, a).runs && EndOk(IngestNext(s, a), a.id)
  {
    hide *;
    if a.TellIngest? || a.ChooseIngestSem? || a.AcquireIngest? {
      AskingEnd(s, a);
    } else {
      GivingUpEnd(s, a);
    }
  }

  lemma LivesStepIngest(s: State, a: IngestAction)
    requires IngestEnabled(s, a) && LivesAgree(s)
    ensures LivesAgree(IngestNext(s, a))
  {
    var t := IngestNext(s, a);
    IngestTouches(s, a);
    assert LocalOk(s, a.id);
    IngestRow(s, a);
    IngestEnd(s, a);
    assert LocalOk(t, a.id);
    hide IngestNext, IngestEnabled, Touches, LocalOk;
    OthersLive(s, t, a.id);
  }

  lemma RunTouches(s: State, a: RunAction)
    requires RunEnabled(s, a)
    ensures Touches(s, RunNext(s, a), a.id)
  {
  }

  lemma RunRow(s: State, a: RunAction)
    requires RunEnabled(s, a) && LocalOk(s, a.id)
    ensures a.id in RunNext(s, a).runs && RowOk(RunNext(s, a), a.id)
  {
    hide RunEnabled, RunNext;
    if a.SaveStart? || a.Work? || a.SaveEnd? {
      SavingRow(s, a);
    } else if a.Register? || a.TellStart? || a.TellEnd? {
      TellingRow(s, a);
    } else {
      QuietRow(s, a);
    }
  }

  lemma SavingRow(s: State, a: RunAction)
    requires RunEnabled(s, a) && LocalOk(s, a.id) && (a.SaveStart? || a.Work? || a.SaveEnd?)
    ensures a.id in RunNext(s, a).runs && RowOk(RunNext(s, a), a.id)
  {
    hide Ends, EndOk;
  }

  lemma TellingRow(s: State, a: RunAction)
    requires RunEnabled(s, a) && LocalOk(s, a.id) && (a.Register? || a.TellStart? || a.TellEnd?)
    ensures a.id in RunNext(s, a).runs && RowOk(RunNext(s, a), a.id)
  {
    hide Ends, EndOk;
  }

  lemma QuietRow(s: State, a: RunAction)
    requires RunEnabled(s, a) && LocalOk(s, a.id) && (a.Unregister? || a.ReleaseJob? || a.ReturnToken?)
    ensures a.id in RunNext(s, a).runs && RowOk(RunNext(s, a), a.id)
  {
    hide Ends, EndOk;
  }

  lemma StartedEnd(s: State, a: RunAction)
    requires RunEnabled(s, a) && LocalOk(s, a.id)
    requires a.Register? || a.SaveStart? || a.TellStart? || a.Work?
    ensures a.id in RunNext(s, a).runs && EndOk(RunNext(s, a), a.id)
  {
    hide Ends, RowOk;
    EndsAppend(s.bus, Event(a.id, Running), a.id);
    EndsAppend(s.bus, Event(a.id, s.runs[a.id].result), a.id);
  }

  lemma EndedEnd(s: State, a: RunAction)
    requires RunEnabled(s, a) && LocalOk(s, a.id)
    requires !(a.Register? || a.SaveStart? || a.TellStart? || a.Work?)
    ensures a.id in RunNext(s, a).runs && EndOk(RunNext(s, a), a.id)
  {
    hide Ends, RowOk;
    EndsAppend(s.bus, Event(a.id, Running), a.id);
    EndsAppend(s.bus, Event(a.id, s.runs[a.id].result), a.id);
  }

  lemma RunEnd(s: State, a: RunAction)
    requires RunEnabled(s, a) && LocalOk(s, a.id)
    ensures a.id in RunNext(s, a).runs && EndOk(RunNext(s, a), a.id)
  {
    hide *;
    if a.Register? || a.SaveStart? || a.TellStart? || a.Work? {
      StartedEnd(s, a);
    } else {
      EndedEnd(s, a);
    }
  }

  lemma LivesStepRun(s: State, a: RunAction)
    requires RunEnabled(s, a) && LivesAgree(s)
    ensures LivesAgree(RunNext(s, a))
  {
    var t := RunNext(s, a);
    RunTouches(s, a);
    assert LocalOk(s, a.id);
    RunRow(s, a);
    RunEnd(s, a);
    assert LocalOk(t, a.id);
    hide RunNext, RunEnabled, Touches, LocalOk;
    OthersLive(s, t, a.id);
  }

  /** The run a dispatcher step moves, when it moves one. */
  function Mover(s: State, a: DispatcherAction): RunId
    requires DispatcherEnabled(s, a) && !(a.StopDispatch?)
  {
    if a.Take? then s.queue[0] else s.hand.id
  }

  lemma DispatcherTouches(s: State, a: DispatcherAction)
    requires DispatcherEnabled(s, a) && PlacesAgree(s) && !a.StopDispatch?
    ensures Touches(s, DispatcherNext(s, a), Mover(s, a))
  {
    HandKnown(s);
  }

  lemma DispatcherRow(s: State, a: DispatcherAction)
    requires DispatcherEnabled(s, a) && !a.StopDispatch? && LocalOk(s, Mover(s, a)) && PlacesAgree(s)
    ensures Mover(s, a) in DispatcherNext(s, a).runs && RowOk(DispatcherNext(s, a), Mover(s, a))
  {
    hide DispatcherEnabled, DispatcherNext, PlacesAgree, RowOk, LocalOk;
    if Abandons(a) {
      DroppingRow(s, a);
    } else if a.Take? {
      TakenRow(s);
    } else {
      StartingRow(s, a);
    }
  }

  lemma AbortingRow(s: State, a: DispatcherAction)
    requires DispatcherEnabled(s, a) && !a.StopDispatch? && LocalOk(s, Mover(s, a)) && PlacesAgree(s) && Abandons(a)
    requires a.NoticeShutdown? || a.DiscountAborted?
    ensures Mover(s, a) in DispatcherNext(s, a).runs && RowOk(DispatcherNext(s, a), Mover(s, a))
  {
    hide Ends, EndOk;
    HandKnown(s);
    hide PlacesAgree;
  }

  lemma AbandoningRow(s: State, a: DispatcherAction)
    requires DispatcherEnabled(s, a) && !a.StopDispatch? && LocalOk(s, Mover(s, a)) && PlacesAgree(s) && Abandons(a)
    requires !(a.NoticeShutdown? || a.DiscountAborted?)
    ensures Mover(s, a) in DispatcherNext(s, a).runs && RowOk(DispatcherNext(s, a), Mover(s, a))
  {
    hide Ends, EndOk;
    HandKnown(s);
    hide PlacesAgree;
  }

  lemma DroppingRow(s: State, a: DispatcherAction)
    requires DispatcherEnabled(s, a) && !a.StopDispatch? && LocalOk(s, Mover(s, a)) && PlacesAgree(s) && Abandons(a)
    ensures Mover(s, a) in DispatcherNext(s, a).runs && RowOk(DispatcherNext(s, a), Mover(s, a))
  {
    hide *;
    if a.NoticeShutdown? || a.DiscountAborted? {
      AbortingRow(s, a);
    } else {
      AbandoningRow(s, a);
    }
  }

  lemma StartingRow(s: State, a: DispatcherAction)
    requires DispatcherEnabled(s, a) && !a.StopDispatch? && LocalOk(s, Mover(s, a)) && PlacesAgree(s) && !Abandons(a) && !a.Take?
    ensures Mover(s, a) in DispatcherNext(s, a).runs && RowOk(DispatcherNext(s, a), Mover(s, a))
  {
    hide Ends, EndOk;
    HandKnown(s);
    hide PlacesAgree;
  }

  lemma TakenRow(s: State)
    requires DispatcherEnabled(s, Take) && LocalOk(s, s.queue[0]) && PlacesAgree(s)
    ensures s.queue[0] in DispatcherNext(s, Take).runs && RowOk(DispatcherNext(s, Take), s.queue[0])
  {
    hide Ends, EndOk;
    assert s.queue[0] in s.queue;
    assert s.runs[s.queue[0]].pc.InQueue?;
    hide PlacesAgree;
  }

  lemma DispatcherIsQuiet(s: State, a: DispatcherAction)
    requires DispatcherEnabled(s, a)
    ensures DispatcherNext(s, a).cancels == s.cancels
    ensures DispatcherNext(s, a).bus == if a.TellAbandoned? then s.bus + [Event(s.hand.id, Failed)] else s.bus
  {
  }

  lemma DispatcherHoldsUnstarted(s: State, a: DispatcherAction)
    requires DispatcherEnabled(s, a) && !a.StopDispatch? && PlacesAgree(s)
    ensures Mover(s, a) in s.runs && Mover(s, a) in DispatcherNext(s, a).runs
    ensures Placed(s.runs[Mover(s, a)].pc)
    ensures var pc := DispatcherNext(s, a).runs[Mover(s, a)].pc;
            if a.TellAbandoned? then pc.Abandoned? else Placed(pc) || pc.Spawned?
  {
    HandKnown(s);
    if a.Take? {
      assert s.queue[0] in s.queue;
    }
    hide PlacesAgree;
  }

  lemma DispatcherEnd(s: State, a: DispatcherAction)
    requires DispatcherEnabled(s, a) && !a.StopDispatch? && LocalOk(s, Mover(s, a)) && PlacesAgree(s)
    ensures Mover(s, a) in DispatcherNext(s, a).runs && EndOk(DispatcherNext(s, a), Mover(s, a))
  {
    DispatcherIsQuiet(s, a);
    DispatcherHoldsUnstarted(s, a);
    var (t, id) := (DispatcherNext(s, a), Mover(s, a));
    EndsAppend(s.bus, Event(id, Failed), id);
    assert a.TellAbandoned? ==> t.bus == s.bus + [Event(id, Failed)];
    LocalEnd(s, id);
    hide *;
    UnstartedEnd(s, t, id, a.TellAbandoned?);
  }

  lemma LocalEnd(s: State, id: RunId)
    requires LocalOk(s, id)
    ensures if id in s.runs then EndOk(s, id) else Ends(s.bus, id) == 0 && id !in s.cancels
  {
  }

  lemma UnstartedEnd(s: State, t: State, id: RunId, told: bool)
    requires id in s.runs && id in t.runs && EndOk(s, id) && Placed(s.runs[id].pc)
    requires t.cancels == s.cancels && Ends(t.bus, id) == Ends(s.bus, id) + (if told then 1 else 0)
    requires if told then t.runs[id].pc.Abandoned? else Placed(t.runs[id].pc) || t.runs[id].pc.Spawned?
    ensures EndOk(t, id)
  {
    hide Ends;
  }

  lemma LivesStepDispatcher(s: State, a: DispatcherAction)
    requires DispatcherEnabled(s, a) && LivesAgree(s) && PlacesAgree(s)
    ensures LivesAgree(DispatcherNext(s, a))
  {
    var t := DispatcherNext(s, a);
    if a.StopDispatch? {
      LivesUntouched(s, t);
    } else {
      DispatcherTouches(s, a);
      assert LocalOk(s, Mover(s, a));
      DispatcherRow(s, a);
      DispatcherEnd(s, a);
      assert LocalOk(t, Mover(s, a));
      hide DispatcherNext, DispatcherEnabled, Touches, LocalOk, PlacesAgree;
      OthersLive(s, t, Mover(s, a));
    }
  }

  lemma LivesUntouched(s: State, t: State)
    requires LivesAgree(s) && t.runs == s.runs && t.rows == s.rows && t.bus == s.bus && t.cancels == s.cancels && t.reopened == s.reopened
    ensures LivesAgree(t)
  {
    forall id ensures LocalOk(t, id) {
      assert LocalOk(s, id);
    }
  }

  lemma LivesStepStart(s: State)
    requires ControlEnabled(s, Start) && LivesAgree(s)
    ensures LivesAgree(ControlNext(s, Start))
  {
    var t := ControlNext(s, Start);
    forall id ensures LocalOk(t, id) {
      assert LocalOk(s, id);
    }
  }

  lemma LivesStep(s: State, a: Action)
    requires Enabled(s, a) && LivesAgree(s) && PlacesAgree(s)
    ensures LivesAgree(Next(s, a))
  {
    match a
    case Control(c) =>
      if c.Start? {
        LivesStepStart(s);
      } else {
        LivesUntouched(s, ControlNext(s, c));
      }
    case Caller(c) => LivesStepCaller(s, c);
    case Dispatch(d) => LivesStepDispatcher(s, d);
    case Ingesting(i) => LivesStepIngest(s, i);
    case Execute(x) => LivesStepRun(s, x);
  }
}
