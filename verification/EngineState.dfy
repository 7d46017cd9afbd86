/**
 * The engine object: its fields and the critical sections the protocol interleaves. Each method's last clauses say
 * which step of the protocol it takes: from any protocol state the object shows, it comes to show the next one.
 */
module EngineState {
  import opened EngineProtocol

  /** The steps that release the job of run `id`: at its end, after a refusal, or after it was abandoned in hand. */
  ghost predicate Releases(s: State, a: Action, job: string, id: RunId) {
    && id in s.runs && s.runs[id].job == job
    && (|| a == Execute(ReleaseJob(id))
        || (a == Caller(Refuse(id)) && s.runs[id].kind.Locks())
        || (a == Dispatch(ReleaseAbandoned) && s.hand == Abandoning(id)))
  }

  class Engine {
    var running: bool
    var locks: map<string, RunId>
    var cancels: set<RunId>
    var tasks: seq<RunId>
    var queued: int
    /** One semaphore per generation; the last one is current. */
    var caps: seq<nat>
    var tokens: seq<nat>

    /** The part of a protocol state that lives in the object; the rest is where its goroutines stand and the store. */
    ghost predicate Shows(s: State)
      reads this
    {
      && running == s.running && locks == s.locks && cancels == s.cancels && tasks == s.queue
      && queued == s.queued && caps == s.caps && tokens == s.tokens
    }

    twostate predicate Takes(a: Action)
      reads this
    {
      forall s: State :: old(Shows(s)) && Enabled(s, a) ==> Shows(Next(s, a))
    }

    constructor ()
      ensures forall s: State :: Init(s) ==> Shows(s)
      ensures |caps| == |tokens| > 0
    {
      running, locks, cancels, tasks, queued := false, map[], {}, [], 0;
      caps, tokens := [2], [0];
    }

    method TryLockJob(job: string, id: RunId) returns (ok: bool)
      modifies this`locks
      ensures ok == LockFree(old(locks), job)
      ensures locks == if ok then WithLock(old(locks), job, id) else old(locks)
      ensures forall s: State ::
                old(Shows(s)) && CallerEnabled(s, TryLock(id)) && s.runs[id].job == job && s.runs[id].kind.Locks() ==>
                Shows(CallerNext(s, TryLock(id))) && (ok <==> PcIs(CallerNext(s, TryLock(id)), id, Locked))
    {
      if job == "" {
        return true;
      }
      if job in locks {
        return false;
      }
      locks := locks[job := id];
      return true;
    }

    method ReleaseJob(job: string, id: RunId)
      modifies this`locks
      ensures locks == WithoutLock(old(locks), job, id)
      ensures forall s: State, a: Action :: old(Shows(s)) && Enabled(s, a) && Releases(s, a, job, id) ==> Shows(Next(s, a))
    {
      if job == "" {
        return;
      }
      if job in locks && locks[job] == id {
        locks := locks - {job};
      }
    }

    method SetConcurrency(n: int)
      requires |caps| == |tokens| > 0
      modifies this`caps, this`tokens
      ensures |caps| == |tokens| > 0 && caps[|caps| - 1] == Concurrency(n)
      ensures if old(caps)[|old(caps)| - 1] == Concurrency(n) then caps == old(caps) && tokens == old(tokens)
              else caps == old(caps) + [Concurrency(n)] && tokens == old(tokens) + [0]
      ensures Takes(Control(ControlAction.SetConcurrency(n)))
    {
      var size := if n <= 0 then 2 else n;
      if caps[|caps| - 1] == size {
        return;
      }
      caps, tokens := caps + [size], tokens + [0];
    }

    /** The non-blocking send of `enqueue`: never blocks, never exceeds the channel. */
    method TrySend(id: RunId) returns (sent: bool)
      modifies this`tasks
      ensures sent == (|old(tasks)| < QUEUE_CAPACITY)
      ensures tasks == if sent then old(tasks) + [id] else old(tasks)
      ensures Takes(Caller(Send(id)))
      ensures forall s: State ::
                old(Shows(s)) && CallerEnabled(s, Send(id)) ==> (sent <==> PcIs(CallerNext(s, Send(id)), id, InQueue))
    {
      sent := |tasks| < QUEUE_CAPACITY;
      if sent {
        tasks := tasks + [id];
      }
    }

    method Cancel(id: RunId) returns (found: bool)
      ensures found == (id in cancels)
    {
      found := id in cancels;
    }
  }
}
