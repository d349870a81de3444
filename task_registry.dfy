/** The task registry of src/utils/task.py as a value: a map from task id to
    the (state, info) pair of its Task. The functions here are what the
    TaskManager's locked blocks do to that map; the lemmas are the
    registry's lifecycle guarantees. */
module TaskRegistry {
  import opened Wrappers
  import opened TaskStates

  type TaskId = string

  /** What the monitor can observe of a task's pool future at one sweep:
      queued (neither running nor done), running, done with a value, or done
      having raised (with the formatted traceback the monitor records). */
  datatype FutureStatus = Queued | Running | Finished | Raised(traceback: string)

  predicate IsDone(f: FutureStatus)
  {
    f.Finished? || f.Raised?
  }

  /** The observable part of a Task: its state and its info (None is Python's None). */
  datatype TaskView = TaskView(state: TaskState, info: Option<string>)

  type Registry = map<TaskId, TaskView>

  /** The entry `submit` inserts: PENDING with no info. */
  const Fresh: TaskView := TaskView(PENDING, None)

  /** Errors the TaskManager raises: TypeError for an untagged function,
      ValueError for an unknown task id. */
  datatype TaskError = NotLongTask(funcName: string) | NoSuchTask(taskId: TaskId)

  /** The registry after `submit` stores a fresh task under `id`. */
  function Submitted(reg: Registry, id: TaskId): (r: Registry)
    ensures r.Keys == reg.Keys + {id}
    ensures r[id].state == PENDING && r[id].info == None
    ensures forall k | k in reg && k != id :: r[k] == reg[k]
    ensures id !in reg ==> |r| == |reg| + 1
  {
    reg[id := Fresh]
  }

  /** One monitor step for one task, given its future's status. */
  function Observe(t: TaskView, f: FutureStatus): (r: TaskView)
    ensures f.Queued? ==> r == t
    ensures f.Running? ==> r.state == PROGRESS && r.info == t.info
    ensures f.Finished? ==> r.state == SUCCESS && r.info == t.info
    ensures f.Raised? ==> r.state == FAILURE && r.info == Some(f.traceback)
    ensures IsDone(f) ==> IsTerminal(r.state)
  {
    match f
    case Queued => t
    case Running => t.(state := PROGRESS)
    case Finished => t.(state := SUCCESS)
    case Raised(tb) => TaskView(FAILURE, Some(tb))
  }

  /** One sweep of the monitor over every registry entry. */
  function Swept(reg: Registry, futures: TaskId -> FutureStatus): (r: Registry)
    ensures r.Keys == reg.Keys
    ensures forall k | k in reg :: r[k] == Observe(reg[k], futures(k))
  {
    map k | k in reg :: Observe(reg[k], futures(k))
  }

  /** The registry after `result(id)`: a terminal task is removed, anything else stays. */
  function Consumed(reg: Registry, id: TaskId): (r: Registry)
    ensures id in reg && IsTerminal(reg[id].state) ==> r.Keys == reg.Keys - {id}
    ensures id !in reg || !IsTerminal(reg[id].state) ==> r == reg
    ensures forall k | k in r :: k in reg && r[k] == reg[k]
  {
    if id in reg && IsTerminal(reg[id].state) then reg - {id} else reg
  }

  /** What `result(id)` answers: the task, or ValueError for an unknown id. */
  function Answer(reg: Registry, id: TaskId): (r: Result<TaskView, TaskError>)
    ensures r.Failure? <==> id !in reg
    ensures r.Failure? ==> r.error == NoSuchTask(id)
    ensures r.Success? ==> r.value == reg[id]
  {
    if id in reg then Success(reg[id]) else Failure(NoSuchTask(id))
  }

  // ---------------------------------------------------------------------
  // Per-task lifecycle under successive sweeps

  /** Progress of a future: queued, then running, then done. */
  function FutureRank(f: FutureStatus): nat
  {
    match f
    case Queued => 0
    case Running => 1
    case Finished => 2
    case Raised(_) => 2
  }

  /** Progress of a task state along PENDING -> PROGRESS -> SUCCESS | FAILURE. */
  function StateRank(s: TaskState): nat
  {
    match s
    case PENDING => 0
    case PROGRESS => 1
    case SUCCESS => 2
    case FAILURE => 2
    case _ => 0
  }

  /** How a pool future can evolve between sweeps: it never goes back, and
      once done its outcome is fixed. */
  ghost predicate FutureHistory(fs: seq<FutureStatus>)
  {
    forall i, j | 0 <= i < j < |fs| ::
      FutureRank(fs[i]) <= FutureRank(fs[j]) && (IsDone(fs[i]) ==> fs[j] == fs[i])
  }

  /** The views of one task after each of a run of sweeps, starting from `t`. */
  function Trace(t: TaskView, fs: seq<FutureStatus>): (r: seq<TaskView>)
    ensures |r| == |fs|
    decreases |fs|
  {
    if fs == [] then [] else
      var t' := Observe(t, fs[0]);
      [t'] + Trace(t', fs[1..])
  }

  lemma {:induction false} TraceStep(t: TaskView, fs: seq<FutureStatus>, i: nat)
    requires 0 < i < |fs|
    ensures Trace(t, fs)[i] == Observe(Trace(t, fs)[i - 1], fs[i])
    decreases |fs|
  {
    var t' := Observe(t, fs[0]);
    if i > 1 {
      TraceStep(t', fs[1..], i - 1);
    }
  }

  /** Observing the same future twice changes nothing the second time. */
  lemma ObserveIdempotent(t: TaskView, f: FutureStatus)
    ensures Observe(Observe(t, f), f) == Observe(t, f)
  {
  }

  /** Starting from a freshly submitted task, the state rank after each sweep
      is exactly the future's rank at that sweep, except that a still-queued
      future leaves the task PENDING; and a task with no traceback has no info. */
  lemma {:induction false} TraceFollowsFuture(fs: seq<FutureStatus>, i: nat)
    requires FutureHistory(fs)
    requires i < |fs|
    ensures StateRank(Trace(Fresh, fs)[i].state) == FutureRank(fs[i])
    ensures Trace(Fresh, fs)[i].state in {PENDING, PROGRESS, SUCCESS, FAILURE}
    ensures fs[i].Queued? ==> Trace(Fresh, fs)[i].state == PENDING
    ensures fs[i].Running? ==> Trace(Fresh, fs)[i].state == PROGRESS
    ensures fs[i].Finished? ==> Trace(Fresh, fs)[i].state == SUCCESS
    ensures fs[i].Raised? ==> Trace(Fresh, fs)[i].state == FAILURE
    ensures !fs[i].Raised? ==> Trace(Fresh, fs)[i].info == None
    ensures fs[i].Raised? ==> Trace(Fresh, fs)[i].info == Some(fs[i].traceback)
  {
    var tr := Trace(Fresh, fs);
    if i > 0 {
      TraceFollowsFuture(fs, i - 1);
      TraceStep(Fresh, fs, i);
      assert FutureRank(fs[i - 1]) <= FutureRank(fs[i]);
      if fs[i].Queued? {
        assert fs[i - 1].Queued?;
      }
      if IsDone(fs[i - 1]) {
        assert fs[i] == fs[i - 1];
      }
    }
  }

  /** Progress monotonicity: over any run of sweeps of a freshly submitted
      task, the state never moves backwards along PENDING -> PROGRESS -> terminal. */
  lemma StatesNeverRegress(fs: seq<FutureStatus>, i: nat, j: nat)
    requires FutureHistory(fs)
    requires i <= j < |fs|
    ensures StateRank(Trace(Fresh, fs)[i].state) <= StateRank(Trace(Fresh, fs)[j].state)
  {
    TraceFollowsFuture(fs, i);
    TraceFollowsFuture(fs, j);
  }

  /** Once a sweep has made a task terminal, every later sweep leaves it with
      the same state and info: it never returns to PROGRESS and never switches
      between SUCCESS and FAILURE. */
  lemma {:induction false} TerminalIsFinal(t: TaskView, fs: seq<FutureStatus>, i: nat, j: nat)
    requires FutureHistory(fs)
    requires i <= j < |fs|
    requires IsDone(fs[i])
    ensures IsTerminal(Trace(t, fs)[j].state)
    ensures Trace(t, fs)[j] == Trace(t, fs)[i]
    decreases j
  {
    if j > i {
      TerminalIsFinal(t, fs, i, j - 1);
      TraceStep(t, fs, j);
      assert fs[j] == fs[i];
      assert fs[j - 1] == fs[i];
      if j - 1 > 0 {
        TraceStep(t, fs, j - 1);
        ObserveIdempotent(Trace(t, fs)[j - 2], fs[i]);
      } else {
        ObserveIdempotent(t, fs[i]);
      }
    } else if i > 0 {
      TraceStep(t, fs, i);
    }
  }

  // ---------------------------------------------------------------------
  // The registry over any interleaving of the manager's operations

  /** One locked operation of the TaskManager: a `submit` (whose function
      passed the long-task check or not), a monitor sweep, or a `result` call. */
  datatype Op =
    | SubmitOp(id: TaskId, admitted: bool)
    | SweepOp(futures: TaskId -> FutureStatus)
    | ResultOp(id: TaskId)

  function Apply(reg: Registry, op: Op): Registry
  {
    match op
    case SubmitOp(id, admitted) => if admitted then Submitted(reg, id) else reg
    case SweepOp(futures) => Swept(reg, futures)
    case ResultOp(id) => Consumed(reg, id)
  }

  /** The registry after a run of operations, applied in order. */
  function Run(reg: Registry, ops: seq<Op>): Registry
    decreases |ops|
  {
    if ops == [] then reg else Apply(Run(reg, ops[..|ops| - 1]), ops[|ops| - 1])
  }

  /** Only the states the manager's own code enters: PENDING on submit, then
      PROGRESS, SUCCESS or FAILURE from the monitor. */
  ghost predicate OnlyDrivenStates(reg: Registry)
  {
    forall k | k in reg :: reg[k].state in {PENDING, PROGRESS, SUCCESS, FAILURE}
  }

  /** No operation of the manager drives a task into STARTED, SENT, RETRY or REVOKED. */
  lemma {:induction false} RunKeepsDrivenStates(reg: Registry, ops: seq<Op>)
    requires OnlyDrivenStates(reg)
    ensures OnlyDrivenStates(Run(reg, ops))
    decreases |ops|
  {
    if ops != [] {
      RunKeepsDrivenStates(reg, ops[..|ops| - 1]);
    }
  }

  /** An id that is not in the registry stays out of it, so every `result`
      for it fails as not found, until a `submit` reuses that id. */
  lemma {:induction false} AbsentStaysAbsent(reg: Registry, ops: seq<Op>, id: TaskId)
    requires id !in reg
    requires forall n | 0 <= n < |ops| :: !(ops[n].SubmitOp? && ops[n].admitted && ops[n].id == id)
    ensures id !in Run(reg, ops)
    ensures Answer(Run(reg, ops), id) == Failure(NoSuchTask(id))
    decreases |ops|
  {
    if ops != [] {
      var prefix := ops[..|ops| - 1];
      AbsentStaysAbsent(reg, prefix, id);
    }
  }

  /** Consume-once: the `result` call that sees a task terminal is the only
      one that gets it; after it, no run of sweeps and `result` calls (and
      submits of other ids) ever answers that id again. */
  lemma ConsumeOnce(reg: Registry, id: TaskId, later: seq<Op>)
    requires id in reg && IsTerminal(reg[id].state)
    requires forall n | 0 <= n < |later| :: !(later[n].SubmitOp? && later[n].admitted && later[n].id == id)
    ensures Answer(reg, id) == Success(reg[id])
    ensures Answer(Run(Consumed(reg, id), later), id) == Failure(NoSuchTask(id))
  {
    AbsentStaysAbsent(Consumed(reg, id), later, id);
  }

  /** A `result` call on a task that is not terminal can be repeated: it
      neither removes nor changes anything. */
  lemma NonTerminalReadRepeats(reg: Registry, id: TaskId)
    requires id in reg && !IsTerminal(reg[id].state)
    ensures Consumed(reg, id) == reg
    ensures Answer(Consumed(reg, id), id) == Answer(reg, id)
  {
  }
}
