/** The TaskManager of src/utils/task.py with the worker pool, the lock and
    the monitor thread abstracted away: each locked block is one atomic
    method, the pool future of a task is observed through a status the
    environment supplies, and the uuid is an id the caller supplies. */
module Tasks {
  import opened Wrappers
  import opened TaskStates
  import opened TaskRegistry

  /** A function object that may carry the `_is_long_task` attribute:
      None when the attribute is missing, otherwise its truth value. */
  class Callable {
    const name: string
    var longTaskTag: Option<bool>

    constructor (name: string, longTaskTag: Option<bool>)
      ensures this.name == name && this.longTaskTag == longTaskTag
    {
      this.name := name;
      this.longTaskTag := longTaskTag;
    }
  }

  /** `getattr(func, '_is_long_task', False)` is truthy. */
  predicate IsLongTask(func: Callable)
    reads func
  {
    func.longTaskTag == Some(true)
  }

  /** The `@TaskManager.long_task` decorator: tags the function in place and returns it. */
  method LongTask(func: Callable) returns (tagged: Callable)
    modifies func`longTaskTag
    ensures tagged == func && IsLongTask(tagged)
  {
    func.longTaskTag := Some(true);
    tagged := func;
  }

  /** A task record. The id is fixed at creation; each setter overwrites one field. */
  class Task {
    const taskId: TaskId
    var state: TaskState
    var info: Option<string>

    constructor (taskId: TaskId, state: TaskState, info: Option<string>)
      ensures this.taskId == taskId && this.state == state && this.info == info
    {
      this.taskId := taskId;
      this.state := state;
      this.info := info;
    }

    function View(): (v: TaskView)
      reads this
      ensures v.state == state && v.info == info
    {
      TaskView(state, info)
    }

    method Pending()
      modifies this`state
      ensures state == PENDING
    {
      state := PENDING;
    }

    method Started()
      modifies this`state
      ensures state == STARTED
    {
      state := STARTED;
    }

    method Sent()
      modifies this`state
      ensures state == SENT
    {
      state := SENT;
    }

    method Progress()
      modifies this`state
      ensures state == PROGRESS
    {
      state := PROGRESS;
    }

    method Retry()
      modifies this`state
      ensures state == RETRY
    {
      state := RETRY;
    }

    method Revoked()
      modifies this`state
      ensures state == REVOKED
    {
      state := REVOKED;
    }

    method Success()
      modifies this`state
      ensures state == SUCCESS
    {
      state := SUCCESS;
    }

    method Failure()
      modifies this`state
      ensures state == FAILURE
    {
      state := FAILURE;
    }

    /** The monitor's per-task step: PROGRESS while the future runs; once it
        is done, SUCCESS, or FAILURE with the traceback as info. */
    method Track(status: FutureStatus)
      modifies this`state, this`info
      ensures View() == Observe(old(View()), status)
    {
      if status.Running? {
        Progress();
      } else if IsDone(status) {
        if status.Raised? {
          Failure();
          SetInfo(Some(status.traceback));
        } else {
          Success();
        }
      }
    }

    method SetInfo(info: Option<string>)
      modifies this`info
      ensures this.info == info
    {
      this.info := info;
    }
  }

  class TaskManager {
    var tasks: map<TaskId, Task>

    /** Every task is stored under its own id, so distinct keys hold distinct Task objects. */
    ghost predicate Valid()
      reads this
    {
      forall k | k in tasks :: tasks[k].taskId == k
    }

    /** The registry as a value. */
    ghost function Registry(): Registry
      reads this, tasks.Values
    {
      map k | k in tasks :: tasks[k].View()
    }

    /** A new manager has an empty registry (the pool and the monitor thread are not modelled). */
    constructor (maxWorkers: int)
      ensures Valid() && tasks == map[]
    {
      tasks := map[];
    }

    /** `submit`: rejects a function without the long-task tag, otherwise
        records a fresh PENDING task under `id` (the uuid) and returns it. */
    method Submit(func: Callable, id: TaskId) returns (r: Result<TaskId, TaskError>)
      requires Valid()
      modifies this
      ensures Valid()
      ensures !IsLongTask(func) ==> r == Failure(NotLongTask(func.name)) && tasks == old(tasks)
      ensures IsLongTask(func) ==> r == Success(id) && id in tasks && fresh(tasks[id])
      ensures IsLongTask(func) ==> id in tasks && tasks == old(tasks)[id := tasks[id]]
      ensures Registry() == if IsLongTask(func) then Submitted(old(Registry()), id) else old(Registry())
    {
      if !IsLongTask(func) {
        return Failure(NotLongTask(func.name));
      }
      ghost var before := Registry();
      var task := new Task(id, PENDING, None);
      tasks := tasks[id := task];
      assert Registry() == Submitted(before, id) by {
        assert Registry().Keys == before.Keys + {id};
        forall k | k in tasks ensures Registry()[k] == Submitted(before, id)[k] {
          if k != id {
            assert tasks[k] == old(tasks)[k];
          }
        }
      }
      r := Success(id);
    }

    /** One pass of the monitor loop over every task, `futures(k)` being the
        status of task k's pool future during this pass. */
    method Sweep(futures: TaskId -> FutureStatus)
      requires Valid()
      modifies tasks.Values
      ensures Valid()
      ensures Registry() == Swept(old(Registry()), futures)
    {
      var pending := tasks.Keys;
      while pending != {}
        invariant pending <= tasks.Keys
        invariant forall k | k in tasks && k !in pending :: tasks[k].View() == Observe(old(tasks[k].View()), futures(k))
        invariant forall k | k in pending :: tasks[k].View() == old(tasks[k].View())
        decreases pending
      {
        var k :| k in pending;
        var task := tasks[k];
        var status := futures(k);
        forall j | j in tasks && j != k ensures tasks[j] != task {
          assert tasks[j].taskId == j;
        }
        task.Track(status);
        pending := pending - {k};
      }
    }

    /** `result`: ValueError for an unknown id; otherwise the task itself,
        removed from the registry when it is SUCCESS or FAILURE. */
    method Result(id: TaskId) returns (r: Result<Task, TaskError>)
      requires Valid()
      modifies this
      ensures Valid()
      ensures id !in old(tasks) ==> r == Failure(NoSuchTask(id)) && tasks == old(tasks)
      ensures id in old(tasks) ==> r == Success(old(tasks)[id])
      ensures tasks == if id in old(tasks) && IsTerminal(old(tasks)[id].state) then old(tasks) - {id} else old(tasks)
      ensures Registry() == Consumed(old(Registry()), id)
      ensures r.Success? ==> Success(r.value.View()) == Answer(old(Registry()), id)
    {
      if id !in tasks {
        return Failure(NoSuchTask(id));
      }
      var task := tasks[id];
      if task.state == SUCCESS || task.state == FAILURE {
        tasks := tasks - {id};
      }
      r := Success(task);
    }
  }
}
