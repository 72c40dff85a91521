/** The frontend's task store: a reducer over the task list, the task being
    viewed, a loading flag and an error message, and a provider whose
    callbacks each dispatch a fixed sequence of actions to it, depending on
    what the task service answered. */
module TaskStore {
  import opened Values
  import opened ServiceReply

  datatype Status = Pending | InProgress | Completed | Cancelled
  datatype Priority = Low | Medium | High | Urgent

  datatype Task = Task(
    id: string,
    title: string,
    description: string,
    status: Status,
    priority: Priority,
    dueDate: Option<string>,
    createdBy: string,
    createdAt: string,
    updatedAt: string)

  datatype TaskState = TaskState(
    tasks: seq<Task>,
    currentTask: Option<Task>,
    loading: bool,
    error: Option<string>)

  const InitialState := TaskState([], None, false, None)

  datatype TaskAction =
    | TasksLoading
    | TasksSuccess(list: seq<Task>)
    | TaskSuccess(task: Task)
    | TasksError(message: string)
    | TaskCreate(task: Task)
    | TaskUpdate(task: Task)
    | TaskDelete(id: string)
    | ClearError
    | ClearCurrentTask

  /** No two tasks in the list share an id. */
  predicate UniqueIds(ts: seq<Task>)
  {
    forall i, j :: 0 <= i < j < |ts| ==> ts[i].id != ts[j].id
  }

  /** `tasks.map(task => task.id === t.id ? t : task)`. */
  function ReplaceById(ts: seq<Task>, t: Task): (r: seq<Task>)
    ensures |r| == |ts|
    ensures forall i :: 0 <= i < |ts| ==> r[i].id == ts[i].id
    ensures forall i :: 0 <= i < |ts| && ts[i].id == t.id ==> r[i] == t
    ensures forall i :: 0 <= i < |ts| && ts[i].id != t.id ==> r[i] == ts[i]
  {
    if ts == [] then []
    else [if ts[0].id == t.id then t else ts[0]] + ReplaceById(ts[1..], t)
  }

  /** `tasks.filter(task => task.id !== id)`: every task with that id goes,
      every other task stays, as often as it occurred. */
  function RemoveById(ts: seq<Task>, id: string): (r: seq<Task>)
    ensures |r| <= |ts|
    ensures forall t :: t in r ==> t in ts && t.id != id
    ensures forall t :: multiset(r)[t] == if t.id == id then 0 else multiset(ts)[t]
  {
    if ts == [] then []
    else
      assert ts == [ts[0]] + ts[1..];
      if ts[0].id == id then RemoveById(ts[1..], id)
      else [ts[0]] + RemoveById(ts[1..], id)
  }

  /** The four actions that carry a new list or a change to it. */
  predicate ListAction(a: TaskAction)
  {
    a.TasksSuccess? || a.TaskCreate? || a.TaskUpdate? || a.TaskDelete?
  }

  /** The reducer. Each field is changed only by the actions that are about
      it: the list by the list actions, the flag by the fetch cycle, the
      error by loading, failing and clearing, the current task by fetching,
      updating, deleting and clearing it. */
  function TaskReducer(s: TaskState, a: TaskAction): (r: TaskState)
    ensures r.tasks != s.tasks ==> ListAction(a)
    ensures r.loading != s.loading ==> a.TasksLoading? || a.TasksSuccess? || a.TaskSuccess? || a.TasksError?
    ensures r.error != s.error ==> a.TasksLoading? || a.TasksError? || a.ClearError?
    ensures r.currentTask != s.currentTask ==>
              a.TaskSuccess? || a.TaskUpdate? || a.TaskDelete? || a.ClearCurrentTask?
  {
    match a
    case TasksLoading => s.(loading := true, error := None)
    case TasksSuccess(list) => s.(loading := false, tasks := list)
    case TaskSuccess(t) => s.(loading := false, currentTask := Some(t))
    case TasksError(message) => s.(loading := false, error := Some(message))
    case TaskCreate(t) => s.(tasks := s.tasks + [t])
    case TaskUpdate(t) => s.(tasks := ReplaceById(s.tasks, t), currentTask := Some(t))
    case TaskDelete(id) =>
      s.(tasks := RemoveById(s.tasks, id),
         currentTask := if s.currentTask.Some? && s.currentTask.value.id == id then None else s.currentTask)
    case ClearError => s.(error := None)
    case ClearCurrentTask => s.(currentTask := None)
  }

  /** Dispatching a sequence of actions, first to last. A sequence with no
      list action leaves the list as it was. */
  function Run(s: TaskState, actions: seq<TaskAction>): (r: TaskState)
    ensures (forall i :: 0 <= i < |actions| ==> !ListAction(actions[i])) ==> r.tasks == s.tasks
    decreases |actions|
  {
    if actions == [] then s else Run(TaskReducer(s, actions[0]), actions[1..])
  }

  // ----- list operations -----

  /** Removing an id twice removes no more than removing it once. */
  lemma {:induction false} RemoveByIdIdempotent(ts: seq<Task>, id: string)
    ensures RemoveById(RemoveById(ts, id), id) == RemoveById(ts, id)
  {
    if ts != [] {
      RemoveByIdIdempotent(ts[1..], id);
    }
  }

  /** Removal works element by element, so the survivors keep their order. */
  lemma {:induction false} RemoveByIdAppend(a: seq<Task>, b: seq<Task>, id: string)
    ensures RemoveById(a + b, id) == RemoveById(a, id) + RemoveById(b, id)
  {
    if a == [] {
      assert a + b == b;
    } else {
      assert (a + b)[1..] == a[1..] + b;
      RemoveByIdAppend(a[1..], b, id);
    }
  }

  /** A list holding no task with the id is left as it is. */
  lemma {:induction false} RemoveByIdAbsent(ts: seq<Task>, id: string)
    requires forall i :: 0 <= i < |ts| ==> ts[i].id != id
    ensures RemoveById(ts, id) == ts
  {
    if ts != [] {
      RemoveByIdAbsent(ts[1..], id);
      assert ts == [ts[0]] + ts[1..];
    }
  }

  /** Removal keeps the ids distinct. */
  lemma {:induction false} RemoveByIdKeepsUniqueIds(ts: seq<Task>, id: string)
    requires UniqueIds(ts)
    ensures UniqueIds(RemoveById(ts, id))
  {
    if ts != [] {
      var rest := RemoveById(ts[1..], id);
      RemoveByIdKeepsUniqueIds(ts[1..], id);
      if ts[0].id != id {
        var r := [ts[0]] + rest;
        forall i, j | 0 <= i < j < |r|
          ensures r[i].id != r[j].id
        {
          if i == 0 {
            assert r[j] in ts[1..];
          }
        }
      }
    }
  }

  /** Replacing by the same task twice is replacing once. */
  lemma ReplaceByIdIdempotent(ts: seq<Task>, t: Task)
    ensures ReplaceById(ReplaceById(ts, t), t) == ReplaceById(ts, t)
  {
  }

  /** Replacement keeps the ids distinct. */
  lemma ReplaceByIdKeepsUniqueIds(ts: seq<Task>, t: Task)
    requires UniqueIds(ts)
    ensures UniqueIds(ReplaceById(ts, t))
  {
  }

  // ----- single actions -----

  /** `TASKS_LOADING` raises the flag, clears the error, and keeps the
      list and the current task. */
  lemma LoadingStarts(s: TaskState)
    ensures var r := TaskReducer(s, TasksLoading);
      r.loading && r.error == None && r.tasks == s.tasks && r.currentTask == s.currentTask
  {
  }

  /** `TASKS_ERROR` settles with the message, keeping the list, the
      current task and whatever was loaded before. */
  lemma ErrorSettles(s: TaskState, message: string)
    ensures var r := TaskReducer(s, TasksError(message));
      !r.loading && r.error == Some(message) && r.tasks == s.tasks && r.currentTask == s.currentTask
  {
  }

  /** `TASK_CREATE` appends at the end and leaves the flag alone. */
  lemma CreateAppends(s: TaskState, t: Task)
    ensures var r := TaskReducer(s, TaskCreate(t));
      && |r.tasks| == |s.tasks| + 1 && s.tasks <= r.tasks && r.tasks[|s.tasks|] == t
      && r.loading == s.loading && r.error == s.error && r.currentTask == s.currentTask
  {
  }

  /** `TASK_UPDATE` replaces every task with the payload's id, in place,
      and makes the payload current even when no task had that id. */
  lemma UpdateReplaces(s: TaskState, t: Task)
    ensures var r := TaskReducer(s, TaskUpdate(t));
      && |r.tasks| == |s.tasks|
      && (forall i :: 0 <= i < |s.tasks| ==> r.tasks[i] == if s.tasks[i].id == t.id then t else s.tasks[i])
      && r.currentTask == Some(t)
      && r.loading == s.loading && r.error == s.error
  {
  }

  /** `TASK_DELETE` clears the current task exactly when it has the
      deleted id, and no task with that id is left. */
  lemma DeleteRemoves(s: TaskState, id: string)
    ensures var r := TaskReducer(s, TaskDelete(id));
      && (r.currentTask == None <==> s.currentTask == None || s.currentTask.value.id == id)
      && (r.currentTask != None ==> r.currentTask == s.currentTask)
      && (forall t :: t in r.tasks <==> t in s.tasks && t.id != id)
      && r.loading == s.loading && r.error == s.error
  {
  }

  /** Deleting the same id twice is deleting it once. */
  lemma DeleteIdempotent(s: TaskState, id: string)
    ensures TaskReducer(TaskReducer(s, TaskDelete(id)), TaskDelete(id)) == TaskReducer(s, TaskDelete(id))
  {
    RemoveByIdIdempotent(s.tasks, id);
  }

  /** The two clearing actions each touch one field and are idempotent. */
  lemma ClearingIsIdempotent(s: TaskState)
    ensures TaskReducer(s, ClearError) == s.(error := None)
    ensures TaskReducer(TaskReducer(s, ClearError), ClearError) == TaskReducer(s, ClearError)
    ensures TaskReducer(s, ClearCurrentTask) == s.(currentTask := None)
    ensures TaskReducer(TaskReducer(s, ClearCurrentTask), ClearCurrentTask) == TaskReducer(s, ClearCurrentTask)
  {
  }

  /** Distinct ids survive every action except a `TASKS_SUCCESS` carrying
      duplicates and a `TASK_CREATE` whose task's id is already listed. */
  lemma ReducerKeepsUniqueIds(s: TaskState, a: TaskAction)
    requires UniqueIds(s.tasks)
    requires a.TasksSuccess? ==> UniqueIds(a.list)
    requires a.TaskCreate? ==> forall i :: 0 <= i < |s.tasks| ==> s.tasks[i].id != a.task.id
    ensures UniqueIds(TaskReducer(s, a).tasks)
  {
    match a
    case TaskUpdate(t) => ReplaceByIdKeepsUniqueIds(s.tasks, t);
    case TaskDelete(id) => RemoveByIdKeepsUniqueIds(s.tasks, id);
    case _ =>
  }

  /** Running two sequences is running their concatenation. */
  lemma {:induction false} RunAppend(s: TaskState, xs: seq<TaskAction>, ys: seq<TaskAction>)
    ensures Run(s, xs + ys) == Run(Run(s, xs), ys)
    decreases |xs|
  {
    if xs == [] {
      assert xs + ys == ys;
    } else {
      assert (xs + ys)[1..] == xs[1..] + ys;
      RunAppend(TaskReducer(s, xs[0]), xs[1..], ys);
    }
  }

  /** Running two actions. */
  lemma RunTwo(s: TaskState, a: TaskAction, b: TaskAction)
    ensures Run(s, [a, b]) == TaskReducer(TaskReducer(s, a), b)
  {
    var s1 := TaskReducer(s, a);
    assert [a, b][1..] == [b];
    assert Run(s, [a, b]) == Run(s1, [b]);
    assert [b][1..] == [];
    assert Run(s1, [b]) == Run(TaskReducer(s1, b), []);
  }

  // ----- the provider's callbacks -----

  const MsgFetchTasks := "Failed to fetch tasks"
  const MsgFetchTask := "Failed to fetch task"
  const MsgCreate := "Failed to create task"
  const MsgUpdate := "Failed to update task"
  const MsgDelete := "Failed to delete task"
  const MsgUpdateStatus := "Failed to update task status"

  /** The action that settles a call: the success action for the data, or
      `TASKS_ERROR` with the service's text or the fallback. Its ensures
      are the definition the callbacks' lemmas are proved against. */
  function Settle<T>(reply: Reply<T>, onData: T -> TaskAction, fallback: string): (a: TaskAction)
    ensures Delivered(reply) ==> a == onData(reply.data.value)
    ensures !Delivered(reply) ==> a == TasksError(ErrorText(ReplyError(reply), fallback))
  {
    if Delivered(reply) then onData(reply.data.value)
    else TasksError(ErrorText(ReplyError(reply), fallback))
  }

  /** `fetchTasks`: loading, then the list or the error. */
  function FetchTasksSteps(reply: Reply<seq<Task>>): (r: seq<TaskAction>)
    ensures |r| == 2 && r[0] == TasksLoading
    ensures r[1].TasksSuccess? <==> Delivered(reply)
  {
    [TasksLoading, Settle(reply, list => TasksSuccess(list), MsgFetchTasks)]
  }

  /** `fetchTask`: loading, then the task or the error. */
  function FetchTaskSteps(reply: Reply<Task>): (r: seq<TaskAction>)
    ensures |r| == 2 && r[0] == TasksLoading
    ensures r[1].TaskSuccess? <==> Delivered(reply)
  {
    [TasksLoading, Settle(reply, t => TaskSuccess(t), MsgFetchTask)]
  }

  /** `createTask`: loading, then the append or the error. */
  function CreateTaskSteps(reply: Reply<Task>): (r: seq<TaskAction>)
    ensures |r| == 2 && r[0] == TasksLoading
    ensures r[1].TaskCreate? <==> Delivered(reply)
  {
    [TasksLoading, Settle(reply, t => TaskCreate(t), MsgCreate)]
  }

  /** `updateTask`: loading, then the replacement or the error. */
  function UpdateTaskSteps(reply: Reply<Task>): (r: seq<TaskAction>)
    ensures |r| == 2 && r[0] == TasksLoading
    ensures r[1].TaskUpdate? <==> Delivered(reply)
  {
    [TasksLoading, Settle(reply, t => TaskUpdate(t), MsgUpdate)]
  }

  /** `deleteTask`: loading, then the removal or the error. Deletion looks
      at `success` only; the body carries no data. */
  function DeleteTaskSteps(id: string, reply: Reply<()>): (r: seq<TaskAction>)
    ensures |r| == 2 && r[0] == TasksLoading
    ensures r[1] == TaskDelete(id) <==> reply.Answered? && reply.success
  {
    [TasksLoading,
     if reply.Answered? && reply.success then TaskDelete(id)
     else TasksError(ErrorText(ReplyError(reply), MsgDelete))]
  }

  /** `updateTaskStatus`: the replacement or the error, with no
      `TASKS_LOADING` first. */
  function UpdateTaskStatusSteps(reply: Reply<Task>): (r: seq<TaskAction>)
    ensures |r| == 1 && !r[0].TasksLoading?
    ensures r[0].TaskUpdate? <==> Delivered(reply)
  {
    [Settle(reply, t => TaskUpdate(t), MsgUpdateStatus)]
  }

  /** A callback that starts loading runs its second action on the loading
      state. */
  lemma LoadingThen(s: TaskState, steps: seq<TaskAction>)
    requires |steps| == 2 && steps[0] == TasksLoading
    ensures Run(s, steps) == TaskReducer(s.(loading := true, error := None), steps[1])
  {
    assert steps == [steps[0], steps[1]];
    RunTwo(s, TasksLoading, steps[1]);
  }

  /** A successful fetch of the list settles with exactly that list and no
      error; the task being viewed is kept. */
  lemma FetchTasksDelivered(s: TaskState, reply: Reply<seq<Task>>)
    requires Delivered(reply)
    ensures var r := Run(s, FetchTasksSteps(reply));
      r == s.(tasks := reply.data.value, loading := false, error := None)
  {
    LoadingThen(s, FetchTasksSteps(reply));
  }

  /** A successful fetch of one task makes it current and settles. */
  lemma FetchTaskDelivered(s: TaskState, reply: Reply<Task>)
    requires Delivered(reply)
    ensures var r := Run(s, FetchTaskSteps(reply));
      r == s.(currentTask := Some(reply.data.value), loading := false, error := None)
  {
    LoadingThen(s, FetchTaskSteps(reply));
  }

  /** After a successful create the loading flag is left raised: nothing
      in that path lowers it. The task is appended to the list. */
  lemma CreateLeavesLoading(s: TaskState, reply: Reply<Task>)
    requires Delivered(reply)
    ensures var r := Run(s, CreateTaskSteps(reply));
      r.loading && r.error == None && r.tasks == s.tasks + [reply.data.value]
      && r.currentTask == s.currentTask
  {
    LoadingThen(s, CreateTaskSteps(reply));
  }

  /** After a successful update the loading flag is left raised. The task
      replaces every task with its id and becomes the current task. */
  lemma UpdateLeavesLoading(s: TaskState, reply: Reply<Task>)
    requires Delivered(reply)
    ensures var r := Run(s, UpdateTaskSteps(reply));
      r.loading && r.error == None && r.currentTask == Some(reply.data.value)
      && r.tasks == ReplaceById(s.tasks, reply.data.value)
  {
    LoadingThen(s, UpdateTaskSteps(reply));
  }

  /** After a successful delete the loading flag is left raised. Every task
      with the id is gone from the list. */
  lemma DeleteLeavesLoading(s: TaskState, id: string, done: Reply<()>)
    requires done.Answered? && done.success
    ensures var r := Run(s, DeleteTaskSteps(id, done));
      && r.loading && r.error == None && r.tasks == RemoveById(s.tasks, id)
      && r.currentTask == (if s.currentTask.Some? && s.currentTask.value.id == id then None else s.currentTask)
  {
    LoadingThen(s, DeleteTaskSteps(id, done));
  }

  /** Every failure settles: loading off, the service's text or the
      operation's fallback as the error, list and current task as before. */
  lemma FailuresSettle(s: TaskState, list: Reply<seq<Task>>, one: Reply<Task>, id: string, done: Reply<()>)
    ensures !Delivered(list) ==>
      Run(s, FetchTasksSteps(list)) == s.(loading := false, error := Some(ErrorText(ReplyError(list), MsgFetchTasks)))
    ensures !Delivered(one) ==>
      Run(s, FetchTaskSteps(one)) == s.(loading := false, error := Some(ErrorText(ReplyError(one), MsgFetchTask)))
    ensures !Delivered(one) ==>
      Run(s, CreateTaskSteps(one)) == s.(loading := false, error := Some(ErrorText(ReplyError(one), MsgCreate)))
    ensures !Delivered(one) ==>
      Run(s, UpdateTaskSteps(one)) == s.(loading := false, error := Some(ErrorText(ReplyError(one), MsgUpdate)))
    ensures !(done.Answered? && done.success) ==>
      Run(s, DeleteTaskSteps(id, done)) == s.(loading := false, error := Some(ErrorText(ReplyError(done), MsgDelete)))
  {
    LoadingThen(s, FetchTasksSteps(list));
    LoadingThen(s, FetchTaskSteps(one));
    LoadingThen(s, CreateTaskSteps(one));
    LoadingThen(s, UpdateTaskSteps(one));
    LoadingThen(s, DeleteTaskSteps(id, done));
  }

  /** Without its own `TASKS_LOADING` step, a successful status change
      keeps whatever loading flag and stale error were showing. */
  lemma StatusChangeKeepsStaleError(s: TaskState, reply: Reply<Task>)
    requires Delivered(reply)
    ensures var r := Run(s, UpdateTaskStatusSteps(reply));
      r.loading == s.loading && r.error == s.error && r.currentTask == Some(reply.data.value)
      && r.tasks == ReplaceById(s.tasks, reply.data.value)
  {
    assert UpdateTaskStatusSteps(reply)[1..] == [];
  }

  /** The provider: the reducer's state and the callbacks that dispatch to
      it. Each callback takes the service's answer as a parameter. */
  class TaskProvider {
    var state: TaskState

    constructor()
      ensures state == InitialState
    {
      state := InitialState;
    }

    method Dispatch(a: TaskAction)
      modifies this
      ensures state == TaskReducer(old(state), a)
    {
      state := TaskReducer(state, a);
    }

    method FetchTasks(reply: Reply<seq<Task>>)
      modifies this
      ensures state == Run(old(state), FetchTasksSteps(reply))
    {
      ghost var s0 := state;
      Dispatch(TasksLoading);
      if reply.Answered? && reply.success && reply.data.Some? {
        Dispatch(TasksSuccess(reply.data.value));
      } else {
        Dispatch(TasksError(ErrorText(ReplyError(reply), MsgFetchTasks)));
      }
      RunTwo(s0, TasksLoading, FetchTasksSteps(reply)[1]);
    }

    method FetchTask(reply: Reply<Task>)
      modifies this
      ensures state == Run(old(state), FetchTaskSteps(reply))
    {
      ghost var s0 := state;
      Dispatch(TasksLoading);
      if reply.Answered? && reply.success && reply.data.Some? {
        Dispatch(TaskSuccess(reply.data.value));
      } else {
        Dispatch(TasksError(ErrorText(ReplyError(reply), MsgFetchTask)));
      }
      RunTwo(s0, TasksLoading, FetchTaskSteps(reply)[1]);
    }

    method CreateTask(reply: Reply<Task>)
      modifies this
      ensures state == Run(old(state), CreateTaskSteps(reply))
    {
      ghost var s0 := state;
      Dispatch(TasksLoading);
      if reply.Answered? && reply.success && reply.data.Some? {
        Dispatch(TaskCreate(reply.data.value));
      } else {
        Dispatch(TasksError(ErrorText(ReplyError(reply), MsgCreate)));
      }
      RunTwo(s0, TasksLoading, CreateTaskSteps(reply)[1]);
    }

    method UpdateTask(reply: Reply<Task>)
      modifies this
      ensures state == Run(old(state), UpdateTaskSteps(reply))
    {
      ghost var s0 := state;
      Dispatch(TasksLoading);
      if reply.Answered? && reply.success && reply.data.Some? {
        Dispatch(TaskUpdate(reply.data.value));
      } else {
        Dispatch(TasksError(ErrorText(ReplyError(reply), MsgUpdate)));
      }
      RunTwo(s0, TasksLoading, UpdateTaskSteps(reply)[1]);
    }

    method DeleteTask(id: string, reply: Reply<()>)
      modifies this
      ensures state == Run(old(state), DeleteTaskSteps(id, reply))
    {
      ghost var s0 := state;
      Dispatch(TasksLoading);
      if reply.Answered? && reply.success {
        Dispatch(TaskDelete(id));
      } else {
        Dispatch(TasksError(ErrorText(ReplyError(reply), MsgDelete)));
      }
      RunTwo(s0, TasksLoading, DeleteTaskSteps(id, reply)[1]);
    }

    method UpdateTaskStatus(reply: Reply<Task>)
      modifies this
      ensures state == Run(old(state), UpdateTaskStatusSteps(reply))
    {
      ghost var s0 := state;
      if reply.Answered? && reply.success && reply.data.Some? {
        Dispatch(TaskUpdate(reply.data.value));
      } else {
        Dispatch(TasksError(ErrorText(ReplyError(reply), MsgUpdateStatus)));
      }
      assert UpdateTaskStatusSteps(reply)[1..] == [];
    }

    method ClearError()
      modifies this
      ensures state == old(state).(error := None)
    {
      Dispatch(TaskAction.ClearError);
    }

    method ClearCurrentTask()
      modifies this
      ensures state == old(state).(currentTask := None)
    {
      Dispatch(TaskAction.ClearCurrentTask);
    }
  }
}
