/** The task store: tasks addressed by their position, which is their
    identifier. */
module List {
  import opened Wrappers
  import opened Statuses
  import Task

  /** The states of a sequence of tasks, position by position. */
  function States(ts: seq<Task.Task>): (r: seq<Task.TaskState>)
    reads ts
    ensures |r| == |ts|
    ensures forall i :: 0 <= i < |ts| ==> r[i] == ts[i].State()
  {
    if ts == [] then [] else States(ts[..|ts| - 1]) + [ts[|ts| - 1].State()]
  }

  /** Each task paired with its position, in order. */
  function Enumerate(ts: seq<Task.Task>): (r: seq<(TaskId, Task.Task)>)
    ensures |r| == |ts|
    ensures forall i :: 0 <= i < |ts| ==> r[i] == (i, ts[i])
  {
    if ts == [] then [] else Enumerate(ts[..|ts| - 1]) + [(|ts| - 1, ts[|ts| - 1])]
  }

  /** Identifiers strictly ascending along a sequence of entries. */
  predicate Ascending(entries: seq<(TaskId, Task.Task)>) {
    forall i, j :: 0 <= i < j < |entries| ==> entries[i].0 < entries[j].0
  }

  class Tasks {
    var tasks: seq<Task.Task>

    /** Every slot holds its own task, and every task's history is well
        formed. */
    predicate Valid()
      reads this, tasks
    {
      && (forall i, j :: 0 <= i < j < |tasks| ==> tasks[i] != tasks[j])
      && (forall t | t in tasks :: t.Valid())
    }

    function Model(): seq<Task.TaskState>
      reads this, tasks
    {
      States(tasks)
    }

    /** `Tasks::new`: the empty store. */
    constructor ()
      ensures tasks == [] && Valid()
    {
      tasks := [];
    }

    /** `has_id`: identifiers are the positions of the store. */
    predicate HasId(id: TaskId)
      reads this
      ensures HasId(id) <==> exists i :: 0 <= i < |Enumerate(tasks)| && Enumerate(tasks)[i].0 == id
    {
      assert id < |tasks| ==> Enumerate(tasks)[id].0 == id;
      id < |tasks|
    }

    /** `num_tasks`. */
    function NumTasks(): (n: nat)
      reads this
      ensures forall id: TaskId :: HasId(id) <==> id < n
    {
      |tasks|
    }

    /** `add_task`: the task takes the next identifier; no earlier task moves. */
    method AddTask(task: Task.Task)
      requires Valid() && task.Valid() && task !in tasks
      modifies this
      ensures Valid()
      ensures tasks == old(tasks) + [task]
      ensures NumTasks() == old(NumTasks()) + 1 && tasks[old(NumTasks())] == task
      ensures Model() == old(Model()) + [task.State()]
    {
      tasks := tasks + [task];
    }

    /** `get_task_mut`: the task at position `id`, if there is one. */
    function GetTaskMut(id: TaskId): (r: Option<Task.Task>)
      reads this
      ensures r.Some? <==> HasId(id)
      ensures r.Some? ==> r.value in tasks && r.value == tasks[id]
    {
      if id < |tasks| then Some(tasks[id]) else None
    }

    /** `get_task_mut_err`: as `get_task_mut`, reporting the missing identifier. */
    function GetTaskMutErr(id: TaskId): (r: Result<Task.Task>)
      reads this
      ensures r.Err? <==> !HasId(id)
      ensures r.Err? ==> r.error == NoTaskAtId(id)
      ensures r.Ok? ==> GetTaskMut(id) == Some(r.value)
    {
      match GetTaskMut(id)
      case Some(t) => Ok(t)
      case None => Err(NoTaskAtId(id))
    }

    /** `clear`: no identifier is in use afterwards. */
    method Clear()
      modifies this
      ensures tasks == [] && Valid()
      ensures forall id: TaskId :: !HasId(id)
    {
      tasks := [];
    }

    /** `iter`: every task with its identifier, identifiers ascending from 0. */
    function Iter(): (r: seq<(TaskId, Task.Task)>)
      reads this
      ensures |r| == NumTasks()
      ensures Ascending(r)
      ensures forall i :: 0 <= i < |r| ==> r[i].0 == i && HasId(r[i].0) && r[i].1 == tasks[i]
      ensures forall e | e in r :: e.1 in tasks
    {
      Enumerate(tasks)
    }
  }
}
