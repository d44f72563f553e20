/** The top-level commands and the change each makes to the store. */
module Commands {
  import opened Wrappers
  import opened Calendar
  import Statuses
  import ShortStrings
  import Categories
  import Priorities
  import DateSpecifiers
  import Task
  import List
  import Updates
  import Summaries
  import Format

  datatype Command =
    | Add(short: ShortStrings.ShortString, long: Option<string>, category: Option<Categories.Category>,
          deadline: Option<DateSpecifiers.DateSpecifier>)
    | Start(id: Statuses.TaskId)
    | Update(id: Statuses.TaskId, update: Updates.Update)
    | Print(format: Format.TaskListFormatter, summary: Summaries.Summary)
    | Clear

  /** What a command reports: the layout it printed, or the number of tasks
      it cleared. */
  datatype Output = Done | Printed(rendering: Format.Rendering) | Cleared(count: nat)

  /** The state of the task `Add` creates: not started, the default
      category when none is given, the default priority and no tags. */
  function AddedState(short: ShortStrings.ShortString, long: Option<string>, category: Option<Categories.Category>,
                      deadline: Option<DateSpecifiers.DateSpecifier>, today: Date): (s: Task.TaskState)
    ensures s.statuses == [Statuses.NotStarted] && Task.IsHistory(s.statuses)
    ensures category.None? ==> s.category == Categories.Default()
    ensures s.priority == Priorities.Default() && s.tags == {}
    ensures s.deadline.date.Some? <==> deadline.Some?
  {
    Task.TaskState(short, long, [Statuses.NotStarted],
                   match category case Some(c) => c case None => Categories.Default(),
                   Task.ResolvedDeadline(deadline, today), Priorities.Default(), {})
  }

  /** The effect of `Start` on the states of the store's tasks: a missing
      task is reported; a task whose current status is not `NotStarted` is
      reported as already started; otherwise it becomes in progress today. */
  predicate StartApplied(id: Statuses.TaskId, before: seq<Task.TaskState>, after: seq<Task.TaskState>,
                         r: Result<Output>, today: Date)
  {
    if id >= |before| then r == Err(NoTaskAtId(id)) && after == before
    else
      var h := before[id].statuses;
      if h != [] && h[|h| - 1].NotStarted? then
        r == Ok(Done) && after == before[id := before[id].(statuses := h + [Statuses.InProgress(today)])]
      else
        r == Err(AlreadyStarted) && after == before
  }

  /** The result of an update, as a command result. */
  function UpdateResult(r: Result<()>): (c: Result<Output>)
    ensures c.Ok? <==> r.Ok?
    ensures c.Ok? ==> c.value == Done
    ensures c.Err? ==> c.error == r.error
  {
    match r
    case Ok(_) => Ok(Done)
    case Err(e) => Err(e)
  }

  /** The result of `Print`: the layout of exactly the entries the summary
      selects from the store. */
  predicate PrintApplied(format: Format.TaskListFormatter, summary: Summaries.Summary, store: List.Tasks,
                         r: Result<Output>, today: Date, dateText: Date -> string)
    reads store, store.tasks
    requires store.Valid()
  {
    && r.Ok? && r.value.Printed?
    && Format.IsRenderingOf(r.value.rendering, format, Summaries.Select(summary, store.Iter(), today), dateText)
  }

  /** What the program needs so that a command does not panic: a blocking
      identifier in the store, and long descriptions that wrap. */
  predicate CanRun(cmd: Command, store: List.Tasks, today: Date)
    reads store, store.tasks
    requires store.Valid()
  {
    match cmd
    case Update(_, u) => Updates.BlockerInStore(u, store.NumTasks())
    case Print(format, summary) =>
      format.Long? ==> forall e | e in Summaries.Select(summary, store.Iter(), today) :: Format.LongFits(e.1)
    case _ => true
  }

  /** `Command::run`. */
  method Run(cmd: Command, store: List.Tasks, today: Date, dateText: Date -> string) returns (r: Result<Output>)
    requires store.Valid() && CanRun(cmd, store, today)
    modifies store, store.tasks
    ensures store.Valid()
    ensures |store.tasks| == if cmd.Add? then old(|store.tasks|) + 1 else if cmd.Clear? then 0 else old(|store.tasks|)
    ensures cmd.Add? ==>
      (r == Ok(Done) && store.Model() == old(store.Model()) + [AddedState(cmd.short, cmd.long, cmd.category, cmd.deadline, today)])
    ensures cmd.Start? ==> StartApplied(cmd.id, old(store.Model()), store.Model(), r, today)
    ensures cmd.Update? ==>
      (Updates.Applied(cmd.update, cmd.id, old(store.Model()), store.Model(), Unit(r), today) && (r.Ok? ==> r.value == Done))
    ensures cmd.Print? ==>
      (store.tasks == old(store.tasks) && store.Model() == old(store.Model())
       && PrintApplied(cmd.format, cmd.summary, store, r, today, dateText))
    ensures cmd.Clear? ==> (r == Ok(Cleared(old(|store.tasks|))) && store.tasks == [])
  {
    if cmd.Print? {
      r := RunPrint(cmd.format, cmd.summary, store, today, dateText);
    } else {
      r := RunChange(cmd, store, today);
    }
  }

  /** The commands that change the store. */
  method RunChange(cmd: Command, store: List.Tasks, today: Date) returns (r: Result<Output>)
    requires store.Valid() && CanRun(cmd, store, today) && !cmd.Print?
    modifies store, store.tasks
    ensures store.Valid()
    ensures |store.tasks| == if cmd.Add? then old(|store.tasks|) + 1 else if cmd.Clear? then 0 else old(|store.tasks|)
    ensures cmd.Add? ==>
      (r == Ok(Done) && store.Model() == old(store.Model()) + [AddedState(cmd.short, cmd.long, cmd.category, cmd.deadline, today)])
    ensures cmd.Start? ==> StartApplied(cmd.id, old(store.Model()), store.Model(), r, today)
    ensures cmd.Update? ==>
      (Updates.Applied(cmd.update, cmd.id, old(store.Model()), store.Model(), Unit(r), today) && (r.Ok? ==> r.value == Done))
    ensures cmd.Clear? ==> (r == Ok(Cleared(old(|store.tasks|))) && store.tasks == [])
  {
    match cmd
    case Add(short, long, category, deadline) =>
      r := RunAdd(short, long, category, deadline, store, today);
    case Start(id) =>
      r := RunStart(id, store, today);
    case Update(id, u) =>
      r := RunUpdate(id, u, store, today);
    case Clear =>
      r := RunClear(store);
  }

  method RunUpdate(id: Statuses.TaskId, u: Updates.Update, store: List.Tasks, today: Date) returns (r: Result<Output>)
    requires store.Valid() && Updates.BlockerInStore(u, store.NumTasks())
    modifies store.tasks
    ensures store.tasks == old(store.tasks) && store.Valid()
    ensures Updates.Applied(u, id, old(store.Model()), store.Model(), Unit(r), today) && (r.Ok? ==> r.value == Done)
  {
    var result := Updates.Run(u, id, store, today);
    r := UpdateResult(result);
    assert Unit(r) == result;
  }

  method RunPrint(format: Format.TaskListFormatter, summary: Summaries.Summary, store: List.Tasks, today: Date,
                  dateText: Date -> string) returns (r: Result<Output>)
    requires store.Valid()
    requires format.Long? ==> forall e | e in Summaries.Select(summary, store.Iter(), today) :: Format.LongFits(e.1)
    ensures PrintApplied(format, summary, store, r, today, dateText)
  {
    var out := Summaries.Run(summary, format, store, today, dateText);
    r := Ok(Printed(out.value));
  }

  method RunClear(store: List.Tasks) returns (r: Result<Output>)
    modifies store
    ensures store.Valid() && store.tasks == []
    ensures r == Ok(Cleared(old(|store.tasks|)))
  {
    var count := store.NumTasks();
    store.Clear();
    r := Ok(Cleared(count));
  }

  method RunAdd(short: ShortStrings.ShortString, long: Option<string>, category: Option<Categories.Category>,
                deadline: Option<DateSpecifiers.DateSpecifier>, store: List.Tasks, today: Date) returns (r: Result<Output>)
    requires store.Valid()
    modifies store
    ensures store.Valid() && r == Ok(Done)
    ensures |store.tasks| == old(|store.tasks|) + 1 && store.tasks[..old(|store.tasks|)] == old(store.tasks)
    ensures store.Model() == old(store.Model()) + [AddedState(short, long, category, deadline, today)]
  {
    var c := match category case Some(c) => c case None => Categories.Default();
    var task := new Task.Task(short, c, long, deadline, Priorities.Default(), [], today);
    assert task.State() == AddedState(short, long, category, deadline, today);
    store.AddTask(task);
    r := Ok(Done);
  }

  /** A command result as an update result. */
  function Unit(r: Result<Output>): (u: Result<()>)
    ensures u.Ok? <==> r.Ok?
    ensures u.Err? ==> u.error == r.error
  {
    match r
    case Ok(_) => Ok(())
    case Err(e) => Err(e)
  }

  method RunStart(id: Statuses.TaskId, store: List.Tasks, today: Date) returns (r: Result<Output>)
    requires store.Valid()
    modifies store.tasks
    ensures store.tasks == old(store.tasks) && store.Valid()
    ensures StartApplied(id, old(store.Model()), store.Model(), r, today)
  {
    var task :- store.GetTaskMutErr(id);
    ghost var before := store.Model();
    var started := task.Start(today);
    assert store.Model() == before[id := task.State()];
    if started.Err? {
      return Err(started.error);
    }
    r := Ok(Done);
  }

  /** A task starts at most once: after a successful start, starting it
      again fails and changes nothing. */
  lemma StartOnlyOnce(id: Statuses.TaskId, s0: seq<Task.TaskState>, s1: seq<Task.TaskState>,
                      s2: seq<Task.TaskState>, r2: Result<Output>, today1: Date, today2: Date)
    requires StartApplied(id, s0, s1, Ok(Done), today1)
    requires StartApplied(id, s1, s2, r2, today2)
    ensures r2 == Err(AlreadyStarted) && s2 == s1
  {
    var h := s0[id].statuses;
    assert s1[id].statuses == h + [Statuses.InProgress(today1)];
  }

  /** A task just added has the next identifier and can be started. */
  lemma AddedTaskStarts(before: seq<Task.TaskState>, added: Task.TaskState, after: seq<Task.TaskState>,
                        r: Result<Output>, today: Date)
    requires added.statuses == [Statuses.NotStarted]
    requires StartApplied(|before|, before + [added], after, r, today)
    ensures r == Ok(Done)
    ensures after[|before|].statuses == [Statuses.NotStarted, Statuses.InProgress(today)]
  {
  }

  /** Starting a task of the store keeps every history well formed and
      changes no other task. */
  lemma StartKeepsHistories(id: Statuses.TaskId, before: seq<Task.TaskState>, after: seq<Task.TaskState>,
                            r: Result<Output>, today: Date)
    requires StartApplied(id, before, after, r, today)
    requires forall k :: 0 <= k < |before| ==> Task.IsHistory(before[k].statuses)
    ensures |after| == |before|
    ensures forall k :: 0 <= k < |after| && k != id ==> after[k] == before[k]
    ensures forall k :: 0 <= k < |after| ==> Task.IsHistory(after[k].statuses)
  {
    if id < |before| && r.Ok? {
      var h := before[id].statuses;
      assert (h + [Statuses.InProgress(today)])[0] == h[0];
    }
  }
}
