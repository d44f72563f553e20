/** Status updates: each builds one status and appends it to a task of the
    store. */
module StatusUpdates {
  import opened Wrappers
  import opened Calendar
  import Statuses
  import Outcomes
  import ShortStrings
  import DateSpecifiers
  import Task
  import List

  datatype StatusUpdate =
    | InProgress
    | BlockedByTask(blocking: Statuses.TaskId)
    | BlockedByOther(reason: ShortStrings.ShortString)
    | Completed(outcome: Outcomes.Outcome, date: DateSpecifiers.DateSpecifier)
    | Discarded(reason: ShortStrings.ShortString)

  /** The completion date when none is given on the command line. */
  function DefaultCompletionDate(): DateSpecifiers.DateSpecifier {
    DateSpecifiers.Today
  }

  /** The status an update records, for a store of `numTasks` tasks. A
      blocking identifier outside the store makes the program panic, so it is
      a precondition here. Every status is dated today except a completion,
      which carries the date its specifier resolves to. */
  function Build(u: StatusUpdate, numTasks: nat, today: Date): (s: Statuses.Status)
    requires u.BlockedByTask? ==> u.blocking < numTasks
    ensures !s.NotStarted?
    ensures u.InProgress? <==> s.InProgress?
    ensures u.Completed? <==> s.Completed?
    ensures u.Completed? ==> s.outcome == u.outcome && s.date == DateSpecifiers.Resolve(u.date, today)
    ensures !u.Completed? ==> s.date == today
    ensures u.BlockedByTask? ==> s == Statuses.BlockedByTask(today, u.blocking)
    ensures u.BlockedByOther? ==> s == Statuses.BlockedByOther(today, u.reason)
    ensures u.Discarded? ==> s == Statuses.Discarded(today, u.reason)
  {
    match u
    case InProgress => Statuses.MakeInProgress(today)
    case BlockedByTask(blocking) => Statuses.MakeBlockedByTask(blocking, numTasks, today).value
    case BlockedByOther(reason) => Statuses.MakeBlockedByOther(reason, today)
    case Completed(outcome, date) => Statuses.MakeCompleted(outcome, DateSpecifiers.Resolve(date, today))
    case Discarded(reason) => Statuses.MakeDiscarded(reason, today)
  }

  /** The effect of `StatusUpdate::run` on the states of the store's tasks:
      with `id` in the store, exactly its history grows by the built status;
      otherwise the identifier is reported missing and nothing changes. */
  predicate Applied(u: StatusUpdate, id: Statuses.TaskId, before: seq<Task.TaskState>,
                    after: seq<Task.TaskState>, r: Result<()>, today: Date)
    requires u.BlockedByTask? ==> u.blocking < |before|
  {
    if id < |before| then
      r == Ok(()) && after == before[id := before[id].(statuses := before[id].statuses + [Build(u, |before|, today)])]
    else
      r == Err(NoTaskAtId(id)) && after == before
  }

  /** `StatusUpdate::run`. The blocking identifier is checked (by the
      precondition) before the target is looked up. */
  method Run(u: StatusUpdate, id: Statuses.TaskId, store: List.Tasks, today: Date) returns (r: Result<()>)
    requires store.Valid()
    requires u.BlockedByTask? ==> u.blocking < store.NumTasks()
    modifies store.tasks
    ensures store.tasks == old(store.tasks) && store.Valid()
    ensures Applied(u, id, old(store.Model()), store.Model(), r, today)
  {
    var status := Build(u, store.NumTasks(), today);
    var task :- store.GetTaskMutErr(id);
    task.SetStatus(status);
    r := Ok(());
  }

  /** An update keeps the number of tasks and keeps every history well
      formed. */
  lemma AppliedKeepsHistories(u: StatusUpdate, id: Statuses.TaskId, before: seq<Task.TaskState>,
                              after: seq<Task.TaskState>, r: Result<()>, today: Date)
    requires u.BlockedByTask? ==> u.blocking < |before|
    requires Applied(u, id, before, after, r, today)
    requires forall k :: 0 <= k < |before| ==> Task.IsHistory(before[k].statuses)
    ensures |after| == |before|
    ensures forall k :: 0 <= k < |after| ==> Task.IsHistory(after[k].statuses)
    ensures forall k :: 0 <= k < |after| && k != id ==> after[k] == before[k]
  {
    if id < |before| {
      var h := before[id].statuses + [Build(u, |before|, today)];
      assert h[0] == before[id].statuses[0];
    }
  }

  /** Unlike `start`, marking a task in progress does not look at its current
      status: it succeeds on any task of the store, even a completed one. */
  lemma InProgressFromAnyStatus(id: Statuses.TaskId, before: seq<Task.TaskState>,
                                after: seq<Task.TaskState>, r: Result<()>, today: Date)
    requires id < |before| && before[id].statuses != []
    requires before[id].statuses[|before[id].statuses| - 1].Completed?
    requires Applied(InProgress, id, before, after, r, today)
    ensures r.Ok?
    ensures after[id].statuses == before[id].statuses + [Statuses.InProgress(today)]
  {
  }

  /** Nothing prevents a task from being blocked by itself. */
  lemma SelfBlockingAllowed(id: Statuses.TaskId, before: seq<Task.TaskState>,
                            after: seq<Task.TaskState>, r: Result<()>, today: Date)
    requires id < |before|
    requires Applied(BlockedByTask(id), id, before, after, r, today)
    ensures r.Ok?
    ensures after[id].statuses[|after[id].statuses| - 1] == Statuses.BlockedByTask(today, id)
  {
  }

  /** A completion without a date is dated today. */
  lemma CompletedDefaultsToToday(outcome: Outcomes.Outcome, numTasks: nat, today: Date)
    ensures Build(Completed(outcome, DefaultCompletionDate()), numTasks, today) == Statuses.Completed(today, outcome)
  {
  }
}
