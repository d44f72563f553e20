/** Updates of one field of one task of the store. */
module Updates {
  import opened Wrappers
  import opened Calendar
  import Statuses
  import ShortStrings
  import Categories
  import Priorities
  import Deadlines
  import DateSpecifiers
  import Task
  import List
  import StatusUpdates

  datatype Update =
    | Short(short: ShortStrings.ShortString)
    | Long(long: string)
    | DiscardLong
    | Category(category: Categories.Category)
    | Status(status: StatusUpdates.StatusUpdate)
    | Deadline(deadline: DateSpecifiers.DateSpecifier)
    | DiscardDeadline
    | Priority(priority: Priorities.Priority)
    | AddTags(tags: string)
    | RemoveTags(tags: string)

  predicate ChangesTags(u: Update) {
    u.AddTags? || u.RemoveTags?
  }

  /** The one field an update changes, given the state before and the state
      after. Priority and tag updates go through task operations that are not
      part of this model (`set_priority`, `add_tags`, `remove_tags`): only the
      field they touch is fixed, not its new value. */
  function Changed(u: Update, before: Task.TaskState, after: Task.TaskState, today: Date): Task.TaskState
    requires !u.Status?
  {
    match u
    case Short(s) => before.(short := s)
    case Long(l) => before.(long := Some(l))
    case DiscardLong => before.(long := None)
    case Category(c) => before.(category := c)
    case Deadline(d) => before.(deadline := Deadlines.Deadline(Some(DateSpecifiers.Resolve(d, today))))
    case DiscardDeadline => before.(deadline := Deadlines.Deadline(None))
    case Priority(_) => before.(priority := after.priority)
    case AddTags(_) => before.(tags := after.tags)
    case RemoveTags(_) => before.(tags := after.tags)
  }

  predicate BlockerInStore(u: Update, numTasks: nat) {
    u.Status? && u.status.BlockedByTask? ==> u.status.blocking < numTasks
  }

  /** The effect of `Update::run` on the states of the store's tasks. A tag
      list that does not parse is reported before the task is looked up; a
      missing task is reported and changes nothing; otherwise exactly the
      task `id` changes, in the one field the update names. */
  predicate Applied(u: Update, id: Statuses.TaskId, before: seq<Task.TaskState>,
                    after: seq<Task.TaskState>, r: Result<()>, today: Date)
    requires BlockerInStore(u, |before|)
  {
    if u.Status? then StatusUpdates.Applied(u.status, id, before, after, r, today)
    else if ChangesTags(u) && r == Err(InvalidTagList(u.tags)) then after == before
    else if id >= |before| then r == Err(NoTaskAtId(id)) && after == before
    else r == Ok(()) && |after| == |before| && after == before[id := Changed(u, before[id], after[id], today)]
  }

  /** `Update::run`. */
  method Run(u: Update, id: Statuses.TaskId, store: List.Tasks, today: Date) returns (r: Result<()>)
    requires store.Valid()
    requires BlockerInStore(u, store.NumTasks())
    modifies store.tasks
    ensures store.tasks == old(store.tasks) && store.Valid()
    ensures Applied(u, id, old(store.Model()), store.Model(), r, today)
  {
    if u.Status? {
      r := StatusUpdates.Run(u.status, id, store, today);
    } else {
      r := RunOnField(u, id, store, today);
    }
  }

  method RunOnField(u: Update, id: Statuses.TaskId, store: List.Tasks, today: Date) returns (r: Result<()>)
    requires store.Valid() && !u.Status?
    modifies store.tasks
    ensures store.tasks == old(store.tasks) && store.Valid()
    ensures Applied(u, id, old(store.Model()), store.Model(), r, today)
  {
    if ChangesTags(u) {
      // The comma-separated tag-list parser is not part of this model: it
      // may fail on any text.
      var parsed: bool := *;
      if !parsed {
        return Err(InvalidTagList(u.tags));
      }
    }
    var task :- store.GetTaskMutErr(id);
    ghost var before := store.Model();
    ApplyToTask(u, task, today);
    r := Ok(());
    assert store.Model() == before[id := task.State()];
  }

  /** The change an update makes to the task it names. */
  method ApplyToTask(u: Update, task: Task.Task, today: Date)
    requires !u.Status?
    modifies task
    ensures task.State() == Changed(u, old(task.State()), task.State(), today)
  {
    match u
    case Short(s) => task.SetShort(s);
    case Long(l) => task.SetLong(l);
    case DiscardLong => task.UnsetLong();
    case Category(c) => task.SetCategory(c);
    case Deadline(d) => task.SetDeadline(DateSpecifiers.Resolve(d, today));
    case DiscardDeadline => task.UnsetDeadline();
    case Priority(_) => task.priority := *;
    case AddTags(_) => task.tags := *;
    case RemoveTags(_) => task.tags := *;
  }

  /** No update adds or removes tasks, or changes a task other than `id`, and
      every history stays well formed. */
  lemma AppliedTouchesOnlyId(u: Update, id: Statuses.TaskId, before: seq<Task.TaskState>,
                             after: seq<Task.TaskState>, r: Result<()>, today: Date)
    requires BlockerInStore(u, |before|)
    requires Applied(u, id, before, after, r, today)
    requires forall k :: 0 <= k < |before| ==> Task.IsHistory(before[k].statuses)
    ensures |after| == |before|
    ensures forall k :: 0 <= k < |after| && k != id ==> after[k] == before[k]
    ensures forall k :: 0 <= k < |after| ==> Task.IsHistory(after[k].statuses)
  {
    if u.Status? {
      StatusUpdates.AppliedKeepsHistories(u.status, id, before, after, r, today);
    }
  }

  /** Every update of a task that is not in the store fails and changes
      nothing; the failure names the missing task, except that an unparsable
      tag list is reported first. */
  lemma UnknownIdFails(u: Update, id: Statuses.TaskId, before: seq<Task.TaskState>,
                       after: seq<Task.TaskState>, r: Result<()>, today: Date)
    requires BlockerInStore(u, |before|)
    requires id >= |before|
    requires Applied(u, id, before, after, r, today)
    ensures r.Err? && after == before
    ensures !ChangesTags(u) ==> r.error == NoTaskAtId(id)
    ensures ChangesTags(u) ==> r.error == NoTaskAtId(id) || r.error == InvalidTagList(u.tags)
  {
  }

  /** A successful update of a present task changes only the field it names;
      the status history is untouched except by status updates. */
  lemma SuccessChangesOneField(u: Update, id: Statuses.TaskId, before: seq<Task.TaskState>,
                               after: seq<Task.TaskState>, r: Result<()>, today: Date)
    requires BlockerInStore(u, |before|)
    requires id < |before| && !u.Status?
    requires Applied(u, id, before, after, r, today)
    ensures r.Ok? || (ChangesTags(u) && r == Err(InvalidTagList(u.tags)))
    ensures after[id].statuses == before[id].statuses
    ensures u.Short? ==> after[id] == before[id].(short := u.short)
    ensures u.Long? ==> after[id].long == Some(u.long)
    ensures u.DiscardLong? ==> after[id].long.None?
    ensures u.Category? ==> after[id] == before[id].(category := u.category)
    ensures u.Deadline? ==> after[id].deadline.date == Some(DateSpecifiers.Resolve(u.deadline, today))
    ensures u.DiscardDeadline? ==> after[id].deadline.date.None?
    ensures ChangesTags(u) ==> after[id] == before[id].(tags := after[id].tags)
  {
  }
}
