/** A task: its descriptions, classification, deadline, tags and the
    append-only history of its statuses. */
module Task {
  import opened Wrappers
  import opened Calendar
  import opened Statuses
  import Outcomes
  import ShortStrings
  import Categories
  import Priorities
  import Tags
  import Deadlines
  import DateSpecifiers
  import Durations

  /** A status history is well formed when it is not empty and begins with
      `NotStarted`; its last entry is the task's current status. */
  predicate IsHistory(h: seq<Status>) {
    |h| > 0 && h[0].NotStarted?
  }

  /** The values of a task's fields at one moment. */
  datatype TaskState = TaskState(
    short: ShortStrings.ShortString,
    long: Option<string>,
    statuses: seq<Status>,
    category: Categories.Category,
    deadline: Deadlines.Deadline,
    priority: Priorities.Priority,
    tags: set<Tags.Tag>)

  /** The deadline `new` stores: none without a specifier, otherwise the
      specifier resolved against today. */
  function ResolvedDeadline(spec: Option<DateSpecifiers.DateSpecifier>, today: Date): (d: Deadlines.Deadline)
    ensures d.date.Some? <==> spec.Some?
    ensures spec.Some? ==> d.date.value == DateSpecifiers.Resolve(spec.value, today)
  {
    match spec
    case None => Deadlines.Deadline(None)
    case Some(s) => Deadlines.Deadline(Some(DateSpecifiers.Resolve(s, today)))
  }

  class Task {
    var short: ShortStrings.ShortString
    var long: Option<string>
    var statuses: seq<Status>
    var category: Categories.Category
    var deadline: Deadlines.Deadline
    var priority: Priorities.Priority
    var tags: set<Tags.Tag>

    predicate Valid()
      reads this
    {
      IsHistory(statuses)
    }

    function State(): TaskState
      reads this
    {
      TaskState(short, long, statuses, category, deadline, priority, tags)
    }

    /** `Task::new`: one `NotStarted` status, the deadline resolved against
        today, the tag list collected into a set. */
    constructor (short: ShortStrings.ShortString, category: Categories.Category, long: Option<string>,
                 deadline: Option<DateSpecifiers.DateSpecifier>, priority: Priorities.Priority,
                 tags: seq<Tags.Tag>, today: Date)
      ensures Valid()
      ensures statuses == [NotStarted]
      ensures this.short == short && this.category == category && this.long == long && this.priority == priority
      ensures this.deadline == ResolvedDeadline(deadline, today)
      ensures forall t :: t in this.tags <==> t in tags
    {
      this.short := short;
      this.long := long;
      statuses := [Statuses.Default()];
      this.category := category;
      this.deadline := ResolvedDeadline(deadline, today);
      this.priority := priority;
      this.tags := set t | t in tags;
    }

    method SetShort(short: ShortStrings.ShortString)
      modifies this
      ensures State() == old(State()).(short := short)
    {
      this.short := short;
    }

    method SetLong(long: string)
      modifies this
      ensures State() == old(State()).(long := Some(long))
    {
      this.long := Some(long);
    }

    method UnsetLong()
      modifies this
      ensures State() == old(State()).(long := None)
    {
      long := None;
    }

    method UnsetDeadline()
      modifies this
      ensures State() == old(State()).(deadline := Deadlines.Deadline(None))
    {
      deadline := Deadlines.Deadline(None);
    }

    /** `set_status` appends to the history, which therefore stays well formed. */
    method SetStatus(status: Status)
      modifies this
      ensures State() == old(State()).(statuses := old(statuses) + [status])
      ensures old(Valid()) ==> Valid() && LastStatus() == status
    {
      statuses := statuses + [status];
    }

    method SetCategory(category: Categories.Category)
      modifies this
      ensures State() == old(State()).(category := category)
    {
      this.category := category;
    }

    /** `set_deadline`, given the date the deadline resolves to. */
    method SetDeadline(date: Date)
      modifies this
      ensures State() == old(State()).(deadline := Deadlines.Deadline(Some(date)))
      ensures deadline.date.Some?
    {
      deadline := Deadlines.Deadline(Some(date));
    }

    /** `last_status`: the current status. It always exists, since the history
        is never empty; it is `NotStarted` while the history has one entry. */
    function LastStatus(): (s: Status)
      reads this
      requires Valid()
      ensures s in statuses
      ensures |statuses| == 1 ==> s.NotStarted?
    {
      statuses[|statuses| - 1]
    }

    /** `start`: allowed only while the task has not been started; it then
        records that the task is in progress since today. Otherwise nothing
        changes. */
    method Start(today: Date) returns (r: Result<()>)
      requires Valid()
      modifies this
      ensures Valid()
      ensures r.Ok? <==> old(LastStatus()).NotStarted?
      ensures r.Ok? ==> State() == old(State()).(statuses := old(statuses) + [InProgress(today)])
      ensures r.Ok? ==> LastStatus().InProgress? && !LastStatus().NotStarted?
      ensures r.Err? ==> r.error == AlreadyStarted && State() == old(State())
    {
      if LastStatus().NotStarted? {
        SetStatus(MakeInProgress(today));
        r := Ok(());
      } else {
        r := Err(AlreadyStarted);
      }
    }

    /** `is_completed`. */
    predicate IsCompleted()
      reads this
      requires Valid()
      ensures IsCompleted() ==> |statuses| >= 2
    {
      LastStatus().Completed?
    }

    /** `is_completed_in_past`: completed, on a date inside the window that
        ends today. */
    predicate IsCompletedInPast(window: Durations.TimeInterval, today: Date)
      reads this
      requires Valid()
      ensures IsCompletedInPast(window, today) ==> IsCompleted()
      ensures IsCompleted() && LastStatus().date > today ==> IsCompletedInPast(window, today)
    {
      match LastStatus()
      case Completed(date, _) => Durations.Contains(window, date, today)
      case _ => false
    }

    /** `outcome`: present exactly for completed tasks, and the one recorded
        with the completion. */
    function Outcome(): (r: Result<Outcomes.Outcome>)
      reads this
      requires Valid()
      ensures r.Ok? <==> IsCompleted()
      ensures r.Ok? ==> LastStatus() == Completed(LastStatus().date, r.value)
      ensures r.Err? ==> r.error == NotCompleted
    {
      match LastStatus()
      case Completed(_, outcome) => Ok(outcome)
      case _ => Err(NotCompleted)
    }
  }
}
