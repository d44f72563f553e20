/** Task statuses: one entry of a task's append-only history. */
module Statuses {
  import opened Wrappers
  import opened Calendar
  import opened Outcomes
  import ShortStrings
  import Text

  type TaskId = nat

  datatype Status =
    | NotStarted
    | InProgress(date: Date)
    | BlockedByTask(date: Date, id: TaskId)
    | BlockedByOther(date: Date, reason: ShortStrings.ShortString)
    | Completed(date: Date, outcome: Outcome)
    | Discarded(date: Date, reason: ShortStrings.ShortString)

  /** `Status::default`: the status every task starts with. */
  function Default(): (s: Status)
    ensures s.NotStarted?
  {
    NotStarted
  }

  /** `Status::in_progress`, stamped with today's date. */
  function MakeInProgress(today: Date): (s: Status)
    ensures s.InProgress? && s.date == today
  {
    InProgress(today)
  }

  /** `Status::blocked_by_task`: the blocking identifier must name a task of
      the store, which has `numTasks` tasks (the store's `has_id` is
      `id < num_tasks`). The store itself is only read. */
  function MakeBlockedByTask(id: TaskId, numTasks: nat, today: Date): (r: Result<Status>)
    ensures r.Ok? <==> id < numTasks
    ensures r.Ok? ==> r.value == BlockedByTask(today, id)
    ensures r.Err? ==> r.error == UnknownBlockingId(id)
  {
    if !(id < numTasks) then Err(UnknownBlockingId(id)) else Ok(BlockedByTask(today, id))
  }

  /** `Status::blocked_by_other`, stamped with today's date. */
  function MakeBlockedByOther(reason: ShortStrings.ShortString, today: Date): (s: Status)
    ensures s.BlockedByOther? && s.date == today && s.reason == reason
  {
    BlockedByOther(today, reason)
  }

  /** `Status::completed`, with the completion date given by the caller (the
      status-update command resolves it from a date specifier). */
  function MakeCompleted(outcome: Outcome, date: Date): (s: Status)
    ensures s.Completed? && s.date == date && s.outcome == outcome
  {
    Completed(date, outcome)
  }

  /** `Status::discarded`, stamped with today's date. */
  function MakeDiscarded(reason: ShortStrings.ShortString, today: Date): (s: Status)
    ensures s.Discarded? && s.date == today && s.reason == reason
  {
    Discarded(today, reason)
  }

  /** `Display for Status`. `dateText` stands for the date library's
      rendering of a date in the program's date format. */
  function Display(s: Status, dateText: Date -> string): (r: string)
    ensures s.NotStarted? ==> r == "NOT STARTED"
    ensures !s.NotStarted? ==> r == dateText(s.date) + " :: " + Message(s)
  {
    match s
    case NotStarted => "NOT STARTED"
    case InProgress(date) => dateText(date) + " :: IN PROGRESS"
    case BlockedByTask(date, id) => dateText(date) + " :: BLOCKED ID=" + Text.NatToString(id)
    case BlockedByOther(date, reason) => dateText(date) + " :: BLOCKED " + ShortStrings.Display(reason)
    case Completed(date, outcome) => dateText(date) + " :: " + "COMPLETED " + Outcomes.Display(outcome)
    case Discarded(date, reason) => dateText(date) + " :: DISCARDED " + ShortStrings.Display(reason)
  }

  /** What a dated status says after its date. */
  function Message(s: Status): string
    requires !s.NotStarted?
  {
    match s
    case InProgress(_) => "IN PROGRESS"
    case BlockedByTask(_, id) => "BLOCKED ID=" + Text.NatToString(id)
    case BlockedByOther(_, reason) => "BLOCKED " + reason
    case Completed(_, outcome) => "COMPLETED " + Outcomes.Display(outcome)
    case Discarded(_, reason) => "DISCARDED " + reason
  }

  /** The message tells in-progress and completed statuses apart from all
      others, a completed message determines the outcome, and a
      blocked-by-task message determines the identifier. */
  lemma MessageDistinguishes(a: Status, b: Status)
    requires !a.NotStarted? && !b.NotStarted?
    requires Message(a) == Message(b)
    ensures a.InProgress? <==> b.InProgress?
    ensures a.Completed? <==> b.Completed?
    ensures a.Completed? ==> a.outcome == b.outcome
    ensures a.BlockedByTask? && b.BlockedByTask? ==> a.id == b.id
  {
    var m := Message(a);
    assert Message(a)[0] == FirstLetter(a) && Message(b)[0] == FirstLetter(b);
    if a.Completed? {
      assert m[10] == Outcomes.Display(a.outcome)[0];
      assert m[10] == Outcomes.Display(b.outcome)[0];
    }
    if a.BlockedByTask? && b.BlockedByTask? {
      assert m[11..] == Text.NatToString(a.id) == Text.NatToString(b.id);
      Text.DigitsValueOfNatToString(a.id);
      Text.DigitsValueOfNatToString(b.id);
    }
  }

  function FirstLetter(s: Status): char
    requires !s.NotStarted?
  {
    match s
    case InProgress(_) => 'I'
    case BlockedByTask(_, _) => 'B'
    case BlockedByOther(_, _) => 'B'
    case Completed(_, _) => 'C'
    case Discarded(_, _) => 'D'
  }

  /** The display does not always tell the two blocked statuses apart: a
      blocked-by-other reason `ID=5` reads like a block by task 5. */
  lemma BlockedMessagesMayCoincide(today: Date)
    ensures Message(BlockedByTask(today, 5)) == Message(BlockedByOther(today, "ID=5"))
  {
  }
}
