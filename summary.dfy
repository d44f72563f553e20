/** Summaries: which tasks of the store are printed. */
module Summaries {
  import opened Wrappers
  import opened Calendar
  import Statuses
  import Durations
  import Task
  import List
  import Format

  datatype Summary = Pending | Completed(interval: Durations.TimeInterval)

  /** The filter of each summary: pending tasks are those not completed;
      the completed summary keeps tasks completed inside its window. */
  predicate Selects(s: Summary, task: Task.Task, today: Date)
    reads task
    requires task.Valid()
    ensures Selects(s, task, today) ==> (s.Pending? <==> !task.IsCompleted())
  {
    match s
    case Pending => !task.IsCompleted()
    case Completed(interval) => task.IsCompletedInPast(interval, today)
  }

  /** `a` is `b` with some entries left out, the rest kept in order. */
  predicate IsSubsequence<T(==)>(a: seq<T>, b: seq<T>)
    decreases |b|
  {
    if a == [] then true
    else if b == [] then false
    else (a[|a| - 1] == b[|b| - 1] && IsSubsequence(a[..|a| - 1], b[..|b| - 1]))
         || IsSubsequence(a, b[..|b| - 1])
  }

  /** The entries a summary keeps, in the order of the store. */
  function Select(s: Summary, entries: seq<(Statuses.TaskId, Task.Task)>, today: Date): (r: seq<(Statuses.TaskId, Task.Task)>)
    reads set e | e in entries :: e.1
    requires Format.AllValid(entries)
    ensures IsSubsequence(r, entries)
    ensures forall e | e in r :: e in entries && Selects(s, e.1, today)
    ensures forall e | e in entries && Selects(s, e.1, today) :: e in r
    decreases |entries|
  {
    if entries == [] then []
    else
      var init := entries[..|entries| - 1];
      var last := entries[|entries| - 1];
      assert forall e | e in init :: e in entries;
      var kept := Select(s, init, today);
      if Selects(s, last.1, today) then kept + [last] else kept
  }

  /** A subsequence only holds entries of the sequence it was taken from. */
  lemma {:induction false} SubsequenceMembers<T>(a: seq<T>, b: seq<T>)
    requires IsSubsequence(a, b)
    ensures forall x | x in a :: x in b
    decreases |b|
  {
    if a != [] {
      var b' := b[..|b| - 1];
      if a[|a| - 1] == b[|b| - 1] && IsSubsequence(a[..|a| - 1], b') {
        SubsequenceMembers(a[..|a| - 1], b');
        assert a == a[..|a| - 1] + [b[|b| - 1]];
      } else {
        SubsequenceMembers(a, b');
      }
    }
  }

  /** Leaving entries out keeps identifiers ascending. */
  lemma {:induction false} SubsequenceAscending(a: seq<(Statuses.TaskId, Task.Task)>, b: seq<(Statuses.TaskId, Task.Task)>)
    requires IsSubsequence(a, b) && List.Ascending(b)
    ensures List.Ascending(a)
    decreases |b|
  {
    if a != [] {
      var b' := b[..|b| - 1];
      assert List.Ascending(b');
      if a[|a| - 1] == b[|b| - 1] && IsSubsequence(a[..|a| - 1], b') {
        var a' := a[..|a| - 1];
        SubsequenceAscending(a', b');
        SubsequenceMembers(a', b');
        forall i | 0 <= i < |a'|
          ensures a[i].0 < a[|a| - 1].0
        {
          assert a[i] == a'[i] && a'[i] in b';
          var j :| 0 <= j < |b'| && b'[j] == a'[i];
          assert b[j] == b'[j];
        }
      } else {
        SubsequenceAscending(a, b');
      }
    }
  }

  /** The printed entries come from the store, identifiers ascending and in
      use, and they are exactly the entries the summary's filter keeps. */
  lemma SelectionFromStore(s: Summary, store: List.Tasks, today: Date)
    requires store.Valid()
    ensures var r := Select(s, store.Iter(), today);
      && List.Ascending(r)
      && (forall e | e in r :: store.HasId(e.0) && e.1 == store.tasks[e.0] && Selects(s, e.1, today))
      && (forall id | 0 <= id < store.NumTasks() && Selects(s, store.tasks[id], today) :: (id, store.tasks[id]) in r)
  {
    var entries := store.Iter();
    var r := Select(s, entries, today);
    SubsequenceAscending(r, entries);
    forall id | 0 <= id < store.NumTasks() && Selects(s, store.tasks[id], today)
      ensures (id, store.tasks[id]) in r
    {
      assert entries[id] == (id, store.tasks[id]);
    }
  }

  /** No task is both pending and recently completed. */
  lemma SelectionsDisjoint(entries: seq<(Statuses.TaskId, Task.Task)>, interval: Durations.TimeInterval, today: Date)
    requires Format.AllValid(entries)
    ensures forall e | e in Select(Pending, entries, today) :: e !in Select(Completed(interval), entries, today)
  {
    forall e | e in Select(Pending, entries, today)
      ensures e !in Select(Completed(interval), entries, today)
    {
      assert !e.1.IsCompleted();
    }
  }

  /** `Summary::run`: the selected entries, laid out; the store is only
      read. The long layout needs every selected long description to wrap
      without the line counter going below zero. */
  method Run(s: Summary, format: Format.TaskListFormatter, store: List.Tasks, today: Date, dateText: Date -> string)
    returns (r: Result<Format.Rendering>)
    requires store.Valid()
    requires format.Long? ==> forall e | e in Select(s, store.Iter(), today) :: Format.LongFits(e.1)
    ensures r.Ok?
    ensures Format.IsRenderingOf(r.value, format, Select(s, store.Iter(), today), dateText)
  {
    var selected := Select(s, store.Iter(), today);
    var out := Format.Print(format, selected, dateText);
    r := Ok(out);
  }
}
