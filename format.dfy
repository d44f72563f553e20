/** The two task-list layouts. Only what decides the layout is modelled:
    which separator a short line uses, whether its deadline is shown, where
    the long description breaks into lines, and which lines a long block
    holds. Padding and the terminal itself are not. */
module Format {
  import opened Wrappers
  import opened Calendar
  import opened Text
  import ShortStrings
  import Categories
  import Statuses
  import Task

  datatype TaskListFormatter = Short | Long

  /** The alternating clock: each step flips the flag and yields the new
      value, so a clock started at `false` yields true, false, true, ... */
  class TickTock {
    var state: bool

    constructor (state: bool)
      ensures this.state == state
    {
      this.state := state;
    }

    method Next() returns (r: bool)
      modifies this
      ensures state == !old(state) && r == state
    {
      state := !state;
      r := state;
    }
  }

  /** One line of the short layout: the category name, the short
      description, the character the description is padded with, and the
      deadline text, or none for `NO DEADLINE`. */
  datatype ShortLine = ShortLine(category: string, short: string, fill: char, due: Option<string>)

  const SOLID: char := '─'
  const DASHED: char := '╌'

  /** `line` shows `task` at position `position` of the list: the solid
      rule on even positions and the dashed rule on odd ones, and the
      deadline exactly when the task has one. */
  predicate IsShortLineOf(line: ShortLine, position: nat, task: Task.Task, dateText: Date -> string)
    reads task
  {
    && line.category == Categories.Display(task.category)
    && line.short == ShortStrings.Display(task.short)
    && line.fill == (if position % 2 == 0 then SOLID else DASHED)
    && (line.due.Some? <==> task.deadline.date.Some?)
    && (line.due.Some? ==> line.due.value == dateText(task.deadline.date.value))
  }

  /** `print_short`, with the lines paired with the tick-tock clock started
      at `false`. */
  method PrintShort(tasks: seq<Task.Task>, dateText: Date -> string) returns (lines: seq<ShortLine>)
    ensures |lines| == |tasks|
    ensures forall i :: 0 <= i < |tasks| ==> IsShortLineOf(lines[i], i, tasks[i], dateText)
  {
    var clock := new TickTock(false);
    lines := [];
    for i := 0 to |tasks|
      invariant |lines| == i
      invariant clock.state == (i % 2 == 1)
      invariant forall k :: 0 <= k < i ==> IsShortLineOf(lines[k], k, tasks[k], dateText)
    {
      var task := tasks[i];
      var dash := clock.Next();
      var fill := if dash then SOLID else DASHED;
      var due := match task.deadline.date
        case Some(date) => Some(dateText(date))
        case None => None;
      lines := lines + [ShortLine(Categories.Display(task.category), ShortStrings.Display(task.short), fill, due)];
    }
  }

  /** The first line uses the solid rule and neighbouring lines never use
      the same rule. */
  lemma RulesAlternate(lines: seq<ShortLine>, tasks: seq<Task.Task>, dateText: Date -> string)
    requires |lines| == |tasks|
    requires forall i :: 0 <= i < |tasks| ==> IsShortLineOf(lines[i], i, tasks[i], dateText)
    ensures |lines| > 0 ==> lines[0].fill == SOLID
    ensures forall i :: 0 <= i < |lines| - 1 ==> lines[i].fill != lines[i + 1].fill
  {
    forall i | 0 <= i < |lines| - 1
      ensures lines[i].fill != lines[i + 1].fill
    {
      assert IsShortLineOf(lines[i], i, tasks[i], dateText);
      assert IsShortLineOf(lines[i + 1], i + 1, tasks[i + 1], dateText);
    }
  }

  /** The bytes a line of words takes, each word followed by one space. */
  function LineBytes(line: seq<string>): nat {
    if line == [] then 0 else LineBytes(line[..|line| - 1]) + ByteLen(line[|line| - 1]) + 1
  }

  /** The words of all lines, in order. */
  function Flatten(lines: seq<seq<string>>): seq<string> {
    if lines == [] then [] else Flatten(lines[..|lines| - 1]) + lines[|lines| - 1]
  }

  /** `lines` wraps `words` greedily into lines of at most 50 bytes: the
      words stay in order, each exactly once, every line fits, and a line is
      only ended when the next word would not have fitted on it. */
  predicate IsGreedyWrap(words: seq<string>, lines: seq<seq<string>>) {
    && |lines| >= 1
    && Flatten(lines) == words
    && (forall k :: 0 <= k < |lines| ==> LineBytes(lines[k]) <= ShortStrings.SHORT_STRING_THRESHOLD)
    && (forall k :: 1 <= k < |lines| ==>
          lines[k] != [] && LineBytes(lines[k - 1]) + ByteLen(lines[k][0]) + 1 > ShortStrings.SHORT_STRING_THRESHOLD)
  }

  /** Every word is shorter than the line width: the condition under which
      the program's unsigned line counter never goes below zero. */
  predicate WordsFit(long: string) {
    forall w | w in SplitAsciiWhitespace(long) :: ByteLen(w) < ShortStrings.SHORT_STRING_THRESHOLD
  }

  /** The state of the wrap loop after the words `done`: they are laid out
      greedily on `lines`, and `room` is what is left of the last line. */
  predicate Wrapping(done: seq<string>, lines: seq<seq<string>>, room: int) {
    && IsGreedyWrap(done, lines)
    && room + LineBytes(lines[|lines| - 1]) == ShortStrings.SHORT_STRING_THRESHOLD
  }

  /** The word-wrap loop of `print_long`. `counter` is the room left on the
      current line; a word goes on the current line when `counter` exceeds
      its length, and otherwise starts a new line. The program computes the
      new room of a fresh line by unsigned subtraction, which goes below zero
      for a word of 50 bytes or more; such words are excluded. */
  method WrapLong(long: string) returns (lines: seq<seq<string>>)
    requires WordsFit(long)
    ensures IsGreedyWrap(SplitAsciiWhitespace(long), lines)
  {
    var words := SplitAsciiWhitespace(long);
    var counter: nat := ShortStrings.SHORT_STRING_THRESHOLD;
    lines := [[]];
    for i := 0 to |words|
      invariant Wrapping(words[..i], lines, counter)
    {
      var word := words[i];
      var len := ByteLen(word);
      assert words[..i + 1] == words[..i] + [word];
      if counter > len {
        ExtendLastLine(words[..i], lines, counter, word);
        counter := counter - (len + 1);
        lines := lines[..|lines| - 1] + [lines[|lines| - 1] + [word]];
      } else {
        StartLine(words[..i], lines, counter, word);
        counter := ShortStrings.SHORT_STRING_THRESHOLD - len - 1;
        lines := lines + [[word]];
      }
    }
    assert words[..|words|] == words;
  }

  /** A word that fits in the room left goes on the last line. */
  lemma ExtendLastLine(done: seq<string>, lines: seq<seq<string>>, room: int, word: string)
    requires Wrapping(done, lines, room) && room > ByteLen(word)
    ensures Wrapping(done + [word], lines[..|lines| - 1] + [lines[|lines| - 1] + [word]], room - (ByteLen(word) + 1))
  {
    var last := lines[|lines| - 1];
    var next := lines[..|lines| - 1] + [last + [word]];
    assert next[..|next| - 1] == lines[..|lines| - 1];
    assert (last + [word])[..|last|] == last;
    assert LineBytes(last + [word]) == LineBytes(last) + ByteLen(word) + 1;
    assert forall k :: 0 <= k < |lines| - 1 ==> next[k] == lines[k];
  }

  /** A word that does not fit in the room left starts a new line. */
  lemma StartLine(done: seq<string>, lines: seq<seq<string>>, room: int, word: string)
    requires Wrapping(done, lines, room) && room <= ByteLen(word) < ShortStrings.SHORT_STRING_THRESHOLD
    ensures Wrapping(done + [word], lines + [[word]], ShortStrings.SHORT_STRING_THRESHOLD - ByteLen(word) - 1)
  {
    var next := lines + [[word]];
    assert next[..|lines|] == lines;
    assert [word][..0] == [];
    assert forall k :: 0 <= k < |lines| ==> next[k] == lines[k];
  }

  /** One block of the long layout. `rule` is the separator under the
      header; `long` holds the wrapped description, when there is one. */
  datatype LongBlock = LongBlock(
    header: string,
    rule: string,
    short: string,
    long: Option<seq<seq<string>>>,
    category: string,
    deadline: Option<string>,
    status: string)

  /** `b` lays out task `entry.1` under identifier `entry.0`. */
  predicate IsBlockOf(b: LongBlock, entry: (Statuses.TaskId, Task.Task), dateText: Date -> string)
    reads entry.1
    requires entry.1.Valid()
  {
    var task := entry.1;
    && b.header == "ID " + NatToString(entry.0)
    && b.rule == "┌" + Repeat('─', |b.header| + 1)
    && b.short == ShortStrings.Display(task.short)
    && (b.long.Some? <==> task.long.Some?)
    && (b.long.Some? ==> IsGreedyWrap(SplitAsciiWhitespace(task.long.value), b.long.value))
    && b.category == Categories.Display(task.category)
    && (b.deadline.Some? <==> task.deadline.date.Some?)
    && (b.deadline.Some? ==> b.deadline.value == dateText(task.deadline.date.value))
    && b.status == Statuses.Display(task.LastStatus(), dateText)
  }

  predicate LongFits(task: Task.Task)
    reads task
  {
    task.long.Some? ==> WordsFit(task.long.value)
  }

  /** `print_long`: one block per entry, in order. */
  method PrintLong(entries: seq<(Statuses.TaskId, Task.Task)>, dateText: Date -> string) returns (blocks: seq<LongBlock>)
    requires forall i :: 0 <= i < |entries| ==> entries[i].1.Valid() && LongFits(entries[i].1)
    ensures |blocks| == |entries|
    ensures forall i :: 0 <= i < |entries| ==> IsBlockOf(blocks[i], entries[i], dateText)
  {
    blocks := [];
    for i := 0 to |entries|
      invariant |blocks| == i
      invariant forall k :: 0 <= k < i ==> IsBlockOf(blocks[k], entries[k], dateText)
    {
      var b := BlockOf(entries[i], dateText);
      blocks := blocks + [b];
    }
  }

  /** The block of one entry. */
  method BlockOf(entry: (Statuses.TaskId, Task.Task), dateText: Date -> string) returns (b: LongBlock)
    requires entry.1.Valid() && LongFits(entry.1)
    ensures IsBlockOf(b, entry, dateText)
  {
    var (id, task) := entry;
    var header := "ID " + NatToString(id);
    var long := None;
    if task.long.Some? {
      var lines := WrapLong(task.long.value);
      long := Some(lines);
    }
    var deadline := match task.deadline.date
      case Some(date) => Some(dateText(date))
      case None => None;
    b := LongBlock(header, "┌" + Repeat('─', |header| + 1), ShortStrings.Display(task.short), long,
                   Categories.Display(task.category), deadline,
                   Statuses.Display(task.LastStatus(), dateText));
  }

  /** The separator is one corner and one dash more than the header is long:
      five characters more than the identifier has digits. */
  lemma RuleLength(b: LongBlock, entry: (Statuses.TaskId, Task.Task), dateText: Date -> string)
    requires entry.1.Valid() && IsBlockOf(b, entry, dateText)
    ensures |b.rule| == NumDigits(entry.0) + 5
    ensures b.rule[0] == '┌' && forall k :: 1 <= k < |b.rule| ==> b.rule[k] == '─'
  {
    NatToStringLength(entry.0);
  }

  /** The rendering a formatter produces. */
  datatype Rendering = ShortLines(lines: seq<ShortLine>) | LongBlocks(blocks: seq<LongBlock>)

  predicate AllValid(entries: seq<(Statuses.TaskId, Task.Task)>)
    reads set e | e in entries :: e.1
  {
    forall e | e in entries :: e.1.Valid()
  }

  /** `out` is the `format` layout of `entries`, in order. */
  predicate IsRenderingOf(out: Rendering, format: TaskListFormatter, entries: seq<(Statuses.TaskId, Task.Task)>,
                          dateText: Date -> string)
    reads set e | e in entries :: e.1
    requires AllValid(entries)
  {
    match format
    case Short =>
      && out.ShortLines? && |out.lines| == |entries|
      && forall i :: 0 <= i < |entries| ==> IsShortLineOf(out.lines[i], i, entries[i].1, dateText)
    case Long =>
      && out.LongBlocks? && |out.blocks| == |entries|
      && forall i :: 0 <= i < |entries| ==> IsBlockOf(out.blocks[i], entries[i], dateText)
  }

  /** `TaskListFormatter::print`: the short layout drops the identifiers. */
  method Print(format: TaskListFormatter, entries: seq<(Statuses.TaskId, Task.Task)>, dateText: Date -> string)
    returns (out: Rendering)
    requires AllValid(entries)
    requires format.Long? ==> forall e | e in entries :: LongFits(e.1)
    ensures IsRenderingOf(out, format, entries, dateText)
  {
    match format
    case Short =>
      var tasks := seq(|entries|, i requires 0 <= i < |entries| => entries[i].1);
      var lines := PrintShort(tasks, dateText);
      out := ShortLines(lines);
    case Long =>
      var blocks := PrintLong(entries, dateText);
      out := LongBlocks(blocks);
  }
}
