/** Look-back windows for completed-task summaries. */
module Durations {
  import opened Wrappers
  import opened Calendar
  import Text

  /** Counts are `usize` in the program; parsing bounds them by `USIZE_MAX`. */
  datatype TimeInterval = Days(n: nat) | Weeks(n: nat) | Months(n: nat)

  /** `TimeInterval::contains`: is `date` inside the window that ends at
      `today`? Dates after today are always inside; otherwise the whole days
      since `date` are compared with the window, weeks counting whole weeks
      and months counting as 30 days. */
  function Contains(i: TimeInterval, date: Date, today: Date): (b: bool)
    ensures date > today ==> b
    ensures date <= today ==> (b <==> match i
                                      case Days(n) => today - date <= n
                                      case Weeks(n) => today - date < 7 * (n + 1)
                                      case Months(n) => today - date <= 30 * n)
  {
    var delta := today - date;
    if delta < 0 then true
    else
      match i
      case Days(days) => delta <= days
      case Weeks(weeks) => delta / 7 <= weeks
      case Months(months) => delta <= months * 30
  }

  /** Widening a window never drops a date from it. */
  lemma ContainsMonotone(i: TimeInterval, j: TimeInterval, date: Date, today: Date)
    requires (i.Days? && j.Days?) || (i.Weeks? && j.Weeks?) || (i.Months? && j.Months?)
    requires i.n <= j.n
    requires Contains(i, date, today)
    ensures Contains(j, date, today)
  {
  }

  /** `Days(0)` holds today and not yesterday; any window holds every future date. */
  lemma DaysZero(today: Date, i: TimeInterval, later: Date)
    requires later > today
    ensures Contains(Days(0), today, today)
    ensures !Contains(Days(0), today - 1, today)
    ensures Contains(i, later, today)
  {
  }

  /** A week window of `n` holds exactly the dates fewer than `7 * (n + 1)`
      days back: the last partial week counts in full. */
  lemma WeeksBoundary(n: nat, today: Date)
    ensures Contains(Weeks(n), today - (7 * n + 6), today)
    ensures !Contains(Weeks(n), today - (7 * n + 7), today)
  {
  }

  /** The text form `<unit>/<count>` of an interval. */
  function Format(i: TimeInterval): string {
    match i
    case Days(n) => "days/" + Text.NatToString(n)
    case Weeks(n) => "weeks/" + Text.NatToString(n)
    case Months(n) => "months/" + Text.NatToString(n)
  }

  /** `TimeInterval::from_str`: a `days/`, `weeks/` or `months/` prefix
      followed by a `usize`. A bad count is reported for the unit whose prefix
      matched; no known prefix is reported as an unknown time unit. */
  function Parse(s: string): (r: Result<TimeInterval>)
    ensures r.Ok? ==> r.value.n <= Text.USIZE_MAX
    ensures "days/" <= s ==> ReadsCount(s, r, "days")
    ensures "weeks/" <= s ==> ReadsCount(s, r, "weeks")
    ensures "months/" <= s ==> ReadsCount(s, r, "months")
    ensures !("days/" <= s) && !("weeks/" <= s) && !("months/" <= s) ==> r == Err(UnknownTimeUnit(s))
  {
    assert "days/" == "days" + "/" && "weeks/" == "weeks" + "/" && "months/" == "months" + "/";
    assert !("days/" <= s && "weeks/" <= s) && !("days/" <= s && "months/" <= s) && !("weeks/" <= s && "months/" <= s) by {
      if |s| > 0 { assert "days/"[0] == 'd' && "weeks/"[0] == 'w' && "months/"[0] == 'm'; }
    }
    match Text.StripPrefix(s, "days/")
    case Some(num) => (match Text.ParseUsize(num) case Some(n) => Ok(Days(n)) case None => Err(InvalidCount("days", num)))
    case None =>
      match Text.StripPrefix(s, "weeks/")
      case Some(num) => (match Text.ParseUsize(num) case Some(n) => Ok(Weeks(n)) case None => Err(InvalidCount("weeks", num)))
      case None =>
        match Text.StripPrefix(s, "months/")
        case Some(num) => (match Text.ParseUsize(num) case Some(n) => Ok(Months(n)) case None => Err(InvalidCount("months", num)))
        case None => Err(UnknownTimeUnit(s))
  }

  /** With `<unit>/` matched, the rest of `s` is the count: the result is
      an interval of that unit exactly when the rest reads as a `usize`, and
      otherwise the error names the unit and the rest. */
  predicate ReadsCount(s: string, r: Result<TimeInterval>, unit: string)
    requires unit + "/" <= s
  {
    var count := Text.ParseUsize(s[|unit| + 1..]);
    if count.Some? then r.Ok? && Unit(r.value) == unit && r.value.n == count.value
    else r == Err(InvalidCount(unit, s[|unit| + 1..]))
  }

  /** The unit name of an interval. */
  function Unit(i: TimeInterval): string {
    match i
    case Days(_) => "days"
    case Weeks(_) => "weeks"
    case Months(_) => "months"
  }

  /** Every interval whose count fits in a `usize` is read back from its text form. */
  lemma ParseFormat(i: TimeInterval)
    requires i.n <= Text.USIZE_MAX
    ensures Parse(Format(i)) == Ok(i)
  {
    Text.ParseUsizeOfNatToString(i.n);
    var digits := Text.NatToString(i.n);
    assert Text.IsDigit(digits[0]);
    match i
    case Days(n) =>
      assert ("days/" + digits)[5..] == digits;
    case Weeks(n) =>
      assert !("days/" <= Format(i)) by { assert Format(i)[0] == 'w'; }
      assert ("weeks/" + digits)[6..] == digits;
    case Months(n) =>
      assert !("days/" <= Format(i)) by { assert Format(i)[0] == 'm'; }
      assert !("weeks/" <= Format(i)) by { assert Format(i)[0] == 'm'; }
      assert ("months/" + digits)[7..] == digits;
  }
}
