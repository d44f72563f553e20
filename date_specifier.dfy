/** Symbolic dates given on the command line, resolved against "today". */
module DateSpecifiers {
  import opened Wrappers
  import opened Calendar
  import Text

  datatype Weekday = Mon | Tue | Wed | Thu | Fri | Sat | Sun

  /** `Weekday::num_days_from_monday`. */
  function DaysFromMonday(d: Weekday): (n: nat)
    ensures n < 7
  {
    match d
    case Mon => 0
    case Tue => 1
    case Wed => 2
    case Thu => 3
    case Fri => 4
    case Sat => 5
    case Sun => 6
  }

  /** The lower-case English name of a weekday. */
  function WeekdayName(d: Weekday): string {
    match d
    case Mon => "monday"
    case Tue => "tuesday"
    case Wed => "wednesday"
    case Thu => "thursday"
    case Fri => "friday"
    case Sat => "saturday"
    case Sun => "sunday"
  }

  /** `parse_weekday`: exactly the seven lower-case names. */
  function ParseWeekday(s: string): (r: Result<Weekday>)
    ensures r.Ok? <==> s in {"monday", "tuesday", "wednesday", "thursday", "friday", "saturday", "sunday"}
    ensures r.Ok? ==> WeekdayName(r.value) == s
    ensures r.Err? ==> r.error == InvalidWeekday(s)
  {
    match s
    case "monday" => Ok(Mon)
    case "tuesday" => Ok(Tue)
    case "wednesday" => Ok(Wed)
    case "thursday" => Ok(Thu)
    case "friday" => Ok(Fri)
    case "saturday" => Ok(Sat)
    case "sunday" => Ok(Sun)
    case _ => Err(InvalidWeekday(s))
  }

  lemma ParseWeekdayName(d: Weekday)
    ensures ParseWeekday(WeekdayName(d)) == Ok(d)
  {
  }

  datatype DateSpecifier = Today | Tomorrow | This(day: Weekday) | Next(day: Weekday) | Date(date: Calendar.Date)

  /** `DateSpecifier::from_str`: `today`, `tomorrow`, `this/<weekday>`,
      `next/<weekday>`, and otherwise a `day/month/year` date. Once a `this/`
      or `next/` prefix matched, a bad weekday is the error; no date parse is
      tried. */
  function Parse(s: string): (r: Result<DateSpecifier>)
    ensures s == "today" ==> r == Ok(Today)
    ensures s == "tomorrow" ==> r == Ok(Tomorrow)
    ensures r.Ok? && r.value.Today? ==> s == "today"
    ensures r.Ok? && r.value.Tomorrow? ==> s == "tomorrow"
    ensures r.Ok? && r.value.This? ==> s == "this/" + WeekdayName(r.value.day)
    ensures r.Ok? && r.value.Next? ==> s == "next/" + WeekdayName(r.value.day)
    ensures "this/" <= s ==> r.Ok? == ParseWeekday(s[5..]).Ok? && (r.Err? ==> r.error == InvalidWeekday(s[5..]))
    ensures "next/" <= s ==> r.Ok? == ParseWeekday(s[5..]).Ok? && (r.Err? ==> r.error == InvalidWeekday(s[5..]))
    ensures r.Ok? && r.value.Date? ==> ParseDayMonthYear(s) == Some(r.value.date)
    ensures '/' !in s && s != "today" && s != "tomorrow" ==> r == Err(InvalidFixedDate)
    ensures s != "today" && s != "tomorrow" && !("this/" <= s) && !("next/" <= s) ==>
      r == match ParseDayMonthYear(s) case Some(d) => Ok(Date(d)) case None => Err(InvalidFixedDate)
  {
    assert "this/" <= s || "next/" <= s ==> s != "today" && s != "tomorrow" by {
      if "this/" <= s || "next/" <= s {
        assert s[4] == '/' && "today"[4] != '/';
        assert |"tomorrow"| > 4 && "tomorrow"[4] != '/';
      }
    }
    assert !("this/" <= s && "next/" <= s) by {
      if |s| > 0 { assert "this/"[0] != "next/"[0]; }
    }
    if s == "today" then Ok(Today)
    else if s == "tomorrow" then Ok(Tomorrow)
    else match Text.StripPrefix(s, "this/")
      case Some(stripped) => (match ParseWeekday(stripped) case Ok(d) => Ok(This(d)) case Err(e) => Err(e))
      case None =>
        match Text.StripPrefix(s, "next/")
        case Some(stripped) => (match ParseWeekday(stripped) case Ok(d) => Ok(Next(d)) case Err(e) => Err(e))
        case None =>
          match ParseDayMonthYear(s)
          case Some(date) => Ok(Date(date))
          case None => Err(InvalidFixedDate)
  }

  /** `From<DateSpecifier> for NaiveDate`, with the clock passed in. */
  function Resolve(spec: DateSpecifier, today: Calendar.Date): (r: Calendar.Date)
    ensures spec.Today? ==> r == today
    ensures spec.Tomorrow? ==> r == today + 1
    ensures spec.Date? ==> r == spec.date
    ensures spec.This? ==> WeekdayIndex(r) == DaysFromMonday(spec.day) && WeekStart(r) == WeekStart(today)
    ensures spec.Next? ==> WeekdayIndex(r) == DaysFromMonday(spec.day) && WeekStart(r) == WeekStart(today) + 7
  {
    if spec.This? || spec.Next? then
      WeekdayShift(WeekStart(today), DaysFromMonday(spec.day));
      WeekdayShift(WeekStart(today) + 7, DaysFromMonday(spec.day));
      ResolveDays(spec, today)
    else
      ResolveDays(spec, today)
  }

  /** The arithmetic of `From<DateSpecifier> for NaiveDate`. */
  function ResolveDays(spec: DateSpecifier, today: Calendar.Date): Calendar.Date {
    match spec
    case This(day) => today + (DaysFromMonday(day) - WeekdayIndex(today))
    case Next(day) => today + (DaysFromMonday(day) - WeekdayIndex(today) + 7)
    case Date(date) => date
    case Today => today
    case Tomorrow => today + 1
  }

  /** `this/<day>` moves at most six days either way, lands on `day`, and
      stays in today's Monday-to-Sunday week. */
  lemma ResolveThis(day: Weekday, today: Calendar.Date)
    ensures var r := Resolve(This(day), today);
      && -6 <= r - today <= 6
      && WeekdayIndex(r) == DaysFromMonday(day)
      && WeekStart(r) == WeekStart(today)
  {
    var r := Resolve(This(day), today);
    assert r == WeekStart(today) + DaysFromMonday(day);
    WeekdayShift(WeekStart(today), DaysFromMonday(day));
  }

  /** `next/<day>` is `this/<day>` one week on: the same weekday in the
      following week. */
  lemma ResolveNext(day: Weekday, today: Calendar.Date)
    ensures Resolve(Next(day), today) == Resolve(This(day), today) + 7
    ensures var r := Resolve(Next(day), today);
      && WeekdayIndex(r) == DaysFromMonday(day)
      && WeekStart(r) == WeekStart(today) + 7
      && r > today
  {
    var r := Resolve(Next(day), today);
    assert r == WeekStart(today) + 7 + DaysFromMonday(day);
    WeekdayShift(WeekStart(today) + 7, DaysFromMonday(day));
  }

  lemma WeekdayShift(monday: Calendar.Date, k: nat)
    requires WeekdayIndex(monday) == 0 && k < 7
    ensures WeekdayIndex(monday + k) == k
    ensures WeekStart(monday + k) == monday
  {
  }

  /** `today`, `tomorrow` and fixed dates: the clock is used only by the
      first two. */
  lemma ResolveFixed(date: Calendar.Date, today: Calendar.Date, other: Calendar.Date)
    ensures Resolve(Today, today) == today
    ensures Resolve(Tomorrow, today) == today + 1
    ensures Resolve(Date(date), today) == Resolve(Date(date), other) == date
  {
  }

  /** The program's resolution tests, with today Wednesday 5 January 2022:
      this Monday is 3 January, this Sunday 9 January, next Monday 10 January
      and next Sunday 16 January. */
  lemma TestResolve()
    ensures Resolve(Today, WED_5_JAN_2022) == FromYmd(2022, 1, 5)
    ensures Resolve(Tomorrow, WED_5_JAN_2022) == FromYmd(2022, 1, 6)
    ensures Resolve(This(Mon), WED_5_JAN_2022) == FromYmd(2022, 1, 3)
    ensures Resolve(This(Sun), WED_5_JAN_2022) == FromYmd(2022, 1, 9)
    ensures Resolve(Next(Mon), WED_5_JAN_2022) == FromYmd(2022, 1, 10)
    ensures Resolve(Next(Sun), WED_5_JAN_2022) == FromYmd(2022, 1, 16)
  {
    TestDate();
  }

  /** The program's parse tests. */
  lemma TestParseWords()
    ensures Parse("today") == Ok(Today)
    ensures Parse("tomorrow") == Ok(Tomorrow)
  {
  }

  lemma TestParseWeekdays()
    ensures Parse("this/saturday") == Ok(This(Sat))
    ensures Parse("next/saturday") == Ok(Next(Sat))
  {
    assert "this/saturday" == "this/" + "saturday";
    assert "next/saturday" == "next/" + "saturday";
    assert !("this/" <= "next/saturday") by { assert "this/"[0] != "next/saturday"[0]; }
  }

  lemma TestParseFixedDate()
    ensures Parse("05/01/2022") == Ok(Date(WED_5_JAN_2022))
  {
    var s := "05/01/2022";
    assert !("this/" <= s) by { assert "this/"[0] != s[0]; }
    assert !("next/" <= s) by { assert "next/"[0] != s[0]; }
    TestParseDayMonthYear();
  }
}
