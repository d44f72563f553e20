/** Task categories. */
module Categories {
  import opened Wrappers
  import Text

  datatype Category = Task | Feature | Bug | Maintenance | Documentation | Other | Message

  /** The seven names `Category::from_str` accepts, all lower case. */
  const NAMES: set<string> :=
    {"task", "feature", "bug", "maintenance", "documentation", "other", "message"}

  /** `Display for Category`: the upper-case name. */
  function Display(c: Category): (r: string)
    ensures |r| > 0 && forall i :: 0 <= i < |r| ==> 'A' <= r[i] <= 'Z'
  {
    match c
    case Feature => "FEATURE"
    case Bug => "BUG"
    case Maintenance => "MAINTENANCE"
    case Documentation => "DOCUMENTATION"
    case Other => "OTHER"
    case Task => "TASK"
    case Message => "MESSAGE"
  }

  /** `Category::from_str`: exact, case-sensitive names. */
  function Parse(s: string): (r: Result<Category>)
    ensures r.Ok? <==> s in NAMES
    ensures r.Err? ==> r.error == InvalidCategory(s)
  {
    match s
    case "task" => Ok(Task)
    case "feature" => Ok(Feature)
    case "bug" => Ok(Bug)
    case "maintenance" => Ok(Maintenance)
    case "documentation" => Ok(Documentation)
    case "other" => Ok(Other)
    case "message" => Ok(Message)
    case _ => Err(InvalidCategory(s))
  }

  /** `Category::default`. */
  function Default(): (c: Category)
    ensures Display(c) == "TASK" && Parse("task") == Ok(c)
  {
    Task
  }

  /** Lower-casing the display of a category and parsing it gives the category back. */
  lemma {:induction false} ParseLowerDisplay(c: Category)
    ensures Parse(Text.AsciiLower(Display(c))) == Ok(c)
  {
    var d := Display(c);
    var l := Text.AsciiLower(d);
    match c
    case Task => assert l == "task";
    case Feature => assert l == "feature";
    case Bug => assert l == "bug";
    case Maintenance => assert l == "maintenance";
    case Documentation => assert l == "documentation";
    case Other => assert l == "other";
    case Message => assert l == "message";
  }

  /** Parsing is case-sensitive: the displayed (upper-case) names are rejected. */
  lemma RejectsDisplayedName(c: Category)
    ensures Parse(Display(c)).Err?
  {
  }

  /** Different categories display differently. */
  lemma DisplayInjective(a: Category, b: Category)
    requires Display(a) == Display(b)
    ensures a == b
  {
  }
}
