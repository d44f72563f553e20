/** The keys a summary can be sorted by. */
module Sorting {
  import opened Wrappers

  datatype SortBy = Id | Category | Priority | Deadline

  /** `SortBy::default`. */
  function Default(): (k: SortBy)
    ensures Parse("priority") == Ok(k)
  {
    Priority
  }

  /** The name each key is written as on the command line. */
  function Name(k: SortBy): string {
    match k
    case Id => "id"
    case Category => "category"
    case Priority => "priority"
    case Deadline => "deadline"
  }

  /** `SortBy::from_str`: exactly four lower-case names, each naming its key. */
  function Parse(s: string): (r: Result<SortBy>)
    ensures r.Ok? <==> s in {"id", "category", "priority", "deadline"}
    ensures r.Ok? ==> Name(r.value) == s
    ensures r.Err? ==> r.error == InvalidSortRule(s)
  {
    match s
    case "id" => Ok(Id)
    case "category" => Ok(Category)
    case "priority" => Ok(Priority)
    case "deadline" => Ok(Deadline)
    case _ => Err(InvalidSortRule(s))
  }

  /** Every key's name parses back to that key. */
  lemma ParseName(k: SortBy)
    ensures Parse(Name(k)) == Ok(k)
  {
  }

  /** Distinct accepted names give distinct keys. */
  lemma ParseInjective(s: string, t: string)
    requires Parse(s).Ok? && Parse(t).Ok? && Parse(s) == Parse(t)
    ensures s == t
  {
  }
}
