/** The result recorded when a task is completed. */
module Outcomes {

  datatype Outcome = Success | Failure

  /** `Display for Outcome`: a check mark for success, a cross for failure. */
  function Display(o: Outcome): (r: string)
    ensures |r| == 1
    ensures r == "✓" <==> o == Success
    ensures r == "x" <==> o == Failure
  {
    match o
    case Success => "✓"
    case Failure => "x"
  }

  /** The two displays differ, so the glyph identifies the outcome. */
  lemma DisplayInjective(a: Outcome, b: Outcome)
    requires Display(a) == Display(b)
    ensures a == b
  {
  }
}
