/** Deadlines: an optional date, with the ordering derived for `Option`. */
module Deadlines {
  import opened Wrappers
  import opened Calendar

  datatype Deadline = Deadline(date: Option<Date>)

  datatype Ordering = Less | Equal | Greater

  /** The derived `Ord::cmp`: an absent deadline sorts before every present
      one; present deadlines compare by date. */
  function Cmp(a: Deadline, b: Deadline): (r: Ordering)
    ensures r == Equal <==> a == b
    ensures a.date.None? && b.date.Some? ==> r == Less
    ensures a.date.Some? && b.date.Some? ==> (r == Less <==> a.date.value < b.date.value)
  {
    match (a.date, b.date)
    case (None, None) => Equal
    case (None, Some(_)) => Less
    case (Some(_), None) => Greater
    case (Some(x), Some(y)) => if x < y then Less else if x == y then Equal else Greater
  }

  /** `a <= b` under the derived order. */
  predicate Le(a: Deadline, b: Deadline) {
    Cmp(a, b) != Greater
  }

  /** Swapping the operands reverses the comparison. */
  lemma CmpAntisymmetric(a: Deadline, b: Deadline)
    ensures Cmp(a, b) == Less <==> Cmp(b, a) == Greater
  {
  }

  /** The derived order is a total order: reflexive, antisymmetric,
      transitive and total. */
  lemma LeIsTotalOrder(a: Deadline, b: Deadline, c: Deadline)
    ensures Le(a, a)
    ensures Le(a, b) && Le(b, a) ==> a == b
    ensures Le(a, b) && Le(b, c) ==> Le(a, c)
    ensures Le(a, b) || Le(b, a)
  {
  }
}
