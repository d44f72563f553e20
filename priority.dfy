/** Task priorities, ranked 1 (very low) to 5 (very high). */
module Priorities {
  import opened Wrappers
  import Text

  datatype Priority = VeryLow | Low | Normal | High | VeryHigh

  /** The enum discriminant. */
  function Rank(p: Priority): (n: nat)
    ensures 1 <= n <= 5
  {
    match p
    case VeryLow => 1
    case Low => 2
    case Normal => 3
    case High => 4
    case VeryHigh => 5
  }

  /** The derived `Ord`: declaration order, which is discriminant order. */
  predicate Less(a: Priority, b: Priority)
    ensures Less(a, b) ==> a != b && a != VeryHigh && b != VeryLow
  {
    Rank(a) < Rank(b)
  }

  /** `Priority::as_symbol`. */
  function AsSymbol(p: Priority): (r: string)
    ensures |r| == Rank(p)
  {
    match p
    case VeryLow => "★"
    case Low => "★★"
    case Normal => "★★★"
    case High => "★★★★"
    case VeryHigh => "★★★★★"
  }

  /** `Priority::from_str`: the kebab-case name or the discriminant's digit. */
  function Parse(s: string): (r: Result<Priority>)
    ensures r.Ok? <==> s in {"very-low", "low", "normal", "high", "very-high", "1", "2", "3", "4", "5"}
    ensures r.Err? ==> r.error == InvalidPriority(s)
    ensures r.Ok? && |s| == 1 ==> Text.NatToString(Rank(r.value)) == s
  {
    match s
    case "very-low" => Ok(VeryLow)
    case "1" => Ok(VeryLow)
    case "low" => Ok(Low)
    case "2" => Ok(Low)
    case "normal" => Ok(Normal)
    case "3" => Ok(Normal)
    case "high" => Ok(High)
    case "4" => Ok(High)
    case "very-high" => Ok(VeryHigh)
    case "5" => Ok(VeryHigh)
    case _ => Err(InvalidPriority(s))
  }

  /** `Priority::default`. */
  function Default(): (p: Priority)
    ensures Rank(p) == 3
    ensures Less(VeryLow, p) && Less(Low, p) && Less(p, High) && Less(p, VeryHigh)
  {
    Normal
  }

  /** The order is the chain VeryLow < Low < Normal < High < VeryHigh, and it
      is a strict total order. */
  lemma OrderIsChain(a: Priority, b: Priority, c: Priority)
    ensures Less(VeryLow, Low) && Less(Low, Normal) && Less(Normal, High) && Less(High, VeryHigh)
    ensures !Less(a, a)
    ensures Less(a, b) && Less(b, c) ==> Less(a, c)
    ensures a == b || Less(a, b) || Less(b, a)
  {
  }

  /** The symbol is as many stars as the rank. */
  lemma SymbolCountsRank(p: Priority)
    ensures AsSymbol(p) == Text.Repeat('★', Rank(p))
  {
    var r := Text.Repeat('★', Rank(p));
    assert |r| == Rank(p) && forall i :: 0 <= i < |r| ==> r[i] == '★';
  }

  /** The symbol grows strictly with the priority, so distinct priorities have
      distinct symbols. */
  lemma SymbolMonotone(a: Priority, b: Priority)
    ensures Less(a, b) <==> |AsSymbol(a)| < |AsSymbol(b)|
    ensures AsSymbol(a) == AsSymbol(b) ==> a == b
  {
    SymbolCountsRank(a);
    SymbolCountsRank(b);
  }

  /** The name and the digit of a priority parse to the same priority. */
  lemma NameAndDigitAgree(p: Priority)
    ensures Parse(Text.NatToString(Rank(p))) == Ok(p)
    ensures Parse(KebabName(p)) == Ok(p)
  {
  }

  /** The serialised (kebab-case) name of each priority. */
  function KebabName(p: Priority): string {
    match p
    case VeryLow => "very-low"
    case Low => "low"
    case Normal => "normal"
    case High => "high"
    case VeryHigh => "very-high"
  }
}
