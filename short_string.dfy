/** Short descriptions: non-empty text of at most 50 characters. */
module ShortStrings {
  import opened Wrappers

  /** The character budget of a short description; the long-description
      word wrap in `Format` uses the same constant. */
  const SHORT_STRING_THRESHOLD: nat := 50

  /** A validated short description. Length counts Unicode scalar values
      (Rust's `chars().count()`), which is what `|s|` counts for a Dafny
      `string`; bytes are not counted here. */
  type ShortString = s: string | 0 < |s| <= SHORT_STRING_THRESHOLD witness "-"

  /** `ShortString::from_str`: the empty string is rejected first, then
      anything longer than the threshold. */
  function Parse(s: string): (r: Result<ShortString>)
    ensures r.Ok? <==> 1 <= |s| <= SHORT_STRING_THRESHOLD
    ensures r.Ok? ==> Display(r.value) == s
    ensures s == [] ==> r == Err(ShortStringEmpty)
    ensures |s| > SHORT_STRING_THRESHOLD ==> r == Err(ShortStringTooLong)
  {
    if s == [] then Err(ShortStringEmpty)
    else if |s| <= SHORT_STRING_THRESHOLD then Ok(s)
    else Err(ShortStringTooLong)
  }

  /** `Display for ShortString`: the text itself. */
  function Display(s: ShortString): (r: string)
    ensures 1 <= |r| <= SHORT_STRING_THRESHOLD
  {
    s
  }

  /** Exactly fifty characters is accepted (the error message's "fewer than"
      notwithstanding), fifty-one is not. */
  lemma BoundaryAtThreshold(s: string)
    ensures |s| == 50 ==> Parse(s).Ok?
    ensures |s| == 51 ==> Parse(s) == Err(ShortStringTooLong)
  {
  }

  /** Every short string survives display followed by parsing. */
  lemma ParseDisplay(s: ShortString)
    ensures Parse(Display(s)) == Ok(s)
  {
  }
}
