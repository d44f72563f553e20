/** Tags: free-form labels made of alphanumerics and hyphens. */
module Tags {
  import opened Wrappers

  /** `char::is_alphanumeric`, exact on ASCII (letters and digits). Unicode
      letters and numbers beyond ASCII are not part of this model. */
  predicate IsAlphanumeric(c: char) {
    ('a' <= c <= 'z') || ('A' <= c <= 'Z') || ('0' <= c <= '9')
  }

  predicate IsTagChar(c: char) {
    IsAlphanumeric(c) || c == '-'
  }

  predicate IsTagText(s: string) {
    forall i :: 0 <= i < |s| ==> IsTagChar(s[i])
  }

  /** A validated tag. The empty string is one: "every character is allowed"
      holds vacuously of it. */
  type Tag = s: string | IsTagText(s) witness ""

  /** `Tag::from_str`. */
  function Parse(s: string): (r: Result<Tag>)
    ensures r.Ok? <==> forall i :: 0 <= i < |s| ==> IsAlphanumeric(s[i]) || s[i] == '-'
    ensures r.Ok? ==> Display(r.value) == s
    ensures r.Err? ==> r.error == InvalidTag(s)
  {
    if IsTagText(s) then Ok(s) else Err(InvalidTag(s))
  }

  /** `Display for Tag`: the text itself. */
  function Display(t: Tag): (r: string)
    ensures forall i :: 0 <= i < |r| ==> IsTagChar(r[i])
  {
    t
  }

  /** Text containing a space, comma, underscore or any other ASCII
      punctuation is never a tag. */
  lemma RejectsSeparators(s: string, i: nat)
    requires i < |s|
    requires s[i] == ' ' || s[i] == ',' || s[i] == '_' || s[i] == '.' || s[i] == '/' || s[i] == '#'
    ensures Parse(s).Err?
  {
  }

  lemma AcceptsEmpty()
    ensures Parse("") == Ok("")
  {
  }

  /** Every tag survives display followed by parsing. */
  lemma ParseDisplay(t: Tag)
    ensures Parse(Display(t)) == Ok(t)
  {
  }
}
