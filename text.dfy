/** Character and string helpers the program takes from Rust's standard
    library: decimal digits, `usize` parsing, `strip_prefix`, ASCII lower
    case, UTF-8 byte length and `split_ascii_whitespace`. */
module Text {
  import opened Wrappers

  /** Largest `usize` on a 64-bit target. */
  const USIZE_MAX: nat := 0xFFFF_FFFF_FFFF_FFFF

  predicate IsDigit(c: char) { '0' <= c <= '9' }

  predicate AllDigits(s: string) { forall i :: 0 <= i < |s| ==> IsDigit(s[i]) }

  function DigitValue(c: char): (d: nat)
    requires IsDigit(c)
    ensures d < 10
  {
    (c as int) - ('0' as int)
  }

  function DigitChar(d: nat): (c: char)
    requires d < 10
    ensures IsDigit(c) && DigitValue(c) == d
  {
    (('0' as int) + d) as char
  }

  /** The number a non-empty run of decimal digits denotes (most significant first). */
  function DigitsValue(s: string): nat
    requires AllDigits(s)
  {
    if s == [] then 0 else 10 * DigitsValue(s[..|s| - 1]) + DigitValue(s[|s| - 1])
  }

  /** Decimal rendering of a natural number, as `format!("{n}")` prints it. */
  function NatToString(n: nat): (r: string)
    ensures |r| > 0 && AllDigits(r)
  {
    if n < 10 then [DigitChar(n)] else NatToString(n / 10) + [DigitChar(n % 10)]
  }

  /** Number of decimal digits of `n`. */
  function NumDigits(n: nat): (k: nat)
    ensures k >= 1
  {
    if n < 10 then 1 else 1 + NumDigits(n / 10)
  }

  lemma {:induction false} NatToStringLength(n: nat)
    ensures |NatToString(n)| == NumDigits(n)
  {
    if n >= 10 {
      NatToStringLength(n / 10);
    }
  }

  /** Reading back a rendered number gives the number. */
  lemma {:induction false} DigitsValueOfNatToString(n: nat)
    ensures DigitsValue(NatToString(n)) == n
  {
    if n >= 10 {
      var r := NatToString(n);
      assert r[..|r| - 1] == NatToString(n / 10);
      DigitsValueOfNatToString(n / 10);
    }
  }

  /** One or more ASCII digits and nothing else. */
  predicate IsDecimal(s: string) {
    |s| > 0 && AllDigits(s)
  }

  /** `<usize as FromStr>::from_str`: an optional leading `+`, then one or
      more ASCII digits whose value fits in a `usize`. */
  function ParseUsize(s: string): (r: Option<nat>)
    ensures r.Some? <==> || (IsDecimal(s) && DigitsValue(s) <= USIZE_MAX)
                         || (|s| > 0 && s[0] == '+' && IsDecimal(s[1..]) && DigitsValue(s[1..]) <= USIZE_MAX)
    ensures r.Some? && IsDecimal(s) ==> r.value == DigitsValue(s)
    ensures r.Some? && !IsDecimal(s) ==> s[0] == '+' && r.value == DigitsValue(s[1..])
    ensures r.Some? ==> r.value <= USIZE_MAX
    ensures s == [] || s == "+" ==> r.None?
  {
    var digits := if |s| > 0 && s[0] == '+' then s[1..] else s;
    if |digits| > 0 && AllDigits(digits) && DigitsValue(digits) <= USIZE_MAX
    then Some(DigitsValue(digits))
    else None
  }

  /** Every number a `usize` can hold is read back from its decimal rendering. */
  lemma ParseUsizeOfNatToString(n: nat)
    requires n <= USIZE_MAX
    ensures ParseUsize(NatToString(n)) == Some(n)
    ensures ParseUsize("+" + NatToString(n)) == Some(n)
  {
    DigitsValueOfNatToString(n);
    assert ("+" + NatToString(n))[1..] == NatToString(n);
  }

  /** A leading minus sign is never accepted for an unsigned number. */
  lemma ParseUsizeRejectsMinus(s: string)
    requires |s| > 0 && s[0] == '-'
    ensures ParseUsize(s).None?
  {
    assert !IsDigit(s[0]);
  }

  /** `str::strip_prefix`. */
  function StripPrefix(s: string, prefix: string): (r: Option<string>)
    ensures r.Some? <==> prefix <= s
    ensures r.Some? ==> s == prefix + r.value
  {
    if prefix <= s then Some(s[|prefix|..]) else None
  }

  function AsciiLowerChar(c: char): char {
    if 'A' <= c <= 'Z' then ((c as int) + 32) as char else c
  }

  /** `str::to_ascii_lowercase`: only A-Z change. */
  function AsciiLower(s: string): (r: string)
    ensures |r| == |s|
    ensures forall i :: 0 <= i < |s| ==> r[i] == AsciiLowerChar(s[i])
  {
    seq(|s|, i requires 0 <= i < |s| => AsciiLowerChar(s[i]))
  }

  /** `n` copies of `c`. */
  function Repeat(c: char, n: nat): (r: string)
    ensures |r| == n
    ensures forall i :: 0 <= i < n ==> r[i] == c
  {
    seq(n, _ => c)
  }

  /** Bytes `c` takes in UTF-8. */
  function Utf8Width(c: char): (w: nat)
    ensures 1 <= w <= 4
    ensures w == 1 <==> c as int < 0x80
  {
    if c as int < 0x80 then 1
    else if c as int < 0x800 then 2
    else if c as int < 0x10000 then 3
    else 4
  }

  /** `str::len`: the length of `s` in UTF-8 bytes, not in characters. */
  function ByteLen(s: string): nat {
    if s == [] then 0 else ByteLen(s[..|s| - 1]) + Utf8Width(s[|s| - 1])
  }

  lemma {:induction false} ByteLenAppend(s: string, t: string)
    ensures ByteLen(s + t) == ByteLen(s) + ByteLen(t)
    decreases |t|
  {
    if t == [] {
      assert s + t == s;
    } else {
      assert (s + t)[..|s + t| - 1] == s + t[..|t| - 1];
      ByteLenAppend(s, t[..|t| - 1]);
    }
  }

  /** Bytes are never fewer than characters, and equal exactly on ASCII text. */
  lemma {:induction false} ByteLenBounds(s: string)
    ensures |s| <= ByteLen(s) <= 4 * |s|
    ensures ByteLen(s) == |s| <==> forall i :: 0 <= i < |s| ==> s[i] as int < 0x80
  {
    if s != [] {
      var p := s[..|s| - 1];
      ByteLenBounds(p);
      assert forall i :: 0 <= i < |p| ==> p[i] == s[i];
    }
  }

  /** `u8::is_ascii_whitespace`: space, tab, line feed, form feed, carriage
      return (not vertical tab). */
  predicate IsAsciiWhitespace(c: char) {
    c == ' ' || c == '\t' || c == '\n' || c == '\U{0C}' || c == '\r'
  }

  predicate IsWord(w: string) {
    |w| > 0 && forall i :: 0 <= i < |w| ==> !IsAsciiWhitespace(w[i])
  }

  /** The characters of `s` that are not ASCII whitespace, in order. */
  function NonWhitespace(s: string): string {
    if s == [] then []
    else (if IsAsciiWhitespace(s[0]) then [] else [s[0]]) + NonWhitespace(s[1..])
  }

  function Concat(ws: seq<string>): string {
    if ws == [] then [] else ws[0] + Concat(ws[1..])
  }

  lemma {:induction false} ConcatAppend(a: seq<string>, b: seq<string>)
    ensures Concat(a + b) == Concat(a) + Concat(b)
  {
    if a == [] {
      assert a + b == b;
    } else {
      assert (a + b)[1..] == a[1..] + b;
      ConcatAppend(a[1..], b);
    }
  }

  /** `str::split_ascii_whitespace`, with `word` the word read so far. */
  function SplitFrom(s: string, word: string): (ws: seq<string>)
    requires forall i :: 0 <= i < |word| ==> !IsAsciiWhitespace(word[i])
    ensures forall k :: 0 <= k < |ws| ==> IsWord(ws[k])
    decreases |s|
  {
    if s == [] then (if word == [] then [] else [word])
    else if IsAsciiWhitespace(s[0]) then (if word == [] then [] else [word]) + SplitFrom(s[1..], [])
    else SplitFrom(s[1..], word + [s[0]])
  }

  function SplitAsciiWhitespace(s: string): (ws: seq<string>)
    ensures forall k :: 0 <= k < |ws| ==> IsWord(ws[k])
  {
    SplitFrom(s, [])
  }

  lemma {:induction false} SplitFromKeepsText(s: string, word: string)
    requires forall i :: 0 <= i < |word| ==> !IsAsciiWhitespace(word[i])
    ensures Concat(SplitFrom(s, word)) == word + NonWhitespace(s)
    decreases |s|
  {
    if s == [] {
      assert Concat([word]) == word + Concat([]);
    } else if IsAsciiWhitespace(s[0]) {
      var head: seq<string> := if word == [] then [] else [word];
      assert Concat(head) == word by {
        if word != [] { assert Concat([word]) == word + Concat([]); }
      }
      ConcatAppend(head, SplitFrom(s[1..], []));
      SplitFromKeepsText(s[1..], []);
    } else {
      SplitFromKeepsText(s[1..], word + [s[0]]);
    }
  }

  /** Splitting drops exactly the whitespace: the words, joined without
      separators, are the non-whitespace characters of the text in order. */
  lemma SplitAsciiWhitespaceKeepsText(s: string)
    ensures Concat(SplitAsciiWhitespace(s)) == NonWhitespace(s)
  {
    SplitFromKeepsText(s, []);
  }

  /** Words joined with single spaces. */
  function JoinWithSpaces(ws: seq<string>): string {
    if ws == [] then []
    else if |ws| == 1 then ws[0]
    else ws[0] + " " + JoinWithSpaces(ws[1..])
  }

  /** Splitting takes whole whitespace-free runs as words: any sequence of
      words joined by single spaces splits back into exactly those words. */
  lemma {:induction false} SplitJoinWithSpaces(ws: seq<string>)
    requires forall k :: 0 <= k < |ws| ==> IsWord(ws[k])
    ensures SplitAsciiWhitespace(JoinWithSpaces(ws)) == ws
  {
    if ws != [] {
      var w := ws[0];
      if |ws| == 1 {
        ReadWord(w, [], []);
        assert w + [] == w && [] + w == w;
        assert SplitFrom([], w) == [w];
        assert ws == [w];
      } else {
        var rest := " " + JoinWithSpaces(ws[1..]);
        assert JoinWithSpaces(ws) == w + rest;
        ReadWord(w, rest, []);
        assert [] + w == w && rest[0] == ' ';
        assert rest[1..] == JoinWithSpaces(ws[1..]);
        assert SplitFrom(rest, w) == [w] + SplitFrom(rest[1..], []);
        SplitJoinWithSpaces(ws[1..]);
        assert ws == [w] + ws[1..];
      }
    }
  }

  /** Characters that are not whitespace extend the word being read. */
  lemma {:induction false} ReadWord(w: string, t: string, word: string)
    requires forall i :: 0 <= i < |w| ==> !IsAsciiWhitespace(w[i])
    requires forall i :: 0 <= i < |word| ==> !IsAsciiWhitespace(word[i])
    ensures SplitFrom(w + t, word) == SplitFrom(t, word + w)
    decreases |w|
  {
    if w == [] {
      assert w + t == t && word + w == word;
    } else {
      assert (w + t)[0] == w[0];
      assert (w + t)[1..] == w[1..] + t;
      ReadWord(w[1..], t, word + [w[0]]);
      assert word + [w[0]] + w[1..] == word + w;
    }
  }
}
