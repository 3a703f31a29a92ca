/**
 Neutralizing untrusted text before it enters a prompt (internal/domain/guard/guard.go).

 A match of the forged-marker expression is found by stepping through the text: each
 function returns what is left after the part it recognizes.
 */
module Sanitize {
  import opened Prelude

  const MAX_UNTRUSTED_RUNES: nat := 24_000
  const NOTICE := "\n[...truncated for length...]"
  const REPLACEMENT := "[redacted-fence-marker]"

  // ---------------------------------------------------------- character classes

  predicate IsControl(c: char) {
    c as int < 0x20 || 0x7F <= c as int <= 0x9F
  }

  /** The format characters (category Cf) of Unicode 15. */
  predicate IsFormat(c: char) {
    var u := c as int;
    || u == 0xAD || 0x600 <= u <= 0x605 || u == 0x61C || u == 0x6DD || u == 0x70F || 0x890 <= u <= 0x891
    || u == 0x8E2 || u == 0x180E || 0x200B <= u <= 0x200F || 0x202A <= u <= 0x202E || 0x2060 <= u <= 0x2064
    || 0x2066 <= u <= 0x206F || u == 0xFEFF || 0xFFF9 <= u <= 0xFFFB || u == 0x110BD || u == 0x110CD
    || 0x13430 <= u <= 0x1343F || 0x1BCA0 <= u <= 0x1BCA3 || 0x1D173 <= u <= 0x1D17A || u == 0xE0001
    || 0xE0020 <= u <= 0xE007F
  }

  predicate Allowed(c: char) {
    c == '\n' || c == '\t' || (!IsControl(c) && !IsFormat(c))
  }

  predicate AllAllowed(s: string) {
    forall i :: 0 <= i < |s| ==> Allowed(s[i])
  }

  /** The expression's \s. */
  predicate Space(c: char) {
    c == '\t' || c == '\n' || c == '\U{000C}' || c == '\r' || c == ' '
  }

  /** The characters on which the expression's \b depends. */
  predicate WordChar(c: char) {
    'a' <= c <= 'z' || 'A' <= c <= 'Z' || '0' <= c <= '9' || c == '_'
  }

  /** c is the lower-case letter w, letter case ignored; the long s folds to s. */
  predicate Folds(c: char, w: char) {
    c == w || (c as int + 32 == w as int && 'A' <= c <= 'Z') || (w == 's' && c == '\U{017F}')
  }

  // ------------------------------------------------------- finding forged markers

  function AfterSpaces(s: string): (r: string)
    ensures |r| <= |s|
  {
    if s != "" && Space(s[0]) then AfterSpaces(s[1..]) else s
  }

  function AfterWord(s: string, w: string): (r: Option<string>)
    ensures r.Some? ==> |r.value| + |w| == |s|
  {
    if w == "" then Some(s)
    else if s != "" && Folds(s[0], w[0]) then AfterWord(s[1..], w[1..])
    else None
  }

  function AfterKeyword(s: string): (r: Option<string>)
    ensures r.Some? ==> |r.value| < |s|
  {
    if AfterWord(s, "begin").Some? then AfterWord(s, "begin") else AfterWord(s, "end")
  }

  function AfterUntrusted(s: string): (r: Option<string>)
    ensures r.Some? ==> |r.value| < |s|
  {
    var r := AfterWord(s, "untrusted");
    if r.Some? && r.value != "" && WordChar(r.value[0]) then None else r
  }

  /** [ \s* (begin|end) \s+ untrusted \b */
  function AfterOpener(s: string): (r: Option<string>)
    ensures r.Some? ==> |r.value| < |s|
  {
    if s == "" || s[0] != '[' then None
    else match AfterKeyword(AfterSpaces(s[1..]))
      case None => None
      case Some(r) => if r == "" || !Space(r[0]) then None else AfterUntrusted(AfterSpaces(r))
  }

  function AfterClose(s: string): (r: string)
    requires ']' in s
    ensures |r| < |s|
  {
    if s[0] == ']' then s[1..] else AfterClose(s[1..])
  }

  /** The text begins with a forged marker: an opener, and somewhere after it a closing bracket. */
  predicate Matches(s: string) {
    AfterOpener(s).Some? && ']' in AfterOpener(s).value
  }

  function Scrub(s: string): string
    decreases |s|
  {
    if s == "" then ""
    else if Matches(s) then REPLACEMENT + Scrub(AfterClose(AfterOpener(s).value))
    else [s[0]] + Scrub(s[1..])
  }

  ghost predicate MarkerFree(s: string) {
    forall i :: 0 <= i <= |s| ==> !Matches(s[i..])
  }

  // -------------------------------------------------------------- blank lines

  function Newlines(s: string): (n: nat)
    ensures n <= |s| && (forall i :: 0 <= i < n ==> s[i] == '\n') && (n < |s| ==> s[n] != '\n')
  {
    if s != "" && s[0] == '\n' then 1 + Newlines(s[1..]) else 0
  }

  function Collapse(s: string): string
    decreases |s|
  {
    if s == "" then ""
    else if s[0] != '\n' then [s[0]] + Collapse(s[1..])
    else
      var n := Newlines(s);
      (if n >= 3 then "\n\n" else s[..n]) + Collapse(s[n..])
  }

  predicate TripleAt(s: string, i: int) {
    0 <= i < |s| - 2 && s[i] == '\n' && s[i + 1] == '\n' && s[i + 2] == '\n'
  }

  ghost predicate NoTriple(s: string) {
    forall i :: !TripleAt(s, i)
  }

  // ------------------------------------------------------------------- sanitize

  function Strip(s: string): string {
    if s == "" then "" else (if Allowed(s[0]) then [s[0]] else "") + Strip(s[1..])
  }

  function Clean(s: string): string { Collapse(Scrub(Strip(s))) }

  function Sanitized(s: string): string {
    if |Clean(s)| <= MAX_UNTRUSTED_RUNES then Clean(s) else Clean(s)[..MAX_UNTRUSTED_RUNES] + NOTICE
  }

  lemma {:induction false} StripMore(s: string, c: char)
    ensures Strip(s + [c]) == Strip(s) + if Allowed(c) then [c] else ""
  {
    if s == "" {
      assert s + [c] == [c];
      assert Strip([c][1..]) == "";
    } else {
      StripMore(s[1..], c);
      assert (s + [c])[1..] == s[1..] + [c];
    }
  }

  method SanitizeText(s: string) returns (out: string)
    ensures out == Sanitized(s)
    ensures var clean := Collapse(Scrub(Strip(s)));
            out == if |clean| <= 24_000 then clean else clean[..24_000] + "\n[...truncated for length...]"
  {
    var b := "";
    for i := 0 to |s|
      invariant b == Strip(s[..i])
    {
      var r := s[i];
      StripMore(s[..i], r);
      assert s[..i + 1] == s[..i] + [r];
      if r == '\n' || r == '\t' {
        b := b + [r];
      } else if IsControl(r) {
      } else if IsFormat(r) {
      } else {
        b := b + [r];
      }
    }
    assert s[..|s|] == s;
    out := Collapse(Scrub(b));
    if |out| > MAX_UNTRUSTED_RUNES {
      out := out[..MAX_UNTRUSTED_RUNES] + NOTICE;
    }
  }
}
