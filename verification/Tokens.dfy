/** The tokenizer shared by every skill and location gate (internal/domain/kernel/tokens.go). */
module Tokens {
  import opened Text

  predicate Separator(c: char) {
    c == ',' || c == '/' || c == ';' || IsSpace(c)
  }

  /** The fields of s, the first of them continuing word. */
  function Fields(word: string, s: string): seq<string>
    decreases |s|
  {
    if s == "" then Closed(word)
    else if Separator(s[0]) then Closed(word) + Fields("", s[1..])
    else Fields(word + [s[0]], s[1..])
  }

  function Closed(word: string): seq<string> {
    if word == "" then [] else [word]
  }

  function Tokenize(s: string): seq<string> { Fields("", s) }

  /** phrase occurs as a contiguous run of tokens; an empty phrase never does. */
  ghost predicate Occurs(haystack: seq<string>, phrase: seq<string>) {
    phrase != [] && exists i :: OccursAt(haystack, phrase, i)
  }

  ghost predicate OccursAt(haystack: seq<string>, phrase: seq<string>, i: int) {
    0 <= i && i + |phrase| <= |haystack| && haystack[i..i + |phrase|] == phrase
  }

  method HasPhrase(haystack: seq<string>, phrase: seq<string>) returns (found: bool)
    ensures found <==> Occurs(haystack, phrase)
  {
    if |phrase| == 0 {
      return false;
    }
    var start := 0;
    while start + |phrase| <= |haystack|
      invariant 0 <= start
      invariant forall i :: 0 <= i < start ==> !OccursAt(haystack, phrase, i)
    {
      var matched := true;
      for j := 0 to |phrase|
        invariant matched ==> forall k :: 0 <= k < j ==> haystack[start + k] == phrase[k]
        invariant !matched ==> !OccursAt(haystack, phrase, start)
      {
        if haystack[start + j] != phrase[j] {
          matched := false;
          assert haystack[start..start + |phrase|][j] != phrase[j];
          break;
        }
      }
      if matched {
        assert OccursAt(haystack, phrase, start);
        return true;
      }
      start := start + 1;
    }
    return false;
  }

  // -------------------------------------------------------- trimming and joining

  lemma {:induction false} FieldsAppend(word: string, s: string, c: char, t: string)
    requires Separator(c)
    ensures Fields(word, s + [c] + t) == Fields(word, s) + Tokenize(t)
    decreases |s|
  {
    if s == "" {
      assert (s + [c] + t)[1..] == t;
    } else {
      assert (s + [c] + t)[1..] == s[1..] + [c] + t;
      FieldsAppend(if Separator(s[0]) then "" else word + [s[0]], s[1..], c, t);
    }
  }

  /** Text joined by separators has the tokens of its parts, in order. */
  lemma TokensOfJoin(s: string, c: char, t: string)
    requires Separator(c)
    ensures Tokenize(s + [c] + t) == Tokenize(s) + Tokenize(t)
  {
    FieldsAppend("", s, c, t);
  }

  lemma {:induction false} TrimLeftKeepsTokens(s: string)
    ensures Tokenize(TrimLeft(s)) == Tokenize(s)
  {
    if s == "" || !IsSpace(s[0]) {
    } else {
      TrimLeftKeepsTokens(s[1..]);
    }
  }

  lemma {:induction false} TrimRightKeepsTokens(s: string)
    ensures Tokenize(TrimRight(s)) == Tokenize(s)
  {
    if s == "" || !IsSpace(s[|s| - 1]) {
    } else {
      var init := s[..|s| - 1];
      TrimRightKeepsTokens(init);
      TokensOfJoin(init, s[|s| - 1], "");
      assert init + [s[|s| - 1]] + "" == s;
    }
  }

  lemma TrimKeepsTokens(s: string)
    ensures Tokenize(TrimSpace(s)) == Tokenize(s)
  {
    TrimLeftKeepsTokens(s);
    TrimRightKeepsTokens(TrimLeft(s));
  }

  // ----------------------------------------------------------------- lower case

  /** A lower-casing of single characters that leaves separators and lower-case ASCII alone. */
  ghost predicate Lowering(lower: char -> char) {
    && (forall c :: IsSpace(lower(c)) <==> IsSpace(c))
    && (forall c :: Separator(lower(c)) <==> Separator(c))
    && (forall c :: 'a' <= c <= 'z' || '0' <= c <= '9' || c == '.' ==> lower(c) == c)
  }

  function Lower(lower: char -> char, s: string): (r: string)
    ensures |r| == |s| && forall i :: 0 <= i < |s| ==> r[i] == lower(s[i])
  {
    seq(|s|, i requires 0 <= i < |s| => lower(s[i]))
  }

  function TokensOf(lower: char -> char, s: string): seq<string> { Tokenize(Lower(lower, s)) }

  lemma LowerOfConcat(lower: char -> char, s: string, t: string)
    ensures Lower(lower, s + t) == Lower(lower, s) + Lower(lower, t)
  {
  }

  /** Text joined by a separator has the lower-cased tokens of both parts, in order. */
  lemma TokensOfConcat(lower: char -> char, s: string, c: char, t: string)
    requires Lowering(lower) && Separator(c)
    ensures TokensOf(lower, s + [c] + t) == TokensOf(lower, s) + TokensOf(lower, t)
  {
    LowerOfConcat(lower, s + [c], t);
    LowerOfConcat(lower, s, [c]);
    assert Lower(lower, [c]) == [lower(c)];
    TokensOfJoin(Lower(lower, s), lower(c), Lower(lower, t));
  }

  lemma {:induction false} LowerTrimLeft(lower: char -> char, s: string)
    requires Lowering(lower)
    ensures Lower(lower, TrimLeft(s)) == TrimLeft(Lower(lower, s))
  {
    if s == "" || !IsSpace(s[0]) {
    } else {
      LowerTrimLeft(lower, s[1..]);
      assert Lower(lower, s)[1..] == Lower(lower, s[1..]);
    }
  }

  lemma {:induction false} LowerTrimRight(lower: char -> char, s: string)
    requires Lowering(lower)
    ensures Lower(lower, TrimRight(s)) == TrimRight(Lower(lower, s))
  {
    if s == "" || !IsSpace(s[|s| - 1]) {
    } else {
      LowerTrimRight(lower, s[..|s| - 1]);
      assert Lower(lower, s)[..|s| - 1] == Lower(lower, s[..|s| - 1]);
    }
  }

  /** The form in which both gates compare a competency name. */
  function Normal(lower: char -> char, name: string): string {
    Lower(lower, TrimSpace(name))
  }

  /** Trimming before lower-casing makes no difference to the tokens. */
  lemma NormalTokens(lower: char -> char, name: string)
    requires Lowering(lower)
    ensures Tokenize(Normal(lower, name)) == Tokenize(Lower(lower, name))
  {
    LowerTrimLeft(lower, name);
    LowerTrimRight(lower, TrimLeft(name));
    TrimKeepsTokens(Lower(lower, name));
  }

  // ------------------------------------------------------------ what tokens are

  predicate Word(w: string) {
    w != "" && forall i :: 0 <= i < |w| ==> !Separator(w[i])
  }

  lemma {:induction false} FieldsAreWords(word: string, s: string)
    requires word == "" || Word(word)
    ensures forall w :: w in Fields(word, s) ==> Word(w)
    decreases |s|
  {
    if s == "" {
    } else {
      FieldsAreWords(if Separator(s[0]) then "" else word + [s[0]], s[1..]);
    }
  }

  lemma {:induction false} FieldsOfWord(word: string, s: string)
    requires forall i :: 0 <= i < |s| ==> !Separator(s[i])
    ensures Fields(word, s) == Closed(word + s)
    decreases |s|
  {
    if s == "" {
      assert word + s == word;
    } else {
      FieldsOfWord(word + [s[0]], s[1..]);
      assert word + [s[0]] + s[1..] == word + s;
    }
  }

  /** A word is its own only token, and separators alone have none. */
  lemma TokensOfWord(w: string)
    ensures Word(w) ==> Tokenize(w) == [w]
    ensures (forall i :: 0 <= i < |w| ==> Separator(w[i])) ==> Tokenize(w) == []
  {
    if Word(w) {
      FieldsOfWord("", w);
      assert "" + w == w;
    }
    if forall i :: 0 <= i < |w| ==> Separator(w[i]) {
      FieldsOfSeparators(w);
    }
  }

  lemma {:induction false} FieldsOfSeparators(s: string)
    requires forall i :: 0 <= i < |s| ==> Separator(s[i])
    ensures Tokenize(s) == []
  {
    if s == "" {
    } else {
      FieldsOfSeparators(s[1..]);
    }
  }

  /** White space, commas, slashes and semicolons part words; what names of skills are made of does not. */
  lemma SeparatorsAre(c: char)
    ensures c in {' ', '\t', '\n', '\r', ',', '/', ';'} ==> Separator(c)
    ensures 'a' <= c <= 'z' || 'A' <= c <= 'Z' || '0' <= c <= '9' || c in {'.', '+', '#', '-', '_'} ==> !Separator(c)
  {
  }

  /** A phrase occurs when the tokens are something, then the phrase, then something. */
  lemma OccursIff(haystack: seq<string>, phrase: seq<string>)
    ensures Occurs(haystack, phrase) <==>
              phrase != [] && exists before, after :: haystack == before + phrase + after
  {
    if Occurs(haystack, phrase) {
      var i :| OccursAt(haystack, phrase, i);
      assert haystack == haystack[..i] + phrase + haystack[i + |phrase|..];
    }
    if phrase != [] && exists before, after :: haystack == before + phrase + after {
      var before, after :| haystack == before + phrase + after;
      assert haystack[|before|..|before| + |phrase|] == phrase;
      assert OccursAt(haystack, phrase, |before|);
    }
  }

  function JoinBySpace(words: seq<string>): string {
    if words == [] then "" else words[0] + " " + JoinBySpace(words[1..])
  }

  /** Tokenizing is stable: joining the tokens and splitting again gives them back. */
  lemma {:induction false} Retokenize(words: seq<string>)
    requires forall w :: w in words ==> Word(w)
    ensures Tokenize(JoinBySpace(words)) == words
  {
    if words == [] {
    } else {
      assert Word(words[0]);
      Retokenize(words[1..]);
      TokensOfJoin(words[0], ' ', JoinBySpace(words[1..]));
      FieldsOfWord("", words[0]);
      assert "" + words[0] == words[0];
    }
  }

  lemma TokensAreStable(s: string)
    ensures Tokenize(JoinBySpace(Tokenize(s))) == Tokenize(s)
    ensures forall w :: w in Tokenize(s) ==> Word(w)
  {
    FieldsAreWords("", s);
    Retokenize(Tokenize(s));
  }
}
