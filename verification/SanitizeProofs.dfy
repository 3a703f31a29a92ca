/** What sanitized text is free of, with and without truncation. */
module SanitizeProofs {
  import opened Prelude
  import opened Sanitize

  // ------------------------------------------------- markers, stated as strings

  ghost predicate AllSpace(s: string) { forall i :: 0 <= i < |s| ==> Space(s[i]) }

  ghost predicate FoldsTo(s: string, w: string) {
    |s| == |w| && forall i :: 0 <= i < |s| ==> Folds(s[i], w[i])
  }

  /** The parts of a forged marker: "[" + gap + keyword + gap' + word + body + "]". */
  datatype Marker = Marker(gap: string, keyword: string, gap': string, word: string, body: string) {
    ghost predicate Valid() {
      && AllSpace(gap) && (FoldsTo(keyword, "begin") || FoldsTo(keyword, "end"))
      && AllSpace(gap') && gap' != "" && FoldsTo(word, "untrusted")
      && ']' !in body && (body != "" ==> !WordChar(body[0]))
    }

    function Tail(rest: string): string { word + (body + ("]" + rest)) }

    /** The text that starts with this marker and goes on with rest. */
    function Text(rest: string): string { "[" + (gap + (keyword + (gap' + Tail(rest)))) }
  }

  lemma {:induction false} SpacesSkipped(gap: string, rest: string)
    requires AllSpace(gap) && (rest != "" ==> !Space(rest[0]))
    ensures AfterSpaces(gap + rest) == rest
  {
    if gap == "" {
      assert gap + rest == rest;
    } else {
      SpacesSkipped(gap[1..], rest);
      assert (gap + rest)[1..] == gap[1..] + rest;
    }
  }

  lemma {:induction false} WordTaken(word: string, w: string, rest: string)
    requires FoldsTo(word, w)
    ensures AfterWord(word + rest, w) == Some(rest)
  {
    if w == "" {
      assert word + rest == rest;
    } else {
      WordTaken(word[1..], w[1..], rest);
      assert (word + rest)[1..] == word[1..] + rest;
    }
  }

  lemma {:induction false} CloseFound(body: string, rest: string)
    requires ']' !in body
    ensures AfterClose(body + ("]" + rest)) == rest
  {
    if body == "" {
      assert body + ("]" + rest) == "]" + rest;
    } else {
      CloseFound(body[1..], rest);
      assert (body + ("]" + rest))[1..] == body[1..] + ("]" + rest);
    }
  }

  lemma MarkerIsFound(m: Marker, rest: string)
    requires m.Valid()
    ensures Matches(m.Text(rest)) && AfterClose(AfterOpener(m.Text(rest)).value) == rest
  {
    var t3 := m.body + ("]" + rest);
    var t2 := m.gap' + m.Tail(rest);
    var t1 := m.keyword + t2;
    assert m.Text(rest)[1..] == m.gap + t1;
    SpacesSkipped(m.gap, t1);
    if FoldsTo(m.keyword, "begin") {
      WordTaken(m.keyword, "begin", t2);
    } else {
      WordTaken(m.keyword, "end", t2);
      assert !Folds(t1[0], 'b');
      assert AfterWord(t1, "begin").None?;
    }
    assert t2[0] == m.gap'[0];
    SpacesSkipped(m.gap', m.Tail(rest));
    WordTaken(m.word, "untrusted", t3);
    assert t3[|m.body|] == ']';
    assert m.body == "" ==> t3[0] == ']';
    CloseFound(m.body, rest);
  }

  lemma {:induction false} SpacesSplit(s: string) returns (gap: string)
    ensures AllSpace(gap) && s == gap + AfterSpaces(s)
    ensures (s != "" && Space(s[0])) ==> gap != ""
    ensures AfterSpaces(s) != "" ==> !Space(AfterSpaces(s)[0])
  {
    if s != "" && Space(s[0]) {
      var more := SpacesSplit(s[1..]);
      gap := [s[0]] + more;
    } else {
      gap := "";
    }
  }

  lemma {:induction false} WordSplit(s: string, w: string) returns (word: string)
    requires AfterWord(s, w).Some?
    ensures FoldsTo(word, w) && s == word + AfterWord(s, w).value
  {
    if w == "" {
      word := "";
    } else {
      var more := WordSplit(s[1..], w[1..]);
      word := [s[0]] + more;
    }
  }

  lemma {:induction false} CloseSplit(s: string) returns (body: string)
    requires ']' in s
    ensures ']' !in body && s == body + ("]" + AfterClose(s))
  {
    if s[0] == ']' {
      body := "";
    } else {
      var more := CloseSplit(s[1..]);
      body := [s[0]] + more;
    }
  }

  /** What the scanner has seen when it recognizes an opener. */
  lemma OpenerUnfolds(s: string)
    requires AfterOpener(s).Some?
    ensures s != "" && s[0] == '[' && AfterKeyword(AfterSpaces(s[1..])).Some?
    ensures var r := AfterKeyword(AfterSpaces(s[1..])).value;
            && r != "" && Space(r[0])
            && AfterWord(AfterSpaces(r), "untrusted") == AfterOpener(s)
    ensures AfterOpener(s).value != "" ==> !WordChar(AfterOpener(s).value[0])
  {
    hide AfterSpaces, AfterWord, AfterKeyword;
  }

  lemma KeywordSplit(s: string) returns (keyword: string)
    requires AfterKeyword(s).Some?
    ensures (FoldsTo(keyword, "begin") || FoldsTo(keyword, "end")) && s == keyword + AfterKeyword(s).value
  {
    if AfterWord(s, "begin").Some? {
      keyword := WordSplit(s, "begin");
    } else {
      keyword := WordSplit(s, "end");
    }
    hide AfterWord, FoldsTo;
  }

  lemma MarkerAssembled(m: Marker, s: string, t1: string, t2: string, t3: string, t4: string, rest: string)
    requires s != "" && s[0] == '[' && s[1..] == m.gap + t1 && t1 == m.keyword + t2 && t2 == m.gap' + t3
    requires t3 == m.word + t4 && t4 == m.body + ("]" + rest)
    ensures s == m.Text(rest)
  {
    assert s == "[" + s[1..];
  }

  lemma MatchSplits(s: string) returns (m: Marker, rest: string)
    requires AfterOpener(s).Some? && ']' in AfterOpener(s).value
    ensures m.Valid() && s == m.Text(rest)
  {
    hide AfterOpener, AfterSpaces, AfterKeyword, AfterWord, AfterClose, AllSpace, FoldsTo, Space, WordChar, Marker.Text;
    OpenerUnfolds(s);
    var r0 := AfterSpaces(s[1..]);
    var gap := SpacesSplit(s[1..]);
    var keyword := KeywordSplit(r0);
    var r1 := AfterKeyword(r0).value;
    var gap' := SpacesSplit(r1);
    var word := WordSplit(AfterSpaces(r1), "untrusted");
    var r2 := AfterOpener(s).value;
    var body := CloseSplit(r2);
    m, rest := Marker(gap, keyword, gap', word, body), AfterClose(r2);
    assert body != "" ==> body[0] == r2[0];
    MarkerAssembled(m, s, r0, r1, AfterSpaces(r1), r2, rest);
  }

  /** Text begins with a match exactly when it begins with a forged marker. */
  lemma MatchesIff(s: string)
    ensures Matches(s) <==> exists m: Marker, rest: string :: m.Valid() && s == m.Text(rest)
  {
    if Matches(s) {
      var m, rest := MatchSplits(s);
    }
    forall m: Marker, rest: string | m.Valid() && s == m.Text(rest) ensures Matches(s) {
      MarkerIsFound(m, rest);
    }
    hide Matches, Marker.Valid, Marker.Text;
  }

  // ------------------------------------- rewriting cannot put a marker together

  /** A rewriting that keeps what an opener is made of and adds no first closing bracket. */
  ghost predicate Tame(f: string -> string) {
    && f("") == ""
    && (forall s :: s != "" ==> f(s) != "" && f(s)[0] == s[0])
    && (forall s :: s != "" && s[0] != '[' && s[0] != '\n' ==> f(s) == [s[0]] + f(s[1..]))
    && (forall s :: AfterSpaces(f(s)) == f(AfterSpaces(s)))
    && (forall s :: ']' in f(s) ==> ']' in s)
  }

  predicate Letters(w: string) {
    forall i :: 0 <= i < |w| ==> 'a' <= w[i] <= 'z'
  }

  lemma {:induction false} TameWord(f: string -> string, s: string, w: string)
    requires Tame(f) && Letters(w)
    ensures AfterWord(f(s), w).Some? <==> AfterWord(s, w).Some?
    ensures AfterWord(s, w).Some? ==> AfterWord(f(s), w).value == f(AfterWord(s, w).value)
  {
    if w == "" || s == "" || !Folds(s[0], w[0]) {
    } else {
      TameWord(f, s[1..], w[1..]);
      assert f(s)[1..] == f(s[1..]);
    }
  }

  lemma TameHead(f: string -> string, s: string)
    requires Tame(f)
    ensures AfterSpaces(f(s)) == f(AfterSpaces(s))
    ensures if s == "" then f(s) == "" else f(s) != "" && f(s)[0] == s[0]
  {
  }

  lemma TameOpener(f: string -> string, s: string)
    requires Tame(f)
    ensures AfterOpener("[" + f(s)).Some? <==> AfterOpener("[" + s).Some?
    ensures AfterOpener("[" + s).Some? ==> AfterOpener("[" + f(s)).value == f(AfterOpener("[" + s).value)
  {
    hide Tame, AfterWord, AfterSpaces;
    assert ("[" + s)[1..] == s && ("[" + f(s))[1..] == f(s);
    var r := AfterSpaces(s);
    TameHead(f, s);
    TameWord(f, r, "begin");
    TameWord(f, r, "end");
    if AfterKeyword(r).Some? {
      var k := AfterKeyword(r).value;
      TameHead(f, k);
      TameWord(f, AfterSpaces(k), "untrusted");
      if AfterWord(AfterSpaces(k), "untrusted").Some? {
        TameHead(f, AfterWord(AfterSpaces(k), "untrusted").value);
      }
    }
  }

  lemma TameAddsNoMatch(f: string -> string, s: string)
    requires Tame(f) && Matches("[" + f(s))
    ensures Matches("[" + s)
  {
    TameOpener(f, s);
  }

  // ---------------------------------------------------------------- the two rewrites

  lemma {:induction false} ScrubTame(s: string)
    ensures s != "" ==> Scrub(s) != "" && Scrub(s)[0] == s[0]
    ensures AfterSpaces(Scrub(s)) == Scrub(AfterSpaces(s))
    ensures ']' in Scrub(s) ==> ']' in s
    decreases |s|
  {
    if s == "" {
    } else if Matches(s) {
      ScrubTame(AfterClose(AfterOpener(s).value));
      OpenerWithin(s);
    } else {
      ScrubTame(s[1..]);
      assert Scrub(s)[1..] == Scrub(s[1..]);
    }
  }

  lemma OpenerWithin(s: string)
    requires AfterOpener(s).Some? && ']' in AfterOpener(s).value
    ensures ']' in s
  {
    MatchesIff(s);
    var m: Marker, rest: string :| m.Valid() && s == m.Text(rest);
    assert ']' in "]" + rest;
    assert ']' in m.body + ("]" + rest);
    assert ']' in m.Tail(rest);
    assert ']' in m.gap' + m.Tail(rest);
    assert ']' in m.keyword + (m.gap' + m.Tail(rest));
    assert ']' in m.gap + (m.keyword + (m.gap' + m.Tail(rest)));
  }

  lemma ScrubIsTame()
    ensures Tame(Scrub)
  {
    forall s ensures s != "" ==> Scrub(s) != "" && Scrub(s)[0] == s[0]
             ensures AfterSpaces(Scrub(s)) == Scrub(AfterSpaces(s))
             ensures ']' in Scrub(s) ==> ']' in s
    {
      ScrubTame(s);
    }
  }

  lemma {:induction false} NewlinesSkipped(s: string, n: nat)
    requires n <= |s| && forall i :: 0 <= i < n ==> s[i] == '\n'
    ensures AfterSpaces(s) == AfterSpaces(s[n..])
  {
    if n == 0 {
    } else {
      NewlinesSkipped(s[1..], n - 1);
      assert s[1..][n - 1..] == s[n..];
    }
  }

  lemma {:induction false} CollapseTame(s: string)
    ensures s != "" ==> Collapse(s) != "" && Collapse(s)[0] == s[0]
    ensures AfterSpaces(Collapse(s)) == Collapse(AfterSpaces(s))
    ensures ']' in Collapse(s) ==> ']' in s
    decreases |s|
  {
    if s == "" {
    } else if s[0] != '\n' {
      CollapseTame(s[1..]);
      assert Collapse(s)[1..] == Collapse(s[1..]);
    } else {
      var n := Newlines(s);
      var head := if n >= 3 then "\n\n" else s[..n];
      CollapseTame(s[n..]);
      NewlinesSkipped(s, n);
      NewlinesSkipped(Collapse(s), |head|);
      assert Collapse(s)[|head|..] == Collapse(s[n..]);
    }
  }

  lemma CollapseIsTame()
    ensures Tame(Collapse)
  {
    forall s ensures s != "" ==> Collapse(s) != "" && Collapse(s)[0] == s[0]
             ensures AfterSpaces(Collapse(s)) == Collapse(AfterSpaces(s))
             ensures ']' in Collapse(s) ==> ']' in s
    {
      CollapseTame(s);
    }
  }

  /** The replacement text does not itself begin a marker. */
  lemma ReplacementIsHarmless(rest: string, i: nat)
    requires i < |REPLACEMENT|
    ensures !Matches((REPLACEMENT + rest)[i..])
  {
    var t := (REPLACEMENT + rest)[i..];
    assert t[0] == REPLACEMENT[i];
    if i == 0 {
      assert t[1] == 'r' && AfterSpaces(t[1..]) == t[1..];
      assert AfterWord(t[1..], "begin").None? && AfterWord(t[1..], "end").None?;
    } else {
      assert forall k :: 0 < k < |REPLACEMENT| ==> REPLACEMENT[k] != '[';
    }
  }

  lemma FreeAppend(head: string, rest: string)
    requires MarkerFree(rest) && forall i :: 0 <= i < |head| ==> !Matches((head + rest)[i..])
    ensures MarkerFree(head + rest)
  {
    hide Matches;
    forall i | 0 <= i <= |head + rest| ensures !Matches((head + rest)[i..]) {
      if i >= |head| {
        assert (head + rest)[i..] == rest[i - |head|..];
      }
    }
  }

  lemma HeadAndTail(s: string)
    requires s != ""
    ensures s == [s[0]] + s[1..]
  {
  }

  lemma ScrubKeepsNoMatch(s: string)
    requires s != "" && !Matches(s)
    ensures !Matches([s[0]] + Scrub(s[1..]))
  {
    hide *;
    HeadAndTail(s);
    if Matches([s[0]] + Scrub(s[1..])) {
      MatchHead([s[0]] + Scrub(s[1..]));
      ScrubIsTame();
      TameAddsNoMatch(Scrub, s[1..]);
    }
  }

  lemma {:induction false} ScrubMarkerFree(s: string)
    ensures MarkerFree(Scrub(s))
    decreases |s|
  {
    if s == "" {
    } else if Matches(s) {
      var rest := AfterClose(AfterOpener(s).value);
      ScrubMarkerFree(rest);
      assert Scrub(s) == REPLACEMENT + Scrub(rest);
      forall i | 0 <= i < |REPLACEMENT| ensures !Matches((REPLACEMENT + Scrub(rest))[i..]) {
        ReplacementIsHarmless(Scrub(rest), i);
      }
      FreeAppend(REPLACEMENT, Scrub(rest));
    } else {
      ScrubMarkerFree(s[1..]);
      ScrubKeepsNoMatch(s);
      assert Scrub(s) == [s[0]] + Scrub(s[1..]);
      hide *;
      var t := [s[0]] + Scrub(s[1..]);
      assert t[0..] == t;
      FreeAppend([s[0]], Scrub(s[1..]));
    }
  }

  /** The text is a head that collapses on its own, then the rest. */
  function HeadLength(s: string): (n: nat)
    requires s != ""
    ensures 0 < n <= |s|
  {
    if s[0] == '\n' then Newlines(s) else 1
  }

  function CollapsedHead(s: string): (head: string)
    requires s != ""
    ensures head != "" && (s[0] != '\n' ==> head == [s[0]])
    ensures s[0] == '\n' ==> |head| <= 2 && forall i :: 0 <= i < |head| ==> head[i] == '\n'
  {
    if s[0] != '\n' then [s[0]] else if Newlines(s) >= 3 then "\n\n" else s[..Newlines(s)]
  }

  lemma CollapseUnfolds(s: string)
    requires s != ""
    ensures Collapse(s) == CollapsedHead(s) + Collapse(s[HeadLength(s)..])
    ensures s[0] == '\n' && HeadLength(s) < |s| ==> s[HeadLength(s)] != '\n'
  {
  }

  lemma DropOfConcat(head: string, rest: string, i: nat)
    requires |head| <= i <= |head + rest|
    ensures (head + rest)[i..] == rest[i - |head|..]
    ensures i < |head + rest| ==> (head + rest)[i] == rest[i - |head|]
  {
  }

  lemma DropTwice(s: string, n: nat, k: nat)
    requires n <= |s| && k <= |s| - n
    ensures s[n..][k..] == s[n + k..]
    ensures n + k < |s| ==> s[n..][k] == s[n + k]
  {
  }

  /** In the head, only an unchanged first character is not a newline. */
  lemma HeadOrigin(s: string, collapsed: string, rest: string, i: nat)
    requires s != "" && collapsed == CollapsedHead(s) + rest
    requires i < |CollapsedHead(s)| && collapsed[i] != '\n'
    ensures i == 0 && collapsed[0] == s[0]
  {
    assert collapsed[i] == CollapsedHead(s)[i];
    hide CollapsedHead;
  }

  /** A place after the head is as far after it in the collapsed rest. */
  lemma RestOrigin(s: string, n: nat, k: nat, head: string, rest: string, i: nat)
    requires n <= |s| && k < |s| - n && |head| <= i < |head + rest|
    requires s[n..][k] == rest[i - |head|] && rest[i - |head|..] == Collapse(s[n..][k..])
    ensures s[n + k] == (head + rest)[i] && (head + rest)[i..] == Collapse(s[n + k..])
  {
    DropOfConcat(head, rest, i);
    DropTwice(s, n, k);
    hide *;
  }

  lemma CollapseParts(s: string, i: nat)
    requires i < |Collapse(s)|
    ensures s != "" && 0 < HeadLength(s) <= |s|
    ensures Collapse(s) == CollapsedHead(s) + Collapse(s[HeadLength(s)..])
  {
    assert s != "";
    CollapseUnfolds(s);
  }

  /** Every place in the collapsed text other than a newline comes from a place in the text. */
  lemma {:induction false} CollapseOrigin(s: string, i: nat) returns (j: nat)
    requires i < |Collapse(s)| && Collapse(s)[i] != '\n'
    ensures j < |s| && s[j] == Collapse(s)[i] && Collapse(s)[i..] == Collapse(s[j..])
    decreases |s|
  {
    hide *;
    CollapseParts(s, i);
    var n, head, rest := HeadLength(s), CollapsedHead(s), Collapse(s[HeadLength(s)..]);
    if i < |head| {
      HeadOrigin(s, Collapse(s), rest, i);
      WholeDrop(s);
      WholeDrop(Collapse(s));
      return 0;
    }
    assert (head + rest)[i] == rest[i - |head|];
    var k := CollapseOrigin(s[n..], i - |head|);
    RestOrigin(s, n, k, head, rest, i);
    return n + k;
  }

  lemma WholeDrop(s: string)
    ensures s[0..] == s
  {
  }

  lemma MatchHead(s: string)
    requires Matches(s)
    ensures s != "" && s[0] == '['
  {
  }

  lemma CollapseKeepsBracket(s: string)
    ensures Collapse("[" + s) == "[" + Collapse(s)
  {
    assert ("[" + s)[1..] == s;
  }

  lemma CollapseAddsNoMatch(s: string, i: nat) returns (j: nat)
    requires i <= |Collapse(s)| && Matches(Collapse(s)[i..])
    ensures j <= |s| && Matches(s[j..])
  {
    hide Tame, Matches;
    MatchHead(Collapse(s)[i..]);
    j := CollapseOrigin(s, i);
    var u := s[j + 1..];
    assert s[j..] == "[" + u;
    CollapseKeepsBracket(u);
    CollapseIsTame();
    TameAddsNoMatch(Collapse, u);
  }

  lemma CollapseMarkerFree(s: string)
    requires MarkerFree(s)
    ensures MarkerFree(Collapse(s))
  {
    forall i | 0 <= i <= |Collapse(s)| ensures !Matches(Collapse(s)[i..]) {
      if Matches(Collapse(s)[i..]) {
        var j := CollapseAddsNoMatch(s, i);
      }
    }
  }

  lemma NoTripleAppend(head: string, rest: string)
    requires NoTriple(rest) && head != ""
    requires (|head| == 1 && head[0] != '\n') || (|head| <= 2 && (rest != "" ==> rest[0] != '\n'))
    ensures NoTriple(head + rest)
  {
    forall i ensures !TripleAt(head + rest, i) {
      assert !TripleAt(rest, i - |head|);
    }
  }

  lemma {:induction false} CollapseNoTriple(s: string)
    ensures NoTriple(Collapse(s))
    decreases |s|
  {
    if s == "" {
    } else {
      var rest := s[HeadLength(s)..];
      CollapseNoTriple(rest);
      CollapseTame(rest);
      CollapseUnfolds(s);
      hide *;
      NoTripleAppend(CollapsedHead(s), Collapse(rest));
    }
  }

  // ------------------------------------------------------------ allowed characters

  lemma {:induction false} StripAllowed(s: string)
    ensures AllAllowed(Strip(s))
  {
    if s == "" {
    } else {
      StripAllowed(s[1..]);
    }
  }

  lemma AllowedAfterClose(s: string)
    requires AllAllowed(s) && Matches(s)
    ensures AllAllowed(AfterClose(AfterOpener(s).value))
  {
    MatchesIff(s);
    var m: Marker, rest: string :| m.Valid() && s == m.Text(rest);
    MarkerIsFound(m, rest);
    var k := |s| - |rest|;
    assert s[k..] == rest;
  }

  lemma AllowedAppend(a: string, b: string)
    requires AllAllowed(a) && AllAllowed(b)
    ensures AllAllowed(a + b)
  {
  }

  lemma ReplacementAllowed()
    ensures AllAllowed(REPLACEMENT)
  {
    assert forall i :: 0 <= i < |REPLACEMENT| ==> ' ' <= REPLACEMENT[i] <= ']' || 'a' <= REPLACEMENT[i] <= 'z';
  }

  lemma {:induction false} ScrubAllowed(s: string)
    requires AllAllowed(s)
    ensures AllAllowed(Scrub(s))
    decreases |s|
  {
    if s == "" {
    } else if Matches(s) {
      var rest := AfterClose(AfterOpener(s).value);
      AllowedAfterClose(s);
      ScrubAllowed(rest);
      ReplacementAllowed();
      assert Scrub(s) == REPLACEMENT + Scrub(rest);
      hide *;
      AllowedAppend(REPLACEMENT, Scrub(rest));
    } else {
      ScrubAllowed(s[1..]);
      AllowedAppend([s[0]], Scrub(s[1..]));
    }
  }

  lemma {:induction false} CollapseAllowed(s: string)
    requires AllAllowed(s)
    ensures AllAllowed(Collapse(s))
    decreases |s|
  {
    if s == "" {
    } else {
      CollapseAllowed(if s[0] != '\n' then s[1..] else s[Newlines(s)..]);
    }
  }

  // ------------------------------------------------------------------ fixed points

  lemma {:induction false} StripFixed(s: string)
    requires AllAllowed(s)
    ensures Strip(s) == s
  {
    if s == "" {
    } else {
      StripFixed(s[1..]);
    }
  }

  lemma {:induction false} ScrubFixed(s: string)
    requires MarkerFree(s)
    ensures Scrub(s) == s
  {
    if s == "" {
    } else {
      assert s[0..] == s;
      forall i | 0 <= i <= |s[1..]| ensures !Matches(s[1..][i..]) {
        assert s[1..][i..] == s[i + 1..];
      }
      ScrubFixed(s[1..]);
    }
  }

  lemma HeadFixed(s: string)
    requires NoTriple(s) && s != ""
    ensures CollapsedHead(s) == s[..HeadLength(s)]
  {
    if s[0] == '\n' {
      assert !TripleAt(s, 0);
    }
  }

  lemma NoTripleSuffix(s: string, n: nat)
    requires NoTriple(s) && n <= |s|
    ensures NoTriple(s[n..])
  {
    forall i ensures !TripleAt(s[n..], i) {
      assert !TripleAt(s, n + i);
    }
  }

  lemma TakeThenDrop(s: string, n: nat)
    requires n <= |s|
    ensures s[..n] + s[n..] == s
  {
  }

  lemma CollapseFixedStep(s: string)
    requires NoTriple(s) && s != ""
    requires Collapse(s[HeadLength(s)..]) == s[HeadLength(s)..]
    ensures Collapse(s) == s
  {
    HeadFixed(s);
    CollapseUnfolds(s);
    TakeThenDrop(s, HeadLength(s));
    hide *;
  }

  lemma {:induction false} CollapseFixed(s: string)
    requires NoTriple(s)
    ensures Collapse(s) == s
    decreases |s|
  {
    if s == "" {
    } else {
      NoTripleSuffix(s, HeadLength(s));
      CollapseFixed(s[HeadLength(s)..]);
      CollapseFixedStep(s);
      hide *;
    }
  }

  lemma CleanIsClean(s: string)
    ensures MarkerFree(Clean(s)) && NoTriple(Clean(s)) && AllAllowed(Clean(s))
  {
    StripAllowed(s);
    ScrubAllowed(Strip(s));
    CollapseAllowed(Scrub(Strip(s)));
    ScrubMarkerFree(Strip(s));
    CollapseMarkerFree(Scrub(Strip(s)));
    CollapseNoTriple(Scrub(Strip(s)));
  }

  /**
   Text that is not truncated comes out with no forged marker, no run of three newlines and
   no dropped character class, and sanitizing it again changes nothing.
   */
  lemma UntruncatedIsSafe(s: string)
    requires |Clean(s)| <= MAX_UNTRUSTED_RUNES
    ensures var out := Sanitized(s);
            MarkerFree(out) && NoTriple(out) && AllAllowed(out) && Sanitized(out) == out
  {
    CleanIsClean(s);
    StripFixed(Clean(s));
    ScrubFixed(Clean(s));
    CollapseFixed(Clean(s));
  }

  // ------------------------------------------------------------------- truncation

  /** The expression's opening part occurs, whether or not a bracket closes it. */
  ghost predicate HasOpener(s: string) {
    exists i :: 0 <= i < |s| && AfterOpener(s[i..]).Some?
  }

  predicate EndsInBlankLine(s: string) {
    |s| >= 2 && s[|s| - 1] == '\n' && s[|s| - 2] == '\n'
  }

  /** A newline and a bracket, as the truncation notice begins. */
  predicate IsNotice(notice: string) {
    |notice| > 2 && notice[0] == '\n' && notice[1] == '[' && notice[2] == '.'
  }

  lemma NothingToSkip(s: string)
    requires s != "" && !Space(s[0])
    ensures AfterSpaces(s) == s
  {
  }

  lemma {:induction false} SpacesBeforeNotice(s: string, notice: string)
    requires IsNotice(notice)
    ensures AfterSpaces(s + notice) == if AfterSpaces(s) == "" then notice[1..] else AfterSpaces(s) + notice
  {
    if s == "" {
      assert s + notice == notice;
      assert notice[1..][0] == '[';
      NothingToSkip(notice[1..]);
    } else if Space(s[0]) {
      SpacesBeforeNotice(s[1..], notice);
      assert (s + notice)[1..] == s[1..] + notice;
    }
  }

  lemma {:induction false} WordBeforeNotice(s: string, w: string, notice: string)
    requires Letters(w) && IsNotice(notice)
    ensures AfterWord(s + notice, w) == match AfterWord(s, w) case None => None case Some(r) => Some(r + notice)
  {
    if w == "" {
    } else {
      if s == "" {
        assert (s + notice)[0] == '\n';
      } else {
        WordBeforeNotice(s[1..], w[1..], notice);
        assert (s + notice)[1..] == s[1..] + notice;
      }
    }
  }

  lemma NoticeStartsNoWord(w: string, notice: string)
    requires Letters(w) && w != "" && IsNotice(notice)
    ensures AfterWord(notice[1..], w).None?
  {
    assert notice[1..][0] == '[';
  }

  /** Appending the notice neither completes an opener nor spoils one. */
  lemma OpenerBeforeNotice(s: string, notice: string)
    requires s != "" && IsNotice(notice)
    ensures AfterOpener(s + notice) == match AfterOpener(s) case None => None case Some(r) => Some(r + notice)
  {
    hide AfterWord, AfterSpaces;
    assert (s + notice)[1..] == s[1..] + notice;
    var r := AfterSpaces(s[1..]);
    SpacesBeforeNotice(s[1..], notice);
    NoticeStartsNoWord("begin", notice);
    NoticeStartsNoWord("end", notice);
    NoticeStartsNoWord("untrusted", notice);
    WordBeforeNotice(r, "begin", notice);
    WordBeforeNotice(r, "end", notice);
    if s[0] == '[' && r != "" && AfterKeyword(r).Some? {
      var k := AfterKeyword(r).value;
      assert AfterKeyword(r + notice) == Some(k + notice);
      SpacesBeforeNotice(k, notice);
      WordBeforeNotice(AfterSpaces(k), "untrusted", notice);
      assert (k + notice)[0] == if k == "" then '\n' else k[0];
    }
  }

  lemma NoticeShape()
    ensures IsNotice(NOTICE)
  {
  }

  lemma NoticeHasOneBracket(k: nat)
    requires k < |NOTICE|
    ensures NOTICE[k] == '[' <==> k == 1
    ensures NOTICE[k] == '\n' <==> k == 0
    ensures Allowed(NOTICE[k])
  {
    assert ' ' <= NOTICE[k] <= '~' || k == 0;
  }

  lemma DotOpensNothing(notice: string)
    requires IsNotice(notice)
    ensures AfterOpener(notice[1..]).None?
  {
    var t := notice[1..];
    assert t[1..][0] == '.' && AfterSpaces(t[1..]) == t[1..];
    assert AfterWord(t[1..], "begin").None? && AfterWord(t[1..], "end").None?;
  }

  lemma NoticeIsHarmless(i: nat)
    requires i <= |NOTICE|
    ensures !Matches(NOTICE[i..])
  {
    if i == 1 {
      NoticeShape();
      DotOpensNothing(NOTICE);
    } else if i < |NOTICE| {
      NoticeHasOneBracket(i);
    }
  }

  /**
   Truncated text holds a forged marker exactly when the cut leaves an opener, which the
   notice's own bracket then closes, and a run of three newlines exactly when the cut
   leaves a blank line before the notice's newline.
   */
  lemma TruncatedIsSafeIff(s: string)
    requires |Clean(s)| > MAX_UNTRUSTED_RUNES
    ensures var cut := Clean(s)[..MAX_UNTRUSTED_RUNES];
            && (MarkerFree(Sanitized(s)) <==> !HasOpener(cut))
            && (NoTriple(Sanitized(s)) <==> !EndsInBlankLine(cut))
            && AllAllowed(Sanitized(s))
  {
    CleanIsClean(s);
    var cut := Clean(s)[..MAX_UNTRUSTED_RUNES];
    NoticeAfterCut(cut);
    NewlineAfterCut(cut, Clean(s));
    AllowedAfterCut(cut);
    hide *;
    assert Sanitized(s) == cut + NOTICE by { TruncatedForm(s); }
  }

  predicate Ordinary(s: string) {
    ']' !in s && forall i :: 0 <= i < |s| ==> s[i] == '\n' || ' ' <= s[i] <= '~'
  }

  function Padding(n: nat): (s: string)
    ensures |s| == n && Ordinary(s) && '\n' !in s
  {
    seq(n, i => 'a')
  }

  lemma CutInside(pad: string, kept: string, lost: string)
    ensures (pad + (kept + lost))[..|pad| + |kept|] == pad + kept
  {
  }

  /** Padding hides nothing of what follows it. */
  lemma PaddedIsOrdinary(pad: string, tail: string)
    requires Ordinary(pad) && '\n' !in pad && Ordinary(tail) && NoTriple(tail)
    ensures Ordinary(pad + tail) && NoTriple(pad + tail)
  {
    forall i ensures !TripleAt(pad + tail, i) {
      assert !TripleAt(tail, i - |pad|);
    }
  }

  lemma PaddedHasOpener(pad: string, kept: string)
    requires kept != "" && AfterOpener(kept).Some?
    ensures HasOpener(pad + kept)
  {
    assert (pad + kept)[|pad|..] == kept;
  }

  lemma PaddedEnding(pad: string, kept: string)
    requires EndsInBlankLine(kept)
    ensures EndsInBlankLine(pad + kept)
  {
  }

  /** Ordinary text, padded so that it is cut after kept. */
  lemma CutAfter(kept: string, lost: string) returns (s: string, pad: string)
    requires Ordinary(kept + lost) && NoTriple(kept + lost) && |kept| <= MAX_UNTRUSTED_RUNES && lost != ""
    ensures Clean(s) == s && MarkerFree(s) && NoTriple(s)
    ensures |s| > MAX_UNTRUSTED_RUNES && s[..MAX_UNTRUSTED_RUNES] == pad + kept
  {
    hide *;
    pad := Padding(MAX_UNTRUSTED_RUNES - |kept|);
    s := pad + (kept + lost);
    PaddedIsOrdinary(pad, kept + lost);
    OrdinaryIsClean(s);
    CutInside(pad, kept, lost);
  }

  function Opener(): string { "[" + ("begin" + (" " + "untrusted")) }

  lemma OneLineHasNoTriple(s: string)
    requires '\n' !in s
    ensures NoTriple(s)
  {
    forall i ensures !TripleAt(s, i) {
      assert 0 <= i < |s| ==> s[i] in s;
    }
  }

  lemma OrdinaryAppend(a: string, b: string)
    requires Ordinary(a) && Ordinary(b) && '\n' !in a && '\n' !in b
    ensures Ordinary(a + b) && '\n' !in a + b
  {
  }

  lemma OpenerIsOrdinary()
    ensures Ordinary(Opener() + " x") && NoTriple(Opener() + " x") && Opener() != ""
            && |Opener()| <= MAX_UNTRUSTED_RUNES
  {
    OrdinaryAppend(" ", "untrusted");
    OrdinaryAppend("begin", " " + "untrusted");
    OrdinaryAppend("[", "begin" + (" " + "untrusted"));
    OrdinaryAppend(Opener(), " x");
    OneLineHasNoTriple(Opener() + " x");
    hide NoTriple;
  }

  lemma OpenerOpens()
    ensures AfterOpener(Opener()).Some?
  {
    OpenerIs("begin", "untrusted");
    hide AfterOpener;
  }

  lemma OpenerIs(keyword: string, word: string)
    requires FoldsTo(keyword, "begin") && FoldsTo(word, "untrusted")
    ensures AfterOpener("[" + (keyword + (" " + word))).Some?
  {
    hide AfterWord, AfterSpaces;
    var t1, t2 := keyword + (" " + word), " " + word;
    assert ("[" + t1)[1..] == t1 && word + "" == word;
    NothingToSkip(t1);
    WordTaken(keyword, "begin", t2);
    SpacesSkipped(" ", word);
    WordTaken(word, "untrusted", "");
  }

  /** Text that ends after an opener's last word: it holds no marker of its own, but what is made of it does. */
  lemma TruncationForges() returns (s: string)
    ensures Clean(s) == s && MarkerFree(s)
    ensures !MarkerFree(Sanitized(s))
  {
    hide *;
    OpenerIsOrdinary();
    OpenerOpens();
    var text, pad := CutAfter(Opener(), " x");
    s := text;
    PaddedHasOpener(pad, Opener());
    TruncatedIsSafeIff(s);
  }

  /** Text whose blank line meets the notice's newline at the cut. */
  lemma TruncationLeavesTriple() returns (s: string)
    ensures Clean(s) == s && NoTriple(s)
    ensures !NoTriple(Sanitized(s))
  {
    var kept, lost := "\n\n", "x";
    assert Ordinary(kept + lost) && NoTriple(kept + lost) && EndsInBlankLine(kept);
    hide *;
    var text, pad := CutAfter(kept, lost);
    s := text;
    PaddedEnding(pad, kept);
    TruncatedIsSafeIff(s);
  }

  /** What is printable, without a closing bracket and without three newlines in a row, stays as it is. */
  lemma OrdinaryIsClean(s: string)
    requires Ordinary(s) && NoTriple(s)
    ensures Clean(s) == s && MarkerFree(s)
  {
    forall i | 0 <= i <= |s| ensures !Matches(s[i..]) {
      if Matches(s[i..]) {
        OpenerWithin(s[i..]);
      }
    }
    StripFixed(s);
    ScrubFixed(s);
    CollapseFixed(s);
  }

  lemma TruncatedForm(s: string)
    requires |Clean(s)| > MAX_UNTRUSTED_RUNES
    ensures Sanitized(s) == Clean(s)[..MAX_UNTRUSTED_RUNES] + NOTICE
  {
  }

  lemma AllowedAfterCut(cut: string)
    requires AllAllowed(cut)
    ensures AllAllowed(cut + NOTICE)
  {
    forall i | |cut| <= i < |cut + NOTICE| ensures Allowed((cut + NOTICE)[i]) {
      NoticeHasOneBracket(i - |cut|);
    }
  }

  lemma MatchBeforeNotice(t: string)
    requires t != ""
    ensures Matches(t + NOTICE) <==> AfterOpener(t).Some?
  {
    NoticeShape();
    OpenerBeforeNotice(t, NOTICE);
    if AfterOpener(t).Some? {
      var r := AfterOpener(t).value;
      NoticeCloses(r);
    }
    hide AfterOpener;
  }

  lemma NoticeCloses(r: string)
    ensures ']' in r + NOTICE
  {
    assert (r + NOTICE)[|r| + |NOTICE| - 1] == ']';
  }

  lemma MatchAfterCut(cut: string, i: nat)
    requires i <= |cut + NOTICE|
    ensures Matches((cut + NOTICE)[i..]) <==> i < |cut| && AfterOpener(cut[i..]).Some?
  {
    var out := cut + NOTICE;
    if i < |cut| {
      assert out[i..] == cut[i..] + NOTICE;
      MatchBeforeNotice(cut[i..]);
    } else {
      DropOfConcat(cut, NOTICE, i);
      NoticeIsHarmless(i - |cut|);
    }
    hide *;
  }

  lemma NoticeAfterCut(cut: string)
    ensures MarkerFree(cut + NOTICE) <==> !HasOpener(cut)
  {
    hide Matches;
    forall i | 0 <= i <= |cut + NOTICE|
      ensures Matches((cut + NOTICE)[i..]) <==> i < |cut| && AfterOpener(cut[i..]).Some?
    {
      MatchAfterCut(cut, i);
    }
  }

  lemma NewlineAfterCut(cut: string, whole: string)
    requires NoTriple(whole) && cut <= whole
    ensures NoTriple(cut + NOTICE) <==> !EndsInBlankLine(cut)
  {
    var out := cut + NOTICE;
    if EndsInBlankLine(cut) {
      assert TripleAt(out, |cut| - 2);
    } else {
      forall i ensures !TripleAt(out, i) {
        assert !TripleAt(whole, i);
        forall k: nat | k < |NOTICE| ensures NOTICE[k] == '\n' <==> k == 0 {
          NoticeHasOneBracket(k);
        }
      }
    }
  }
}
