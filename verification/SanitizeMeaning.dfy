/** What sanitizing does to text, said without the functions that do it (internal/domain/guard/guard.go). */
module SanitizeMeaning {
  import opened Prelude
  import opened Sanitize
  import opened SanitizeProofs

  // ------------------------------------------------------- which characters matter

  /** Printable ASCII stays; NUL, escape, DEL, zero-width, bidi and byte-order marks go. */
  lemma CharactersKept(c: char)
    ensures ' ' <= c <= '~' || c == '\n' || c == '\t' ==> Allowed(c)
    ensures c as int < 0x20 && c != '\n' && c != '\t' ==> !Allowed(c)
    ensures 0x7F <= c as int <= 0x9F || 0x200B <= c as int <= 0x200F || 0x202A <= c as int <= 0x202E ==> !Allowed(c)
    ensures 0x2066 <= c as int <= 0x2069 || c as int in {0xAD, 0x2060, 0xFEFF} ==> !Allowed(c)
    ensures 0xA1 <= c as int <= 0xAC || 0xC0 <= c as int <= 0x2FF || 0x3040 <= c as int <= 0xD7FF ==> Allowed(c)
  {
  }

  // ------------------------------------------------------------------ fence markers

  /** A text that begins with s. */
  predicate Begins(text: string, s: string) { |s| <= |text| && text[..|s|] == s }

  ghost predicate NoMatchIn(pre: string, rest: string) {
    forall i :: 0 <= i < |pre| ==> !Matches((pre + rest)[i..])
  }

  lemma NoMatchInRest(pre: string, rest: string)
    requires pre != "" && NoMatchIn(pre, rest)
    ensures NoMatchIn(pre[1..], rest) && !Matches(pre + rest) && pre + rest == [pre[0]] + (pre[1..] + rest)
  {
    hide Matches;
    var s := pre + rest;
    assert s[0..] == s && s[1..] == pre[1..] + rest;
    forall i | 0 <= i < |pre[1..]| ensures !Matches((pre[1..] + rest)[i..]) {
      assert s[1..][i..] == s[i + 1..];
    }
  }

  lemma ScrubPasses(c: char, rest: string)
    requires !Matches([c] + rest)
    ensures Scrub([c] + rest) == [c] + Scrub(rest)
  {
    hide Matches;
    assert ([c] + rest)[1..] == rest;
  }

  lemma Regroup(c: char, pre: string, rest: string)
    requires pre != "" && c == pre[0]
    ensures [c] + (pre[1..] + rest) == pre + rest
  {
  }

  /** Text in which no marker begins is left alone. */
  lemma {:induction false} ScrubLeaves(pre: string, rest: string)
    requires NoMatchIn(pre, rest)
    ensures Scrub(pre + rest) == pre + Scrub(rest)
  {
    if pre == "" {
      assert pre + rest == rest && pre + Scrub(rest) == Scrub(rest);
    } else {
      NoMatchInRest(pre, rest);
      ScrubLeaves(pre[1..], rest);
      ScrubPasses(pre[0], pre[1..] + rest);
      Regroup(pre[0], pre, Scrub(rest));
      hide *;
    }
  }

  lemma ScrubReplaces(m: Marker, rest: string)
    requires m.Valid()
    ensures Scrub(m.Text(rest)) == "[redacted-fence-marker]" + Scrub(rest)
  {
    MarkerIsFound(m, rest);
    assert m.Text(rest) != "";
    hide Matches, AfterClose, AfterOpener, Marker.Text, Marker.Valid;
  }

  /** The first marker of a text becomes the replacement, what precedes it stays, and what follows it is scrubbed. */
  lemma FirstMarkerReplaced(pre: string, m: Marker, rest: string)
    requires m.Valid() && NoMatchIn(pre, m.Text(rest))
    ensures Scrub(pre + m.Text(rest)) == pre + ("[redacted-fence-marker]" + Scrub(rest))
  {
    ScrubLeaves(pre, m.Text(rest));
    ScrubReplaces(m, rest);
    hide *;
  }


  lemma UpperFolds(s: string, w: string)
    requires |s| == |w| && forall i :: 0 <= i < |s| ==> 'A' <= s[i] <= 'Z' && s[i] as int + 32 == w[i] as int
    ensures FoldsTo(s, w)
  {
  }

  lemma WordsOfFence()
    ensures FoldsTo("BEGIN", "begin") && FoldsTo("END", "end") && FoldsTo("UNTRUSTED", "untrusted")
  {
    UpperFolds("BEGIN", "begin");
    UpperFolds("END", "end");
    UpperFolds("UNTRUSTED", "untrusted");
  }

  lemma FenceMarker(keyword: string, title: string)
    requires keyword in {"BEGIN", "END"} && ']' !in title
    ensures Marker("", keyword, " ", "UNTRUSTED", " " + title).Valid()
  {
    WordsOfFence();
    hide FoldsTo;
  }

  lemma FenceText(keyword: string, title: string, rest: string)
    ensures Marker("", keyword, " ", "UNTRUSTED", " " + title).Text(rest) ==
            "[" + keyword + " UNTRUSTED " + title + "]" + rest
  {
    var m := Marker("", keyword, " ", "UNTRUSTED", " " + title);
    assert m.Tail(rest) == "UNTRUSTED" + (" " + title + "]" + rest);
    assert m.gap' + m.Tail(rest) == " UNTRUSTED " + title + "]" + rest;
    assert m.keyword + (m.gap' + m.Tail(rest)) == keyword + " UNTRUSTED " + title + "]" + rest;
  }

  /** A fence line, as the prompts carry it, is a marker whatever its title. */
  lemma FenceIsMarker(keyword: string, title: string, rest: string)
    requires keyword in {"BEGIN", "END"} && ']' !in title
    ensures Matches("[" + keyword + " UNTRUSTED " + title + "]" + rest)
    ensures Scrub("[" + keyword + " UNTRUSTED " + title + "]" + rest) == "[redacted-fence-marker]" + Scrub(rest)
  {
    var m := Marker("", keyword, " ", "UNTRUSTED", " " + title);
    FenceMarker(keyword, title);
    FenceText(keyword, title, rest);
    MarkerIsFound(m, rest);
    ScrubReplaces(m, rest);
    hide *;
  }

  /** A longer word than "untrusted" makes no marker. */
  lemma LongerWordIsNoMarker(keyword: string, c: char, rest: string)
    requires keyword in {"BEGIN", "END"} && ('a' <= c <= 'z' || 'A' <= c <= 'Z' || '0' <= c <= '9' || c == '_')
    ensures !Matches("[" + (keyword + (" " + ("UNTRUSTED" + ([c] + rest)))))
  {
    var t3 := "UNTRUSTED" + ([c] + rest);
    var t2 := " " + t3;
    var t1 := keyword + t2;
    assert ("[" + t1)[1..] == t1;
    WordsOfFence();
    NothingToSkip(t1);
    if keyword == "BEGIN" {
      WordTaken(keyword, "begin", t2);
    } else {
      WordTaken(keyword, "end", t2);
      assert t1[0] == 'E';
      assert AfterWord(t1, "begin").None?;
    }
    SpacesSkipped(" ", t3);
    WordTaken("UNTRUSTED", "untrusted", [c] + rest);
    hide AfterWord, AfterSpaces, FoldsTo;
  }

  /** Somewhere in the text stands a fence line with this title. */
  ghost predicate HoldsFence(text: string, title: string) {
    exists i: nat :: i <= |text| && (FenceAt(text[i..], "BEGIN", title) || FenceAt(text[i..], "END", title))
  }

  predicate FenceAt(text: string, keyword: string, title: string) {
    Begins(text, "[" + keyword + " UNTRUSTED " + title + "]")
  }

  lemma FenceMatches(text: string, keyword: string, title: string)
    requires keyword in {"BEGIN", "END"} && ']' !in title && FenceAt(text, keyword, title)
    ensures Matches(text)
  {
    var fence := "[" + keyword + " UNTRUSTED " + title + "]";
    FenceIsMarker(keyword, title, text[|fence|..]);
    assert text == fence + text[|fence|..];
    hide Matches, Scrub;
  }

  /** Untrusted text that is not truncated holds no fence line, whatever its title. */
  lemma NoFenceSurvives(s: string, title: string)
    requires |Clean(s)| <= 24_000 && ']' !in title
    ensures !HoldsFence(Sanitized(s), title)
  {
    hide Matches, Clean, Scrub;
    UntruncatedIsSafe(s);
    var out := Sanitized(s);
    forall i: nat, keyword | i <= |out| && keyword in {"BEGIN", "END"} ensures !FenceAt(out[i..], keyword, title) {
      if FenceAt(out[i..], keyword, title) {
        FenceMatches(out[i..], keyword, title);
      }
    }
  }

  // ------------------------------------------------------------------- blank lines

  lemma {:induction false} NewlinesStop(a: string, t: string)
    requires a != "" && a[|a| - 1] != '\n'
    ensures Newlines(a + t) == Newlines(a) < |a|
  {
    if a[0] == '\n' {
      assert (a + t)[1..] == a[1..] + t;
      NewlinesStop(a[1..], t);
    }
  }

  lemma DropInside(a: string, t: string, n: nat)
    requires n <= |a|
    ensures (a + t)[n..] == a[n..] + t && (a + t)[..n] == a[..n]
  {
  }

  lemma HeadInside(a: string, t: string)
    requires a != "" && a[|a| - 1] != '\n'
    ensures HeadLength(a + t) == HeadLength(a) && CollapsedHead(a + t) == CollapsedHead(a)
  {
    NewlinesStop(a, t);
    DropInside(a, t, Newlines(a));
  }

  lemma SameLast(a: string, n: nat)
    requires n < |a|
    ensures a[n..] != "" && a[n..][|a[n..]| - 1] == a[|a| - 1]
  {
  }

  lemma Associative(a: string, b: string, c: string)
    ensures a + (b + c) == (a + b) + c
  {
  }

  lemma HeadSplits(a: string, t: string)
    requires a != "" && a[|a| - 1] != '\n'
    requires Collapse(a[HeadLength(a)..] + t) == Collapse(a[HeadLength(a)..]) + Collapse(t)
    ensures Collapse(a + t) == Collapse(a) + Collapse(t)
  {
    hide *;
    var n := HeadLength(a);
    HeadInside(a, t);
    DropInside(a, t, n);
    CollapseUnfolds(a);
    CollapseUnfolds(a + t);
    Associative(CollapsedHead(a), Collapse(a[n..]), Collapse(t));
  }

  lemma NothingCollapses(t: string)
    ensures "" + t == t && Collapse("") + Collapse(t) == Collapse(t)
  {
  }

  /** Text that does not end in a newline collapses on its own. */
  lemma {:induction false} CollapseSplits(a: string, t: string)
    requires a != "" ==> a[|a| - 1] != '\n'
    ensures Collapse(a + t) == Collapse(a) + Collapse(t)
    decreases |a|
  {
    hide *;
    if a == "" {
      NothingCollapses(t);
    } else {
      var n := HeadLength(a);
      if n < |a| {
        SameLast(a, n);
      }
      CollapseSplits(a[n..], t);
      HeadSplits(a, t);
    }
  }

  lemma {:induction false} NewlinesOfRun(run: string, b: string)
    requires (forall i :: 0 <= i < |run| ==> run[i] == '\n') && (b != "" ==> b[0] != '\n')
    ensures Newlines(run + b) == |run|
  {
    if run == "" {
      assert run + b == b;
    } else {
      assert (run + b)[1..] == run[1..] + b;
      NewlinesOfRun(run[1..], b);
    }
  }

  lemma RunCollapses(run: string, b: string)
    requires run != "" && (forall i :: 0 <= i < |run| ==> run[i] == '\n') && (b != "" ==> b[0] != '\n')
    ensures Collapse(run + b) == (if |run| >= 3 then "\n\n" else run) + Collapse(b)
  {
    NewlinesOfRun(run, b);
    assert (run + b)[0] == '\n' && (run + b)[..|run|] == run && (run + b)[|run|..] == b;
  }

  /** A run of three or more newlines becomes exactly two, a shorter one stays, and the text around it is unaffected. */
  lemma RunBecomesTwo(a: string, run: string, b: string)
    requires (a != "" ==> a[|a| - 1] != '\n') && (b != "" ==> b[0] != '\n')
    requires run != "" && forall i :: 0 <= i < |run| ==> run[i] == '\n'
    ensures Collapse(a + (run + b)) == Collapse(a) + ((if |run| >= 3 then "\n\n" else run) + Collapse(b))
  {
    CollapseSplits(a, run + b);
    RunCollapses(run, b);
    hide *;
  }

  lemma {:induction false} NoNewlineStays(s: string)
    requires '\n' !in s
    ensures Collapse(s) == s
  {
    if s == "" {
    } else {
      NoNewlineStays(s[1..]);
    }
  }
}
