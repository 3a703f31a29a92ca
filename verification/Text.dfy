/** White space as the source's standard library sees it. */
module Text {

  predicate IsSpace(c: char) {
    var u := c as int;
    || 0x09 <= u <= 0x0D || u == 0x20 || u == 0x85 || u == 0xA0 || u == 0x1680
    || 0x2000 <= u <= 0x200A || u == 0x2028 || u == 0x2029 || u == 0x202F || u == 0x205F || u == 0x3000
  }

  predicate Blank(s: string) {
    forall i :: 0 <= i < |s| ==> IsSpace(s[i])
  }

  function TrimLeft(s: string): string {
    if s != "" && IsSpace(s[0]) then TrimLeft(s[1..]) else s
  }

  function TrimRight(s: string): string {
    if s != "" && IsSpace(s[|s| - 1]) then TrimRight(s[..|s| - 1]) else s
  }

  function TrimSpace(s: string): string {
    TrimRight(TrimLeft(s))
  }

  /** Trimming leaves nothing exactly when there was nothing but white space. */
  lemma {:induction false} TrimSpaceEmpty(s: string)
    ensures TrimSpace(s) == "" <==> Blank(s)
  {
    if s != "" && IsSpace(s[0]) {
      TrimSpaceEmpty(s[1..]);
    } else if s != "" {
      TrimRightKeepsHead(s);
    }
  }

  lemma {:induction false} TrimRightKeepsHead(s: string)
    requires s != "" && !IsSpace(s[0])
    ensures TrimRight(s) != "" && TrimRight(s)[0] == s[0]
  {
    if !IsSpace(s[|s| - 1]) {
    } else {
      TrimRightKeepsHead(s[..|s| - 1]);
    }
  }

  /** From position i on the text holds the body, with nothing but white space around it. */
  ghost predicate HoldsAt(s: string, i: nat, body: string) {
    && i + |body| <= |s| && s[i..i + |body|] == body && Blank(s[..i]) && Blank(s[i + |body|..])
    && body != "" && !IsSpace(body[0]) && !IsSpace(body[|body| - 1])
  }

  lemma {:induction false} TrimLeftIs(s: string, i: nat)
    requires i < |s| && Blank(s[..i]) && !IsSpace(s[i])
    ensures TrimLeft(s) == s[i..]
  {
    if i == 0 {
    } else {
      assert s[..i][0] == s[0] && s[..i][1..] == s[1..][..i - 1] && s[1..][i - 1..] == s[i..];
      TrimLeftIs(s[1..], i - 1);
    }
  }

  lemma {:induction false} TrimRightIs(s: string, n: nat)
    requires 0 < n <= |s| && Blank(s[n..]) && !IsSpace(s[n - 1])
    ensures TrimRight(s) == s[..n]
  {
    if n == |s| {
    } else {
      var k := |s| - 1;
      assert s[n..][k - n] == s[k] && s[n..][..k - n] == s[..k][n..] && s[..k][..n] == s[..n];
      TrimRightIs(s[..k], n);
    }
  }

  /** Trimming takes away exactly the white space at both ends. */
  lemma TrimSpaceIs(s: string, i: nat, body: string)
    requires HoldsAt(s, i, body)
    ensures TrimSpace(s) == body
  {
    hide IsSpace;
    var n := |body|;
    var t := s[i..];
    assert t[..n] == s[i..i + n] && t[n..] == s[i + n..];
    assert s[i] == body[0] && t[n - 1] == body[n - 1];
    TrimLeftIs(s, i);
    TrimRightIs(t, n);
  }
}
