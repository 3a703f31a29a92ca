/** Sums over sequences, and why their order does not matter. */
module Sums {
  function Sum<T>(s: seq<T>, f: T -> int): int {
    if s == [] then 0 else Sum(s[..|s| - 1], f) + f(s[|s| - 1])
  }

  lemma SumNext<T>(s: seq<T>, x: T, f: T -> int)
    ensures Sum(s + [x], f) == Sum(s, f) + f(x)
  {
    assert (s + [x])[..|s|] == s;
  }

  lemma {:induction false} SumOfConcat<T>(a: seq<T>, b: seq<T>, f: T -> int)
    ensures Sum(a + b, f) == Sum(a, f) + Sum(b, f)
  {
    if b == [] {
      assert a + b == a;
    } else {
      SumOfConcat(a, b[..|b| - 1], f);
      assert (a + b)[..|a + b| - 1] == a + b[..|b| - 1];
    }
  }

  lemma TakeOut<T>(b: seq<T>, i: nat, f: T -> int)
    requires i < |b|
    ensures var rest := b[..i] + b[i + 1..];
            multiset(rest) == multiset(b) - multiset{b[i]} && Sum(b, f) == Sum(rest, f) + f(b[i])
  {
    assert b == b[..i] + [b[i]] + b[i + 1..];
    SumOfConcat(b[..i] + [b[i]], b[i + 1..], f);
    SumNext(b[..i], b[i], f);
    SumOfConcat(b[..i], b[i + 1..], f);
    hide Sum;
  }

  lemma {:induction false} SumPermutes<T>(a: seq<T>, b: seq<T>, f: T -> int)
    requires multiset(a) == multiset(b)
    ensures Sum(a, f) == Sum(b, f)
    decreases |a|
  {
    if a == [] {
      assert |b| == |multiset(b)| == 0;
    } else {
      assert a[0] in multiset(b);
      var i :| 0 <= i < |b| && b[i] == a[0];
      TakeOut(a, 0, f);
      TakeOut(b, i, f);
      SumPermutes(a[..0] + a[1..], b[..i] + b[i + 1..], f);
      hide Sum;
    }
  }

  lemma {:induction false} SumAgrees<T>(s: seq<T>, f: T -> int, g: T -> int)
    requires forall x :: x in s ==> f(x) == g(x)
    ensures Sum(s, f) == Sum(s, g)
  {
    if s == [] {
    } else {
      SumAgrees(s[..|s| - 1], f, g);
    }
  }

  /** Raising f at one place raises the sum over distinct elements by as much, when the place is among them. */
  lemma {:induction false} SumBump<T>(s: seq<T>, f: T -> int, g: T -> int, at: T, amount: int)
    requires forall i, j :: 0 <= i < j < |s| ==> s[i] != s[j]
    requires forall x :: x in s ==> g(x) == f(x) + if x == at then amount else 0
    ensures Sum(s, g) == Sum(s, f) + if at in s then amount else 0
  {
    if s == [] {
    } else {
      var init, last := s[..|s| - 1], s[|s| - 1];
      assert s == init + [last];
      if last == at {
        SumAgrees(init, f, g);
      } else {
        SumBump(init, f, g, at, amount);
      }
    }
  }
}
