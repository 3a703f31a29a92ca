/** Stable sorting by a real key, as the standard library's stable sort promises it. */
module Sorting {
  ghost predicate Ascending<T>(key: T -> real, s: seq<T>) {
    forall i, j :: 0 <= i < j < |s| ==> key(s[i]) <= key(s[j])
  }

  /** The elements with this key, in their order. */
  function WithKey<T>(key: T -> real, s: seq<T>, v: real): seq<T> {
    if s == [] then []
    else WithKey(key, s[..|s| - 1], v)
         + if key(s[|s| - 1]) == v then [s[|s| - 1]] else []
  }

  /** A stable sort: the same elements, least key first, ties in their old order. */
  ghost predicate StablySorted<T>(key: T -> real, s: seq<T>, sorted: seq<T>) {
    && Ascending(key, sorted)
    && multiset(sorted) == multiset(s)
    && forall v :: WithKey(key, sorted, v) == WithKey(key, s, v)
  }

  function Insert<T>(key: T -> real, sorted: seq<T>, e: T): seq<T> {
    if sorted == [] || key(sorted[|sorted| - 1]) <= key(e) then sorted + [e]
    else Insert(key, sorted[..|sorted| - 1], e) + [sorted[|sorted| - 1]]
  }

  function SortBy<T>(key: T -> real, s: seq<T>): seq<T> {
    if s == [] then [] else Insert(key, SortBy(key, s[..|s| - 1]), s[|s| - 1])
  }

  lemma {:induction false} InsertKeeps<T>(key: T -> real, sorted: seq<T>, e: T)
    ensures multiset(Insert(key, sorted, e)) == multiset(sorted) + multiset{e}
  {
    if sorted == [] {
    } else {
      var init, last := sorted[..|sorted| - 1], sorted[|sorted| - 1];
      assert sorted == init + [last];
      if key(last) > key(e) {
        InsertKeeps(key, init, e);
      }
    }
  }

  lemma AppendGreatest<T>(key: T -> real, s: seq<T>, e: T)
    requires Ascending(key, s) && forall x :: x in multiset(s) ==> key(x) <= key(e)
    ensures Ascending(key, s + [e])
  {
    forall i | 0 <= i < |s| ensures key(s[i]) <= key(e) {
      assert s[i] in multiset(s);
    }
  }

  lemma {:induction false} InsertAscends<T>(key: T -> real, sorted: seq<T>, e: T)
    requires Ascending(key, sorted)
    ensures Ascending(key, Insert(key, sorted, e))
  {
    if sorted == [] || key(sorted[|sorted| - 1]) <= key(e) {
    } else {
      var init, last := sorted[..|sorted| - 1], sorted[|sorted| - 1];
      InsertAscends(key, init, e);
      InsertKeeps(key, init, e);
      AppendGreatest(key, Insert(key, init, e), last);
    }
  }

  lemma {:induction false} InsertIsStable<T>(key: T -> real, sorted: seq<T>, e: T, v: real)
    ensures WithKey(key, Insert(key, sorted, e), v) == WithKey(key, sorted, v) + if key(e) == v then [e] else []
  {
    if sorted == [] || key(sorted[|sorted| - 1]) <= key(e) {
      assert (sorted + [e])[..|sorted|] == sorted;
    } else {
      var init, last := sorted[..|sorted| - 1], sorted[|sorted| - 1];
      InsertIsStable(key, init, e, v);
      var out := Insert(key, init, e);
      assert (out + [last])[..|out|] == out;
    }
  }

  lemma WithKeyAppend<T>(key: T -> real, s: seq<T>, e: T, v: real)
    ensures WithKey(key, s + [e], v) == WithKey(key, s, v) + if key(e) == v then [e] else []
  {
    assert (s + [e])[..|s|] == s;
  }

  lemma InsertSorts<T>(key: T -> real, s: seq<T>, sorted: seq<T>, e: T)
    requires StablySorted(key, s, sorted)
    ensures StablySorted(key, s + [e], Insert(key, sorted, e))
  {
    InsertKeeps(key, sorted, e);
    InsertAscends(key, sorted, e);
    forall v ensures WithKey(key, Insert(key, sorted, e), v) == WithKey(key, s + [e], v) {
      InsertIsStable(key, sorted, e, v);
      WithKeyAppend(key, s, e, v);
    }
    hide Insert, Ascending, WithKey;
  }

  lemma {:induction false} SortIsStable<T>(key: T -> real, s: seq<T>)
    ensures StablySorted(key, s, SortBy(key, s))
  {
    if s == [] {
    } else {
      var init, last := s[..|s| - 1], s[|s| - 1];
      SortIsStable(key, init);
      InsertSorts(key, init, SortBy(key, init), last);
      assert s == init + [last];
      hide Insert, StablySorted;
    }
  }

  /** The specification of stable sorting determines the result. */
  lemma {:induction false} StableSortIsUnique<T>(key: T -> real, s: seq<T>, a: seq<T>, b: seq<T>)
    requires StablySorted(key, s, a) && StablySorted(key, s, b)
    ensures a == b
  {
    assert |a| == |multiset(a)| == |multiset(b)| == |b|;
    SameByKey(key, a, b);
  }

  lemma {:induction false} WithKeyEmpty<T>(key: T -> real, s: seq<T>, v: real)
    ensures WithKey(key, s, v) == [] <==> forall i :: 0 <= i < |s| ==> key(s[i]) != v
  {
    if s == [] {
    } else {
      var init := s[..|s| - 1];
      WithKeyEmpty(key, init, v);
      assert forall i :: 0 <= i < |init| ==> init[i] == s[i];
    }
  }

  lemma EndsAlike<T>(a: seq<T>, x: seq<T>, b: seq<T>, y: seq<T>)
    requires a + x == b + y && |x| == |y|
    ensures a == b && x == y
  {
    assert |a| == |b|;
    assert (a + x)[..|a|] == a && (b + y)[..|b|] == b;
    assert (a + x)[|a|..] == x && (b + y)[|b|..] == y;
  }

  lemma SameBeforeLast<T>(key: T -> real, a: seq<T>, b: seq<T>, last: T, v: real)
    requires WithKey(key, a + [last], v) == WithKey(key, b + [last], v)
    ensures WithKey(key, a, v) == WithKey(key, b, v)
  {
    WithKeyAppend(key, a, last, v);
    WithKeyAppend(key, b, last, v);
    var end := if key(last) == v then [last] else [];
    hide WithKey;
    EndsAlike(WithKey(key, a, v), end, WithKey(key, b, v), end);
  }

  lemma SameLast<T>(key: T -> real, a: seq<T>, la: T, b: seq<T>, lb: T)
    requires Ascending(key, a + [la]) && Ascending(key, b + [lb])
    requires forall v :: WithKey(key, a + [la], v) == WithKey(key, b + [lb], v)
    ensures la == lb
  {
    WithKeyAppend(key, a, la, key(la));
    WithKeyAppend(key, b, lb, key(lb));
    WithKeyEmpty(key, b + [lb], key(la));
    WithKeyEmpty(key, a + [la], key(lb));
    assert (a + [la])[|a|] == la && (b + [lb])[|b|] == lb;
    hide WithKey;
    assert key(la) == key(lb);
    EndsAlike(WithKey(key, a, key(la)), [la], WithKey(key, b, key(la)), [lb]);
    assert la == [la][0] && lb == [lb][0];
  }

  lemma AscendingPrefix<T>(key: T -> real, a: seq<T>, la: T)
    requires Ascending(key, a + [la])
    ensures Ascending(key, a)
  {
    assert forall i :: 0 <= i < |a| ==> a[i] == (a + [la])[i];
  }

  lemma {:induction false} SameByKey<T>(key: T -> real, a: seq<T>, b: seq<T>)
    requires |a| == |b| && Ascending(key, a) && Ascending(key, b)
    requires forall v :: WithKey(key, a, v) == WithKey(key, b, v)
    ensures a == b
  {
    if a == [] {
    } else {
      var la, lb, inita, initb := a[|a| - 1], b[|b| - 1], a[..|a| - 1], b[..|b| - 1];
      assert a == inita + [la] && b == initb + [lb];
      SameLast(key, inita, la, initb, lb);
      forall v ensures WithKey(key, inita, v) == WithKey(key, initb, v) {
        SameBeforeLast(key, inita, initb, la, v);
      }
      AscendingPrefix(key, inita, la);
      AscendingPrefix(key, initb, lb);
      hide WithKey, Ascending;
      SameByKey(key, inita, initb);
    }
  }

  ghost predicate Injective<T(!new)>(key: T -> real) {
    forall x, y :: key(x) == key(y) ==> x == y
  }

  /** Sorting depends on the bag of elements alone when equal keys mean equal elements. */
  lemma SortOfBag<T(!new)>(key: T -> real, a: seq<T>, b: seq<T>)
    requires Injective(key) && multiset(a) == multiset(b)
    ensures SortBy(key, a) == SortBy(key, b)
  {
    SortIsStable(key, a);
    SortIsStable(key, b);
    SameBag(key, SortBy(key, a), SortBy(key, b));
  }

  lemma {:induction false} SameBag<T(!new)>(key: T -> real, a: seq<T>, b: seq<T>)
    requires Injective(key) && multiset(a) == multiset(b) && Ascending(key, a) && Ascending(key, b)
    ensures a == b
    decreases |a|
  {
    SameLength(a, b);
    if a == [] {
    } else {
      var la, lb, inita, initb := a[|a| - 1], b[|b| - 1], a[..|a| - 1], b[..|b| - 1];
      Ends(a);
      Ends(b);
      SameLastOfBag(key, inita, la, initb, lb);
      AscendingPrefix(key, inita, la);
      AscendingPrefix(key, initb, lb);
      hide Injective, Ascending;
      SameBag(key, inita, initb);
    }
  }

  lemma SameLength<T>(a: seq<T>, b: seq<T>)
    requires multiset(a) == multiset(b)
    ensures |a| == |b|
  {
    assert |a| == |multiset(a)| == |multiset(b)| == |b|;
  }

  lemma Ends<T>(a: seq<T>)
    requires a != []
    ensures a == a[..|a| - 1] + [a[|a| - 1]]
  {
  }

  lemma SameLastOfBag<T(!new)>(key: T -> real, a: seq<T>, la: T, b: seq<T>, lb: T)
    requires Injective(key) && multiset(a + [la]) == multiset(b + [lb])
    requires Ascending(key, a + [la]) && Ascending(key, b + [lb])
    ensures la == lb && multiset(a) == multiset(b)
  {
    WithoutLast(a, la);
    WithoutLast(b, lb);
    LastIsGreatest(key, a, la, lb);
    LastIsGreatest(key, b, lb, la);
    hide Ascending;
  }

  lemma WithoutLast<T>(a: seq<T>, x: T)
    ensures multiset(a + [x]) - multiset{x} == multiset(a) && x in multiset(a + [x])
  {
  }

  lemma LastIsGreatest<T>(key: T -> real, a: seq<T>, la: T, x: T)
    requires Ascending(key, a + [la])
    ensures x in multiset(a + [la]) ==> key(x) <= key(la)
  {
    if x in multiset(a + [la]) {
      var i :| 0 <= i < |a + [la]| && (a + [la])[i] == x;
      assert (a + [la])[|a|] == la;
    }
  }
}
