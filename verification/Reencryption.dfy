/** The key-rotation pass, which rewrites every row while it pages over them (internal/platform/wiring/reencrypt.go). */
module Reencryption {
  import opened Prelude
  import opened Paging

  datatype Row<B> = Row(id: nat, body: B)

  /** A table in a fixed order; an update replaces the row with the same id in place. */
  class Table<B> {
    var rows: seq<Row<B>>

    ghost predicate Valid() reads this {
      DistinctIds(rows)
    }

    method Update(row: Row<B>) returns (found: bool)
      requires Valid()
      modifies this
      ensures Valid() && Updated(old(rows), row, rows)
      ensures found <==> exists i :: 0 <= i < old(|rows|) && old(rows)[i].id == row.id
    {
      for i := 0 to |rows|
        invariant rows == old(rows)
        invariant forall j :: 0 <= j < i ==> rows[j].id != row.id
      {
        if rows[i].id == row.id {
          rows := rows[i := row];
          return true;
        }
      }
      return false;
    }
  }

  /** Sealing a body again under a nonce of its own, where that succeeds. */
  function Resealed<B>(reseal: (B, nat) -> Result<B>, nonce: nat, b: B): B {
    if reseal(b, nonce).Ok? then reseal(b, nonce).value else b
  }

  /** The table with its first k rows rewritten, under the nonces from the given one on. */
  function Rewritten<B>(reseal: (B, nat) -> Result<B>, nonce: nat, rows: seq<Row<B>>, k: nat): (r: seq<Row<B>>)
    ensures |r| == |rows|
  {
    seq(|rows|, i requires 0 <= i < |rows| =>
      if i < k then Row(rows[i].id, Resealed(reseal, nonce + i, rows[i].body)) else rows[i])
  }

  ghost predicate DistinctIds<B>(rows: seq<Row<B>>) {
    forall i, j :: 0 <= i < j < |rows| ==> rows[i].id != rows[j].id
  }

  /** The pass has rewritten the first k of the original rows, each after visiting it once and in order. */
  ghost predicate Passed<B>(
    reseal: (B, nat) -> Result<B>, nonce: nat, rows: seq<Row<B>>, now: seq<Row<B>>, visited: seq<Row<B>>, k: nat) {
    && k <= |rows| && visited == rows[..k] && now == Rewritten(reseal, nonce, rows, k)
    && forall i :: 0 <= i < k ==> reseal(rows[i].body, nonce + i).Ok?
  }

  ghost predicate Updated<B>(before: seq<Row<B>>, row: Row<B>, after: seq<Row<B>>) {
    && |after| == |before|
    && forall i :: 0 <= i < |before| ==> after[i] == if before[i].id == row.id then row else before[i]
  }

  lemma PassedNone<B>(reseal: (B, nat) -> Result<B>, nonce: nat, rows: seq<Row<B>>)
    ensures Passed(reseal, nonce, rows, rows, [], 0)
  {
    assert rows == Rewritten(reseal, nonce, rows, 0);
  }

  lemma PassedNext<B>(
    reseal: (B, nat) -> Result<B>, nonce: nat, rows: seq<Row<B>>, now: seq<Row<B>>, visited: seq<Row<B>>,
    k: nat, after: seq<Row<B>>)
    requires k < |rows| && DistinctIds(rows) && Passed(reseal, nonce, rows, now, visited, k)
             && reseal(rows[k].body, nonce + k).Ok?
    requires Updated(now, Row(rows[k].id, reseal(rows[k].body, nonce + k).value), after)
    ensures Passed(reseal, nonce, rows, after, visited + [rows[k]], k + 1)
  {
    forall i | 0 <= i < |rows| ensures after[i] == Rewritten(reseal, nonce, rows, k + 1)[i] {
      if i != k {
        assert rows[i].id != rows[k].id;
      }
    }
    assert after == Rewritten(reseal, nonce, rows, k + 1);
  }

  /** What is delivered for a page while the rows before it have been rewritten: the rows as they were. */
  lemma PageUntouched<B>(
    reseal: (B, nat) -> Result<B>, nonce: nat, rows: seq<Row<B>>, now: seq<Row<B>>, visited: seq<Row<B>>, p: Page)
    requires p.number >= 1 && p.size >= 1 && 0 <= Offset(p) && Passed(reseal, nonce, rows, now, visited, Offset(p))
    ensures var from, items := Offset(p), PageOf(now, p);
            && from + |items| <= |rows| == |now| && |items| <= p.size
            && (|items| < p.size ==> from + |items| == |rows|)
            && items == rows[from..from + |items|]
  {
  }

  lemma SamePage(number: int, size: int)
    requires number >= 1
    ensures NewPage(number, size) == Page(number, Clamped(size))
  {
  }

  /** The rows of one page, one after the other; the first that cannot be sealed ends the pass. */
  method VisitPage<B>(
    t: Table<B>, items: seq<Row<B>>, reseal: (B, nat) -> Result<B>, nonce: nat, visited: seq<Row<B>>,
      ghost rows: seq<Row<B>>)
    returns (failed: Option<Error>, visited': seq<Row<B>>, processed: nat)
    requires t.Valid() && DistinctIds(rows) && Passed(reseal, nonce, rows, t.rows, visited, |visited|)
    requires |visited| + |items| <= |rows| && items == rows[|visited|..|visited| + |items|]
    modifies t
    ensures t.Valid() && processed <= |rows| && Passed(reseal, nonce, rows, t.rows, rows[..processed], processed)
    ensures failed.None? ==> processed == |visited| + |items| && visited' == rows[..processed]
    ensures failed.Some? ==>
              && processed < |rows| && visited' == rows[..processed] + [rows[processed]]
              && reseal(rows[processed].body, nonce + processed) == Err(failed.value)
  {
    hide *;
    visited', processed := visited, |visited|;
    PassedMeans(reseal, nonce, rows, t.rows, visited, processed);
    for i := 0 to |items|
      invariant t.Valid() && processed == |visited| + i && visited' == rows[..processed]
      invariant Passed(reseal, nonce, rows, t.rows, visited', processed)
    {
      assert items[i] == rows[processed];
      var sealed := reseal(items[i].body, nonce + processed);
      if sealed.Err? {
        return Some(sealed.error), visited' + [items[i]], processed;
      }
      ghost var now := t.rows;
      var found := t.Update(Row(items[i].id, sealed.value));
      PassedNext(reseal, nonce, rows, now, visited', processed, t.rows);
      visited' := visited' + [items[i]];
      processed := processed + 1;
    }
    return None, visited', processed;
  }

  /**
   One pass at any requested page size.  The pass stops at the first page that cannot be read
   or row that cannot be sealed; the rows before it are rewritten and no other.
   */
  method EachPage<B>(
    t: Table<B>, pageSize: int, readable: int -> bool, reseal: (B, nat) -> Result<B>, nonce: nat)
    returns (res: Result<nat>, visited: seq<Row<B>>, processed: nat)
    requires t.Valid()
    modifies t
    ensures t.Valid() && processed <= |visited| <= old(|t.rows|)
    ensures visited == old(t.rows)[..|visited|]
    ensures t.rows == Rewritten(reseal, nonce, old(t.rows), processed)
    ensures forall i :: 0 <= i < processed ==>
              reseal(old(t.rows)[i].body, nonce + i) == Ok(t.rows[i].body) && t.rows[i].id == old(t.rows)[i].id
    ensures forall i :: processed <= i < old(|t.rows|) ==> t.rows[i] == old(t.rows)[i]
    ensures forall i :: 0 <= i < processed ==> reseal(old(t.rows)[i].body, nonce + i).Ok?
    ensures res.Ok? ==> res.value == processed == |visited| == old(|t.rows|)
    ensures res.Err? && |visited| > processed ==>
              |visited| == processed + 1 && reseal(visited[processed].body, nonce + processed) == Err(res.error)
    ensures res.Err? && |visited| == processed ==>
              exists page :: page >= 1 && !readable(page) && Offset(Page(page, Clamped(pageSize))) == processed
  {
    assert DistinctIds(t.rows);
    hide *;
    visited, processed := [], 0;
    var page := 1;
    ghost var rows, size := t.rows, Clamped(pageSize);
    PassedNone(reseal, nonce, rows);
    FirstOffset(size);
    while true
      invariant page >= 1 && t.Valid() && processed == |visited| == Offset(Page(page, size)) <= |rows|
      invariant Passed(reseal, nonce, rows, t.rows, visited, processed)
      decreases |rows| - processed
    {
      SamePage(page, pageSize);
      OffsetStep(page, size);
      PassedMeans(reseal, nonce, rows, t.rows, visited, processed);
      if !readable(page) {
        return Err(Internal), visited, processed;
      }
      PageUntouched(reseal, nonce, rows, t.rows, visited, Page(page, size));
      var items, total := PageOf(t.rows, NewPage(page, pageSize)), |t.rows|;
      var failed;
      failed, visited, processed := VisitPage(t, items, reseal, nonce, visited, rows);
      PassedMeans(reseal, nonce, rows, t.rows, rows[..processed], processed);
      if failed.Some? {
        return Err(failed.value), visited, processed;
      }
      if |items| == 0 || processed >= total {
        return Ok(processed), visited, processed;
      }
      page := page + 1;
    }
  }

  lemma FirstOffset(size: int)
    requires size >= 1
    ensures Offset(Page(1, size)) == 0
  {
  }

  lemma PassedMeans<B>(
    reseal: (B, nat) -> Result<B>, nonce: nat, rows: seq<Row<B>>, now: seq<Row<B>>, visited: seq<Row<B>>, k: nat)
    requires Passed(reseal, nonce, rows, now, visited, k)
    ensures k == |visited| <= |rows| == |now| && visited == rows[..k] && now == Rewritten(reseal, nonce, rows, k)
    ensures forall i :: 0 <= i < k ==> reseal(rows[i].body, nonce + i).Ok?
  {
  }

  // ------------------------------------------------------------- what rows say

  /**
   Sealing again keeps what a body says and leaves it under the current key.  Under
   another nonce it gives another ciphertext, so this is all that stays the same.
   */
  ghost predicate Sound<B(!new), P>(
    reseal: (B, nat) -> Result<B>, says: B -> Option<P>, current: B -> bool)
  {
    forall b, n :: reseal(b, n).Ok? ==>
      && says(b).Some? && says(reseal(b, n).value) == says(b) && current(reseal(b, n).value)
  }

  /** The same rows in the same order, saying the same. */
  ghost predicate SaysTheSame<B, P>(says: B -> Option<P>, before: seq<Row<B>>, after: seq<Row<B>>) {
    && |after| == |before|
    && forall i :: 0 <= i < |before| ==> after[i].id == before[i].id && says(after[i].body) == says(before[i].body)
  }

  /** However far a pass gets, no row is lost and none says anything else. */
  lemma PassKeepsContents<B(!new), P>(
    reseal: (B, nat) -> Result<B>, says: B -> Option<P>, current: B -> bool, nonce: nat, rows: seq<Row<B>>, k: nat)
    requires Sound(reseal, says, current)
    requires k <= |rows| && forall i :: 0 <= i < k ==> reseal(rows[i].body, nonce + i).Ok?
    ensures SaysTheSame(says, rows, Rewritten(reseal, nonce, rows, k))
    ensures forall i :: 0 <= i < k ==> current(Rewritten(reseal, nonce, rows, k)[i].body)
  {
  }

  lemma SaidBefore<B(!new), P>(
    reseal: (B, nat) -> Result<B>, says: B -> Option<P>, current: B -> bool, nonce: nat, rows: seq<Row<B>>)
    requires Sound(reseal, says, current)
    ensures forall i :: 0 <= i < |rows| && reseal(rows[i].body, nonce + i).Ok? ==> says(rows[i].body).Some?
  {
  }

  /**
   Running the pass again after one that may have stopped anywhere: whatever the two passes
   came to, the table says what it said; if the second completes, every row can be read and is
   under the current key; and it completes unless a page cannot be read or a row cannot be sealed.
   */
  method RunAgain<B(!new), P>(
    t: Table<B>, pageSize: int, readable: int -> bool, readable': int -> bool,
    reseal: (B, nat) -> Result<B>, nonce: nat, ghost says: B -> Option<P>, ghost current: B -> bool)
    returns (first: Result<nat>, second: Result<nat>)
    requires t.Valid() && Sound(reseal, says, current)
    modifies t
    ensures t.Valid() && SaysTheSame(says, old(t.rows), t.rows)
    ensures second.Ok? ==> forall i :: 0 <= i < |t.rows| ==> current(t.rows[i].body) && says(t.rows[i].body).Some?
    ensures second.Err? ==>
              || (exists page :: page >= 1 && !readable'(page))
              || exists i, n: nat :: 0 <= i < |t.rows| && reseal(t.rows[i].body, n) == Err(second.error)
    ensures first.Err? ==>
              || (exists page :: page >= 1 && !readable(page))
              || exists i, n: nat :: 0 <= i < |old(t.rows)| && reseal(old(t.rows)[i].body, n) == Err(first.error)
  {
    ghost var rows := t.rows;
    var visited, done;
    first, visited, done := EachPage(t, pageSize, readable, reseal, nonce);
    PassKeepsContents(reseal, says, current, nonce, rows, done);
    hide Rewritten, Sound;
    ghost var between := t.rows;
    ghost var nonce' := nonce + |rows|;
    var visited', done';
    second, visited', done' := EachPage(t, pageSize, readable', reseal, nonce + |t.rows|);
    PassKeepsContents(reseal, says, current, nonce', between, done');
    SaidBefore(reseal, says, current, nonce', between);
  }
}
