/**
 Page requests (internal/domain/kernel/page.go) and the loops that read a whole collection
 page by page: the export (internal/app/privacy/exporter.go), the audit report
 (internal/adapters/inbound/grpc/audit.go) and the earliest match of a role
 (internal/app/dashboard/aggregator.go).
 */
module Paging {
  import opened Prelude

  const DEFAULT_PAGE_SIZE: int := 20
  const MAX_PAGE_SIZE: int := 100
  const EXPORT_PAGE_SIZE: int := 100
  const REPORT_PAGE_SIZE: int := 100
  const MAX_REPORT_ENTRIES: int := 10000

  datatype Page = Page(number: int, size: int)

  function NewPage(number: int, size: int): (p: Page)
    ensures p.number >= 1 && 1 <= p.size <= MAX_PAGE_SIZE
    ensures number >= 1 && 1 <= size <= MAX_PAGE_SIZE ==> p == Page(number, size)
    ensures number < 1 ==> p.number == 1
    ensures size < 1 ==> p.size == 20
    ensures size > 100 ==> p.size == 100
  {
    Page(if number < 1 then 1 else number,
         if size < 1 then DEFAULT_PAGE_SIZE else if size > MAX_PAGE_SIZE then MAX_PAGE_SIZE else size)
  }

  /** The size a request for this many rows is served with. */
  function Clamped(size: int): (r: int)
    ensures 1 <= r <= MAX_PAGE_SIZE
  {
    NewPage(1, size).size
  }

  function Offset(p: Page): int { (p.number - 1) * p.size }

  function TotalPages(total: int, size: int): int {
    if size <= 0 || total <= 0 then 0 else (total + size - 1) / size
  }

  function Min(a: int, b: int): int { if a < b then a else b }

  function Max(a: int, b: int): int { if a < b then b else a }

  /** The rows a faithful repository delivers for a page. */
  function PageOf<T>(rows: seq<T>, p: Page): seq<T>
    requires p.number >= 1 && p.size >= 1
  {
    OffsetStep(p.number, p.size);
    var from := Min(Offset(p), |rows|);
    rows[from..Min(from + p.size, |rows|)]
  }

  lemma OffsetStep(number: int, size: int)
    requires number >= 1 && size >= 1
    ensures 0 <= Offset(Page(number, size))
    ensures number - 1 <= Offset(Page(number, size))
    ensures Offset(Page(number + 1, size)) == Offset(Page(number, size)) + size
  {
  }

  /** Pages partition the rows: the number of pages is the least that covers the total. */
  lemma TotalPagesCover(total: int, size: int)
    requires size >= 1
    ensures total <= 0 ==> TotalPages(total, size) == 0
    ensures total > 0 ==>
              && TotalPages(total, size) >= 1
              && Offset(Page(TotalPages(total, size), size)) < total <= Offset(Page(TotalPages(total, size) + 1, size))
  {
    if total > 0 {
      var k := (total + size - 1) / size;
      assert k * size <= total + size - 1 < k * size + size;
    }
  }

  // -------------------------------------------------------------- gathering pages

  datatype Batch<T> = Batch(rows: seq<T>, total: int)

  /** A repository read, as the loops see it: any page may fail, deliver anything, and report any total. */
  type Reader<!T> = Page -> Result<Batch<T>>

  function Delivered<T>(read: Reader<T>, size: int, k: int): seq<T> {
    var r := read(NewPage(k, size));
    if r.Ok? then r.value.rows else []
  }

  /** Everything the first k pages delivered. */
  function Gathered<T>(read: Reader<T>, size: int, k: nat): seq<T> {
    if k == 0 then [] else Gathered(read, size, k - 1) + Delivered(read, size, k)
  }

  predicate Fails<T>(read: Reader<T>, size: int, k: nat) {
    read(NewPage(k, size)).Err?
  }

  /** Page k ends the loop: it is empty, or everything reported has been delivered. */
  predicate Settles<T>(read: Reader<T>, size: int, k: nat) {
    var r := read(NewPage(k, size));
    r.Ok? && (r.value.rows == [] || |Gathered(read, size, k)| >= r.value.total)
  }

  ghost predicate TotalsWithin<T(!new)>(read: Reader<T>, bound: int) {
    forall p :: read(p).Ok? ==> read(p).value.total <= bound
  }

  /** The loop stopped at page k, and no earlier page ended it. */
  ghost predicate StopsAt<T>(read: Reader<T>, size: int, k: nat) {
    k >= 1 && forall j: nat :: 1 <= j < k ==> !Fails(read, size, j) && !Settles(read, size, j)
  }

  ghost predicate Collected<T>(read: Reader<T>, size: int, res: Result<seq<T>>, k: nat) {
    && StopsAt(read, size, k)
    && (Fails(read, size, k) || Settles(read, size, k))
    && (Fails(read, size, k) ==> res == Err(read(NewPage(k, size)).error))
    && (!Fails(read, size, k) ==> res == Ok(Gathered(read, size, k)))
  }

  /** Some page fails, is empty or completes what is reported: the loop ends there at the latest. */
  ghost predicate EndsBy<T>(read: Reader<T>, size: int, last: nat) {
    last >= 1 && (Fails(read, size, last) || Settles(read, size, last))
  }

  method CollectAll<T>(read: Reader<T>, ghost last: nat) returns (res: Result<seq<T>>, pages: nat)
    requires EndsBy(read, EXPORT_PAGE_SIZE, last)
    ensures Collected(read, EXPORT_PAGE_SIZE, res, pages)
    ensures pages <= last
  {
    var all: seq<T> := [];
    var page := 1;
    while true
      invariant 1 <= page <= last && all == Gathered(read, EXPORT_PAGE_SIZE, page - 1)
      invariant StopsAt(read, EXPORT_PAGE_SIZE, page)
      decreases last - page
    {
      var r := read(NewPage(page, EXPORT_PAGE_SIZE));
      if r.Err? {
        return Err(r.error), page;
      }
      all := all + r.value.rows;
      if |r.value.rows| == 0 || |all| >= r.value.total {
        return Ok(all), page;
      }
      page := page + 1;
    }
  }

  /** While no page ends the loop, each delivers at least one row. */
  lemma {:induction false} GatheredGrows<T>(read: Reader<T>, size: int, k: nat)
    requires forall j: nat :: 1 <= j <= k ==> !Fails(read, size, j) && !Settles(read, size, j)
    ensures |Gathered(read, size, k)| >= k
    ensures k >= 1 ==> read(NewPage(k, size)).Ok? && |Gathered(read, size, k)| < read(NewPage(k, size)).value.total
  {
    if k == 0 {
    } else {
      assert !Fails(read, size, k) && !Settles(read, size, k);
      GatheredGrows(read, size, k - 1);
    }
  }

  /** Where the totals reported are bounded, the loop ends within so many pages, whatever is delivered. */
  lemma EndsWithinTotals<T(!new)>(read: Reader<T>, size: int, bound: int)
    requires TotalsWithin(read, bound)
    ensures exists last: nat :: last <= Max(1, bound) && EndsBy(read, size, last)
  {
    if forall j: nat :: 1 <= j <= Max(1, bound) ==> !EndsBy(read, size, j) {
      var k: nat := Max(1, bound);
      forall j: nat | 1 <= j <= k ensures !Fails(read, size, j) && !Settles(read, size, j) {
        assert !EndsBy(read, size, j);
      }
      GatheredGrows(read, size, k);
    }
  }

  lemma {:induction false} FirstEnd<T>(read: Reader<T>, size: int, last: nat) returns (k: nat)
    requires EndsBy(read, size, last)
    ensures k <= last && EndsBy(read, size, k) && StopsAt(read, size, k)
  {
    if j: nat :| j < last && EndsBy(read, size, j) {
      k := FirstEnd(read, size, j);
    } else {
      k := last;
      forall j: nat | 1 <= j < k ensures !Fails(read, size, j) && !Settles(read, size, j) {
        assert !EndsBy(read, size, j);
      }
    }
  }

  /** The loop comes to an end, at one page and with one result, if and only if some page ends it. */
  lemma CollectingEndsIff<T(!new)>(read: Reader<T>, size: int)
    ensures (exists res: Result<seq<T>>, k: nat :: Collected(read, size, res, k)) <==>
              exists last: nat :: EndsBy(read, size, last)
    ensures forall res: Result<seq<T>>, res': Result<seq<T>>, k: nat, k': nat ::
              Collected(read, size, res, k) && Collected(read, size, res', k') ==> res == res' && k == k'
  {
    if last: nat :| EndsBy(read, size, last) {
      var k := FirstEnd(read, size, last);
      var res: Result<seq<T>> :=
        if Fails(read, size, k) then Err(read(NewPage(k, size)).error) else Ok(Gathered(read, size, k));
      assert Collected(read, size, res, k);
    }
    forall res: Result<seq<T>>, k: nat | Collected(read, size, res, k) ensures EndsBy(read, size, k) {
    }
  }

  /** A repository that reports one row more than it has delivered so far, on every page. */
  function Receding(): Reader<int> {
    (p: Page) => Ok(Batch([0], p.number + 1))
  }

  lemma {:induction false} RecedingGathers(size: int, k: nat)
    ensures |Gathered(Receding(), size, k)| == k
  {
    if k == 0 {
    } else {
      RecedingGathers(size, k - 1);
    }
  }

  /** Reading it never ends, at any page size. */
  lemma RecedingNeverEnds(size: int, last: nat)
    ensures !EndsBy(Receding(), size, last)
  {
    RecedingGathers(size, last);
    hide Gathered;
  }

  /** The page after which the report loop gives up, if it gets that far. */
  predicate Overflows<T>(read: Reader<T>, k: nat) {
    !Fails(read, REPORT_PAGE_SIZE, k) && |Gathered(read, REPORT_PAGE_SIZE, k)| > MAX_REPORT_ENTRIES
  }

  ghost predicate Reported<T>(read: Reader<T>, res: Result<seq<T>>, k: nat) {
    && StopsAt(read, REPORT_PAGE_SIZE, k)
    && (forall j: nat :: 1 <= j < k ==> !Overflows(read, j))
    && (Fails(read, REPORT_PAGE_SIZE, k) || Settles(read, REPORT_PAGE_SIZE, k) || Overflows(read, k))
    && res == if Fails(read, REPORT_PAGE_SIZE, k) then Err(read(NewPage(k, REPORT_PAGE_SIZE)).error)
              else if Overflows(read, k) then Err(Invalid)
              else Ok(Gathered(read, REPORT_PAGE_SIZE, k))
  }

  /** The row ceiling bounds this loop even when the totals reported are not bounded. */
  method CollectReportEntries<T>(read: Reader<T>) returns (res: Result<seq<T>>, pages: nat)
    ensures Reported(read, res, pages)
    ensures pages <= MAX_REPORT_ENTRIES + 1
  {
    var all: seq<T> := [];
    var page := 1;
    while true
      invariant page >= 1 && all == Gathered(read, REPORT_PAGE_SIZE, page - 1)
      invariant StopsAt(read, REPORT_PAGE_SIZE, page)
      invariant forall j: nat :: 1 <= j < page ==> !Overflows(read, j)
      invariant page - 1 <= |all| <= MAX_REPORT_ENTRIES
      decreases MAX_REPORT_ENTRIES - |all|
    {
      var r := read(NewPage(page, REPORT_PAGE_SIZE));
      if r.Err? {
        return Err(r.error), page;
      }
      all := all + r.value.rows;
      if |all| > MAX_REPORT_ENTRIES {
        return Err(Invalid), page;
      }
      if |r.value.rows| == 0 || |all| >= r.value.total {
        return Ok(all), page;
      }
      page := page + 1;
    }
  }

  // ---------------------------------------------------------- faithful repositories

  function Faithful<T>(rows: seq<T>): Reader<T> {
    (p: Page) => Ok(Batch(if p.number >= 1 && p.size >= 1 then PageOf(rows, p) else [], |rows|))
  }

  lemma PageExtends<T>(rows: seq<T>, number: int, size: int)
    requires number >= 1 && size >= 1
    ensures 0 <= Offset(Page(number, size)) <= Offset(Page(number + 1, size))
    ensures rows[..Min(Offset(Page(number, size)), |rows|)] + PageOf(rows, Page(number, size))
            == rows[..Min(Offset(Page(number + 1, size)), |rows|)]
  {
    OffsetStep(number, size);
    var from, upto := Min(Offset(Page(number, size)), |rows|), Min(Offset(Page(number + 1, size)), |rows|);
    hide Offset;
    assert rows[..from] + rows[from..upto] == rows[..upto];
  }

  lemma DeliveredFaithful<T>(rows: seq<T>, size: int, k: nat)
    requires k >= 1
    ensures Delivered(Faithful(rows), size, k) == PageOf(rows, Page(k, Clamped(size)))
  {
  }

  /** k pages of a faithful repository are the first k * size rows, at the size the request is clamped to. */
  lemma {:induction false} GatheredFaithful<T>(rows: seq<T>, size: int, k: nat)
    ensures Offset(Page(k + 1, Clamped(size))) >= 0
    ensures Gathered(Faithful(rows), size, k) == rows[..Min(Offset(Page(k + 1, Clamped(size))), |rows|)]
  {
    OffsetStep(k + 1, Clamped(size));
    if k == 0 {
      assert Offset(Page(1, Clamped(size))) == 0;
    } else {
      GatheredFaithful(rows, size, k - 1);
      PageExtends(rows, k, Clamped(size));
      DeliveredFaithful(rows, size, k);
      hide Delivered, Faithful, Offset, Clamped, PageOf;
    }
  }

  /** The page at which a faithful read is complete. */
  lemma SettlesFaithful<T>(rows: seq<T>, size: int, k: nat)
    requires k >= 1
    ensures Settles(Faithful(rows), size, k) <==> Offset(Page(k + 1, Clamped(size))) >= |rows|
  {
    GatheredFaithful(rows, size, k);
    OffsetStep(k, Clamped(size));
    var p := Page(k, Clamped(size));
    assert NewPage(k, size) == p;
    hide Gathered;
    if Offset(p) >= |rows| {
      assert PageOf(rows, p) == [];
    } else {
      assert |PageOf(rows, p)| == Min(Offset(p) + p.size, |rows|) - Offset(p);
    }
  }

  lemma {:induction false} OffsetGrows(j: int, k: int, size: int)
    requires 1 <= j <= k && size >= 1
    ensures Offset(Page(j, size)) <= Offset(Page(k, size))
    decreases k - j
  {
    if j == k {
    } else {
      OffsetGrows(j, k - 1, size);
      OffsetStep(k - 1, size);
    }
  }

  /** A faithful read first settles at its last page, or at the first when there are no rows. */
  lemma FaithfulStop<T>(rows: seq<T>, size: int, k: nat)
    requires StopsAt(Faithful(rows), size, k) && Settles(Faithful(rows), size, k)
    ensures k == Max(1, TotalPages(|rows|, Clamped(size)))
  {
    var last, c := TotalPages(|rows|, Clamped(size)), Clamped(size);
    TotalPagesCover(|rows|, c);
    SettlesFaithful(rows, size, k);
    hide TotalPages, Offset, Settles, Clamped;
    if |rows| == 0 {
      SettlesFaithful(rows, size, 1);
      OffsetStep(1, c);
      OffsetStep(2, c);
    } else {
      if k < last {
        OffsetGrows(k + 1, last, c);
      }
      if last < k {
        SettlesFaithful(rows, size, last);
      }
    }
  }

  lemma NeverFails<T>(rows: seq<T>, size: int, k: nat)
    ensures !Fails(Faithful(rows), size, k)
  {
  }

  lemma GatheredAll<T>(rows: seq<T>, size: int, k: nat)
    requires k >= 1 && Settles(Faithful(rows), size, k)
    ensures Gathered(Faithful(rows), size, k) == rows
  {
    SettlesFaithful(rows, size, k);
    GatheredFaithful(rows, size, k);
  }

  /** The export misses nothing, repeats nothing, and reads no page it does not need. */
  lemma CollectsEverything<T>(rows: seq<T>, res: Result<seq<T>>, k: nat)
    requires Collected(Faithful(rows), EXPORT_PAGE_SIZE, res, k)
    ensures res == Ok(rows) && k == Max(1, TotalPages(|rows|, EXPORT_PAGE_SIZE))
    ensures rows == [] ==> k == 1
    ensures rows != [] ==> 100 * (k - 1) < |rows| <= 100 * k
  {
    TotalPagesCover(|rows|, EXPORT_PAGE_SIZE);
    NeverFails(rows, EXPORT_PAGE_SIZE, k);
    FaithfulStop(rows, EXPORT_PAGE_SIZE, k);
    GatheredAll(rows, EXPORT_PAGE_SIZE, k);
  }

  /** The report holds every row when there are at most the ceiling's, and fails otherwise. */
  lemma ReportsAllOrFails<T>(rows: seq<T>, res: Result<seq<T>>, k: nat)
    requires Reported(Faithful(rows), res, k)
    ensures res == if |rows| <= 10_000 then Ok(rows) else Err(Invalid)
  {
    NeverFails(rows, REPORT_PAGE_SIZE, k);
    GatheredFaithful(rows, REPORT_PAGE_SIZE, k);
    if Settles(Faithful(rows), REPORT_PAGE_SIZE, k) {
      GatheredAll(rows, REPORT_PAGE_SIZE, k);
    }
    hide Gathered, Settles;
  }

  // ------------------------------------------------------------ the earliest match

  /** Time zero stands for a match without a creation time. */
  predicate EarliestOf(times: seq<int>, first: int) {
    && (first != 0 <==> exists t :: t in times && t != 0)
    && (first != 0 ==> first in times && forall t :: t in times && t != 0 ==> first <= t)
  }

  /** This loop counts the rows a page ends at by its position, not by what was delivered. */
  predicate PastTotal(read: Reader<int>, k: nat) {
    var p := NewPage(k, MAX_PAGE_SIZE);
    read(p).Ok? && (read(p).value.rows == [] || Offset(p) + |read(p).value.rows| >= read(p).value.total)
  }

  ghost predicate Scanned(read: Reader<int>, k: nat) {
    && k >= 1
    && (forall j: nat :: 1 <= j < k ==> !Fails(read, MAX_PAGE_SIZE, j) && !PastTotal(read, j))
    && (Fails(read, MAX_PAGE_SIZE, k) || PastTotal(read, k))
  }

  /** The earliest set time so far, with the times of one more page. */
  method EarliestOnPage(matches: seq<int>, earliest: int, ghost before: seq<int>) returns (first: int)
    requires EarliestOf(before, earliest)
    ensures EarliestOf(before + matches, first)
  {
    hide EarliestOf;
    first := earliest;
    assert before + matches[..0] == before;
    for i := 0 to |matches|
      invariant EarliestOf(before + matches[..i], first)
    {
      EarliestExtends(before + matches[..i], first, matches[i]);
      assert before + matches[..i + 1] == before + matches[..i] + [matches[i]];
      if matches[i] == 0 {
        continue;
      }
      if first == 0 || matches[i] < first {
        first := matches[i];
      }
    }
    assert matches[..|matches|] == matches;
  }

  method FirstMatchCreatedAt(read: Reader<int>, ghost last: nat) returns (first: int, ok: bool, pages: nat)
    requires last >= 1 && (Fails(read, MAX_PAGE_SIZE, last) || PastTotal(read, last))
    ensures Scanned(read, pages) && pages <= last
    ensures Fails(read, MAX_PAGE_SIZE, pages) ==> first == 0 && !ok
    ensures PastTotal(read, pages) ==> EarliestOf(Gathered(read, MAX_PAGE_SIZE, pages), first) && ok == (first != 0)
  {
    hide EarliestOf, Clamped, Offset;
    var page := NewPage(1, MAX_PAGE_SIZE);
    first := 0;
    NoneEarliest();
    while true
      invariant 1 <= page.number <= last && page == NewPage(page.number, MAX_PAGE_SIZE)
      invariant EarliestOf(Gathered(read, MAX_PAGE_SIZE, page.number - 1), first)
      invariant forall j: nat :: 1 <= j < page.number ==> !Fails(read, MAX_PAGE_SIZE, j) && !PastTotal(read, j)
      decreases last - page.number
    {
      var r := read(page);
      if r.Err? {
        return 0, false, page.number;
      }
      var matches, total := r.value.rows, r.value.total;
      first := EarliestOnPage(matches, first, Gathered(read, MAX_PAGE_SIZE, page.number - 1));
      if |matches| == 0 || Offset(page) + |matches| >= total {
        return first, first != 0, page.number;
      }
      page := NewPage(page.number + 1, MAX_PAGE_SIZE);
    }
  }

  /** Where the totals reported are bounded, this loop ends too. */
  lemma ScanEndsWithinTotals(read: Reader<int>, bound: int)
    requires TotalsWithin(read, bound)
    ensures var last: nat := Max(1, bound); Fails(read, MAX_PAGE_SIZE, last) || PastTotal(read, last)
  {
    var k := Max(1, bound);
    OffsetStep(k, MAX_PAGE_SIZE);
    assert NewPage(k, MAX_PAGE_SIZE) == Page(k, MAX_PAGE_SIZE);
    hide Offset;
  }

  lemma NoneEarliest()
    ensures EarliestOf([], 0)
  {
  }

  lemma EarliestExtends(times: seq<int>, first: int, t: int)
    requires EarliestOf(times, first)
    ensures EarliestOf(times + [t], if t != 0 && (first == 0 || t < first) then t else first)
  {
    if first != 0 {
      assert first in times + [t];
    }
    assert t in times + [t];
  }

  /** Over a faithful repository the loop ends with the earliest time of all the rows. */
  lemma EarliestOfAll(rows: seq<int>, first: int, k: nat)
    requires Scanned(Faithful(rows), k) && EarliestOf(Gathered(Faithful(rows), MAX_PAGE_SIZE, k), first)
    ensures EarliestOf(rows, first)
  {
    NeverFails(rows, MAX_PAGE_SIZE, k);
    GatheredFaithful(rows, MAX_PAGE_SIZE, k);
    OffsetStep(k, MAX_PAGE_SIZE);
    hide Gathered;
    assert Gathered(Faithful(rows), MAX_PAGE_SIZE, k) == rows;
  }
}
