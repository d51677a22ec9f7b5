/**
 * The week listing behind `/api/timesheets`: 99 synthetic weeks generated
 * once from an index rule and cached, then filtered by status and cut into
 * pages.
 */
module Timesheets {
  import opened Common
  import opened Text

  datatype Status = Completed | Incomplete | Missing

  /** The status as it travels in JSON and in the `status` query parameter. */
  function StatusName(s: Status): string {
    match s
    case Completed => "COMPLETED"
    case Incomplete => "INCOMPLETE"
    case Missing => "MISSING"
  }

  /**
   * A `TimesheetWeek`. `startDay` and `endDay` count days from 2024-01-01,
   * the generator's fixed start; the route prints them as "D Month, YYYY"
   * labels, which are not modelled.
   */
  datatype Week = Week(
    id: string,
    weekNumber: int,
    startDay: int,
    endDay: int,
    status: Status,
    totalHours: int,
    targetHours: int)

  const WeekCount: nat := 99

  /** Weeks from this index on are in the future and have no timesheet. */
  const FirstMissing: nat := 85

  // ---------------------------------------------------------------------------
  // Generation
  // ---------------------------------------------------------------------------

  function StatusOf(i: nat): Status {
    if i < FirstMissing then (if i % 7 == 2 then Incomplete else Completed) else Missing
  }

  /**
   * The week at index `i`. `roll(i)` stands for the `Math.random()` draw of
   * that week, so `roll(i) % 30` is `Math.floor(Math.random() * 30)`.
   */
  function MakeWeek(i: nat, roll: nat -> nat): Week {
    var status := StatusOf(i);
    var hours := match status
      case Completed => 40
      case Incomplete => roll(i) % 30 + 10
      case Missing => 0;
    Week("week-" + NatToString(i + 1), i + 1, 7 * i, 7 * i + 6, status, hours, TargetHours)
  }

  /** The first `n` iterations of the generator's loop. */
  function GenerateFirst(n: nat, roll: nat -> nat): (ws: seq<Week>)
    ensures |ws| == n
    ensures forall i :: 0 <= i < n ==>
      && ws[i].weekNumber == i + 1
      && ws[i].id == "week-" + NatToString(i + 1)
      && ws[i].startDay == 7 * i && ws[i].endDay == ws[i].startDay + 6
      && (ws[i].status == Incomplete <==> i < 85 && i % 7 == 2)
      && (ws[i].status == Missing <==> i >= 85)
      && (ws[i].status == Completed ==> ws[i].totalHours == 40)
      && (ws[i].status == Incomplete ==> 10 <= ws[i].totalHours <= 39)
      && (ws[i].status == Missing ==> ws[i].totalHours == 0)
      && ws[i].targetHours == 40
  {
    if n == 0 then [] else GenerateFirst(n - 1, roll) + [MakeWeek(n - 1, roll)]
  }

  /** `generateMockTimesheets`. */
  function Generate(roll: nat -> nat): seq<Week> {
    GenerateFirst(WeekCount, roll)
  }

  /** How many weeks of `ws` have status `s`. */
  function CountStatus(ws: seq<Week>, s: Status): nat {
    if |ws| == 0 then 0
    else CountStatus(ws[..|ws| - 1], s) + (if ws[|ws| - 1].status == s then 1 else 0)
  }

  function Min(a: int, b: int): int {
    if a < b then a else b
  }

  function Max(a: int, b: int): int {
    if a < b then b else a
  }

  /** Incomplete weeks among the first `n`: one at each index 2, 9, 16, … below 85. */
  function IncompleteBefore(n: nat): nat {
    (Min(n, FirstMissing) + 4) / 7
  }

  /** Missing weeks among the first `n`: every index from 85 on. */
  function MissingBefore(n: nat): nat {
    Max(n - FirstMissing, 0)
  }

  /** One more week adds one to the incomplete count exactly at the indices 2, 9, 16, … below 85. */
  lemma IncompleteStep(n: nat)
    ensures IncompleteBefore(n + 1) == IncompleteBefore(n) + (if n < 85 && n % 7 == 2 then 1 else 0)
  {
    if n < 85 {
      var q, m := n / 7, n % 7;
      assert n == 7 * q + m;
      if m < 2 {
        assert (n + 4) / 7 == q && (n + 5) / 7 == q;
      } else if m == 2 {
        assert (n + 4) / 7 == q && (n + 5) / 7 == q + 1;
      } else {
        assert (n + 4) / 7 == q + 1 && (n + 5) / 7 == q + 1;
      }
    }
  }

  /** Appending one week adds one to its own status's count and nothing to the others. */
  lemma CountStatusAppend(ws: seq<Week>, w: Week, s: Status)
    ensures CountStatus(ws + [w], s) == CountStatus(ws, s) + (if w.status == s then 1 else 0)
  {
    assert (ws + [w])[..|ws|] == ws;
  }

  lemma {:induction false} PrefixCounts(n: nat, roll: nat -> nat)
    ensures CountStatus(GenerateFirst(n, roll), Incomplete) == IncompleteBefore(n)
    ensures CountStatus(GenerateFirst(n, roll), Missing) == MissingBefore(n)
    ensures CountStatus(GenerateFirst(n, roll), Completed) == n - IncompleteBefore(n) - MissingBefore(n)
  {
    if n > 0 {
      var prev, w := GenerateFirst(n - 1, roll), MakeWeek(n - 1, roll);
      assert GenerateFirst(n, roll) == prev + [w];
      PrefixCounts(n - 1, roll);
      IncompleteStep(n - 1);
      CountStatusAppend(prev, w, Incomplete);
      CountStatusAppend(prev, w, Missing);
      CountStatusAppend(prev, w, Completed);
      assert w.status == StatusOf(n - 1);
      assert MissingBefore(n) == MissingBefore(n - 1) + (if n - 1 >= FirstMissing then 1 else 0);
    }
  }

  /** The generator yields 73 completed, 12 incomplete and 14 missing weeks. */
  lemma GeneratedStatusCounts(roll: nat -> nat)
    ensures CountStatus(Generate(roll), Completed) == 73
    ensures CountStatus(Generate(roll), Incomplete) == 12
    ensures CountStatus(Generate(roll), Missing) == 14
  {
    PrefixCounts(WeekCount, roll);
  }

  /** Consecutive weeks tile the calendar: each starts the day after the previous one ends. */
  lemma WeeksAreConsecutive(roll: nat -> nat, i: nat)
    requires i + 1 < WeekCount
    ensures Generate(roll)[i + 1].startDay == Generate(roll)[i].endDay + 1
  {
  }

  // ---------------------------------------------------------------------------
  // Cache
  // ---------------------------------------------------------------------------

  /** `getTimesheets`: generate on the first read, then always answer from the cache. */
  function GetTimesheets(cache: Option<seq<Week>>, roll: nat -> nat): (r: (seq<Week>, Option<seq<Week>>))
    ensures r.1 == Some(r.0)
    ensures cache.Some? ==> r.0 == cache.value
    ensures cache.None? ==> r.0 == Generate(roll)
  {
    match cache
    case Some(ws) => (ws, cache)
    case None =>
      var ws := Generate(roll);
      (ws, Some(ws))
  }

  /** Once the weeks are generated, every later read returns the same list, whatever the random draws. */
  lemma CacheIsStable(cache: Option<seq<Week>>, roll1: nat -> nat, roll2: nat -> nat)
    ensures
      var (first, after) := GetTimesheets(cache, roll1);
      GetTimesheets(after, roll2) == (first, after)
  {
  }

  // ---------------------------------------------------------------------------
  // Query parameters
  // ---------------------------------------------------------------------------

  /** `searchParams.get(name)`: the first value given for `name`. */
  function Param(params: seq<(string, string)>, name: string): Option<string> {
    if |params| == 0 then None
    else if params[0].0 == name then Some(params[0].1)
    else Param(params[1..], name)
  }

  /** The parsed query with its defaults applied. */
  datatype Query = Query(page: int, perPage: int, status: Option<string>)

  /** A parameter that `value || fallback` replaces by its fallback: absent or empty. */
  predicate Blank(value: Option<string>) {
    value.None? || value.value == ""
  }

  /** A parameter `parseInt` reads as a number: blank (so the fallback is read) or a signed decimal numeral. */
  predicate Readable(value: Option<string>) {
    Blank(value) || ParseInt(value.value).Some?
  }

  /** `parseInt(value || fallback)` for a parameter that is absent, empty, or a signed decimal numeral. */
  function NumberParam(value: Option<string>, fallback: nat): Option<int> {
    if Blank(value) then Some(fallback) else ParseInt(value.value)
  }

  /**
   * Reads `page` (default 1), `perPage` (default 5) and `status` from the
   * query string; `None` when a number is not a signed decimal numeral.
   */
  function ReadQuery(params: seq<(string, string)>): (r: Option<Query>)
    ensures r.Some? <==> Readable(Param(params, "page")) && Readable(Param(params, "perPage"))
    ensures Blank(Param(params, "page")) && r.Some? ==> r.value.page == 1
    ensures Blank(Param(params, "perPage")) && r.Some? ==> r.value.perPage == 5
    ensures !Blank(Param(params, "page")) && r.Some? ==> ParseInt(Param(params, "page").value) == Some(r.value.page)
    ensures !Blank(Param(params, "perPage")) && r.Some? ==> ParseInt(Param(params, "perPage").value) == Some(r.value.perPage)
    ensures Blank(Param(params, "page")) && Blank(Param(params, "perPage")) ==> r == Some(Query(1, 5, Param(params, "status")))
    ensures r.Some? ==> r.value.status == Param(params, "status")
  {
    match (NumberParam(Param(params, "page"), 1), NumberParam(Param(params, "perPage"), 5))
    case (Some(page), Some(perPage)) => Some(Query(page, perPage, Param(params, "status")))
    case _ => None
  }

  /** A request with no query string reads as page 1 of five, unfiltered. */
  lemma EmptyQueryDefaults()
    ensures ReadQuery([]) == Some(Query(1, 5, None))
  {
  }

  // ---------------------------------------------------------------------------
  // Filtering and pagination
  // ---------------------------------------------------------------------------

  /** Whether the `status` parameter asks for filtering: present, non-empty and not "all". */
  predicate Filters(status: Option<string>) {
    status.Some? && status.value != "" && status.value != "all"
  }

  /** `timesheets.filter((t) => t.status === status)`. */
  function WithStatus(ws: seq<Week>, status: string): seq<Week> {
    if |ws| == 0 then []
    else
      var last := ws[|ws| - 1];
      WithStatus(ws[..|ws| - 1], status) + (if StatusName(last.status) == status then [last] else [])
  }

  /** The status filter keeps each week, as often as it occurs, exactly when its status is the one asked for. */
  lemma {:induction false} WithStatusCounts(ws: seq<Week>, status: string)
    ensures forall w :: (multiset(WithStatus(ws, status))[w] == if StatusName(w.status) == status then multiset(ws)[w] else 0)
    decreases |ws|
  {
    if |ws| > 0 {
      var init := ws[..|ws| - 1];
      assert ws == init + [ws[|ws| - 1]];
      WithStatusCounts(init, status);
    }
  }

  /** The status filter works week by week, left to right, so it keeps the original order. */
  lemma {:induction false} WithStatusConcat(a: seq<Week>, b: seq<Week>, status: string)
    ensures WithStatus(a + b, status) == WithStatus(a, status) + WithStatus(b, status)
    decreases |b|
  {
    if |b| > 0 {
      var init := b[..|b| - 1];
      assert (a + b)[..|a + b| - 1] == a + init;
      assert (a + b)[|a + b| - 1] == b[|b| - 1];
      WithStatusConcat(a, init, status);
    } else {
      assert a + b == a;
    }
  }

  function Filtered(ws: seq<Week>, status: Option<string>): seq<Week> {
    if Filters(status) then WithStatus(ws, status.value) else ws
  }

  /** `Math.ceil(total / perPage)`. */
  function CeilDiv(total: nat, perPage: nat): (pages: nat)
    requires perPage >= 1
    ensures pages * perPage >= total
    ensures pages > 0 ==> (pages - 1) * perPage < total
  {
    var q := (total + perPage - 1) / perPage;
    assert total + perPage - 1 == q * perPage + (total + perPage - 1) % perPage;
    assert (q - 1) * perPage == q * perPage - perPage;
    q
  }

  /** Where a `slice` bound lands: a negative one counts back from the end, and either is clamped to the list. */
  function SliceIndex(i: int, len: nat): (k: nat)
    ensures k <= len
  {
    if i < 0 then Max(len + i, 0) else Min(i, len)
  }

  /** `s.slice(start, end)`: the items between the two landed bounds, or none when they cross. */
  function JsSlice<T>(s: seq<T>, start: int, end: int): (r: seq<T>)
    ensures forall x :: x in r ==> x in s
    ensures start <= end ==> |r| <= end - start
    ensures 0 <= start <= end && start >= |s| ==> r == []
    ensures 0 <= start <= end && start < |s| ==> r == s[start..Min(end, |s|)]
  {
    var from, to := SliceIndex(start, |s|), SliceIndex(end, |s|);
    if from < to then s[from..to] else []
  }

  /** The items of page `page`, counting from 1: `slice((page - 1) * perPage, (page - 1) * perPage + perPage)`. */
  function PageOf<T>(s: seq<T>, page: int, perPage: nat): seq<T>
    requires perPage >= 1
  {
    JsSlice(s, (page - 1) * perPage, (page - 1) * perPage + perPage)
  }

  /** The `pagination` object of the response. */
  datatype Pagination = Pagination(currentPage: int, totalPages: int, perPage: int, total: int)

  datatype Listing = Listing(data: seq<Week>, pagination: Pagination)

  lemma MulMonotone(a: int, b: int, c: nat)
    requires a <= b
    ensures a * c <= b * c
  {
    assert b * c == a * c + (b - a) * c;
  }

  /** Where page `page` starts relative to the list, for pages inside and past the count. */
  lemma PageStart(total: nat, page: int, perPage: nat)
    requires perPage >= 1
    ensures var tp := CeilDiv(total, perPage); var start := (page - 1) * perPage;
      && (page > tp ==> start >= total)
      && (1 <= page <= tp ==> 0 <= start < total)
      && (1 <= page < tp ==> start + perPage <= total)
  {
    var tp := CeilDiv(total, perPage);
    var start := (page - 1) * perPage;
    if page > tp {
      MulMonotone(tp, page - 1, perPage);
    }
    if 1 <= page <= tp {
      MulMonotone(page - 1, tp - 1, perPage);
    }
    if 1 <= page < tp {
      MulMonotone(page, tp - 1, perPage);
    }
  }

  /** One page is at most `perPage` long, full before the last page, non-empty up to it and empty past it or at 0. */
  lemma PageShape<T>(s: seq<T>, page: int, perPage: nat)
    requires perPage >= 1
    ensures var p := PageOf(s, page, perPage); var tp := CeilDiv(|s|, perPage);
      && |p| <= perPage
      && (1 <= page < tp ==> |p| == perPage)
      && (1 <= page <= tp ==> |p| > 0)
      && (page > tp || page == 0 ==> p == [])
  {
    PageStart(|s|, page, perPage);
  }

  /**
   * GET /api/timesheets on the cached weeks: the response echoes the page
   * and page size, counts over the filtered weeks, and returns one page of
   * them, full pages before the last and nothing past it.
   */
  function List(weeks: seq<Week>, q: Query): (r: Listing)
    requires q.perPage >= 1
    ensures r.pagination.currentPage == q.page && r.pagination.perPage == q.perPage
    ensures r.pagination.total == |Filtered(weeks, q.status)|
    ensures r.pagination.totalPages * q.perPage >= r.pagination.total
    ensures r.pagination.totalPages > 0 ==> (r.pagination.totalPages - 1) * q.perPage < r.pagination.total
    ensures |r.data| <= q.perPage
    ensures 1 <= q.page < r.pagination.totalPages ==> |r.data| == q.perPage
    ensures 1 <= q.page <= r.pagination.totalPages ==> |r.data| > 0
    ensures q.page > r.pagination.totalPages || q.page == 0 ==> r.data == []
    ensures forall w :: w in r.data ==> w in Filtered(weeks, q.status)
  {
    var filtered := Filtered(weeks, q.status);
    PageShape(filtered, q.page, q.perPage);
    Listing(PageOf(filtered, q.page, q.perPage), Pagination(q.page, CeilDiv(|filtered|, q.perPage), q.perPage, |filtered|))
  }

  /**
   * A negative page counts back from the end of the filtered list: page `-k`
   * holds the `perPage` weeks that end `k * perPage` weeks before the last one.
   */
  lemma NegativePageCountsFromEnd(weeks: seq<Week>, q: Query, k: nat)
    requires q.perPage >= 1 && k >= 1 && q.page + k == 0
    requires k * q.perPage + q.perPage <= |Filtered(weeks, q.status)|
    ensures
      var filtered, back := Filtered(weeks, q.status), k * q.perPage;
      List(weeks, q).data == filtered[|filtered| - back - q.perPage..|filtered| - back]
  {
    var filtered := Filtered(weeks, q.status);
    var len := |filtered|;
    var start, end := (q.page - 1) * q.perPage, (q.page - 1) * q.perPage + q.perPage;
    assert start == -((k + 1) * q.perPage);
    assert end == -(k * q.perPage) by {
      assert (k + 1) * q.perPage == k * q.perPage + q.perPage;
    }
    assert SliceIndex(start, len) == len - k * q.perPage - q.perPage;
    assert SliceIndex(end, len) == len - k * q.perPage;
    assert List(weeks, q).data == JsSlice(filtered, start, end);
  }

  /** With a status asked for, a page holds only weeks of that status. */
  lemma ListShowsRequestedStatus(weeks: seq<Week>, q: Query)
    requires q.perPage >= 1
    requires Filters(q.status)
    ensures forall w :: w in List(weeks, q).data ==> StatusName(w.status) == q.status.value
  {
    var filtered := Filtered(weeks, q.status);
    WithStatusCounts(weeks, q.status.value);
    forall w | w in List(weeks, q).data ensures StatusName(w.status) == q.status.value {
      assert w in filtered;
      assert multiset(filtered)[w] > 0;
    }
  }

  /** Pages 1..n laid end to end. */
  function FirstPages<T>(s: seq<T>, perPage: nat, n: nat): seq<T>
    requires perPage >= 1
  {
    if n == 0 then [] else FirstPages(s, perPage, n - 1) + PageOf(s, n, perPage)
  }

  lemma {:induction false} FirstPagesArePrefix<T>(s: seq<T>, perPage: nat, n: nat)
    requires perPage >= 1
    ensures FirstPages(s, perPage, n) == s[..Min(n * perPage, |s|)]
  {
    if n > 0 {
      FirstPagesArePrefix(s, perPage, n - 1);
      var start := (n - 1) * perPage;
      assert n * perPage == start + perPage;
      if start < |s| {
        assert s[..start] + s[start..Min(n * perPage, |s|)] == s[..Min(n * perPage, |s|)];
      }
    }
  }

  /** Concatenating pages 1..totalPages gives back the filtered list. */
  lemma PagesCoverFiltered(weeks: seq<Week>, status: Option<string>, perPage: nat)
    requires perPage >= 1
    ensures
      var filtered := Filtered(weeks, status);
      FirstPages(filtered, perPage, CeilDiv(|filtered|, perPage)) == filtered
  {
    var filtered := Filtered(weeks, status);
    FirstPagesArePrefix(filtered, perPage, CeilDiv(|filtered|, perPage));
  }
}
