/**
 * The paginated week table: its pagination state, the handlers that move it,
 * the query it sends to `/api/timesheets`, the page-number bar and the
 * per-status action.
 */
module TableView {
  import opened Common
  import opened Text
  import opened Timesheets

  // ---------------------------------------------------------------------------
  // State, handlers and the request
  // ---------------------------------------------------------------------------

  datatype StatusFilter = All | Only(status: Status)

  /** The table's state: the rows on show, the `PaginationState`, the filter and the error line. */
  datatype TableState = TableState(
    weeks: seq<Week>,
    pagination: Pagination,
    filter: StatusFilter,
    error: Option<string>)

  /** The state on mount: page 1 of 1, five per page, no filter. */
  const Initial: TableState := TableState([], Pagination(1, 1, 5, 0), All, None)

  /** `handlePageChange`. */
  function PageChange(s: TableState, page: int): (r: TableState)
    ensures r.pagination.currentPage == page
    ensures r.pagination.(currentPage := s.pagination.currentPage) == s.pagination
    ensures r.filter == s.filter && r.weeks == s.weeks
  {
    s.(pagination := s.pagination.(currentPage := page))
  }

  /** `handlePerPageChange`: the new page size, back to page 1. */
  function PerPageChange(s: TableState, perPage: int): (r: TableState)
    ensures r.pagination.currentPage == 1 && r.pagination.perPage == perPage
    ensures r.pagination.totalPages == s.pagination.totalPages && r.pagination.total == s.pagination.total
    ensures r.filter == s.filter
  {
    s.(pagination := s.pagination.(perPage := perPage, currentPage := 1))
  }

  /** `handleStatusFilterChange`: the new filter, back to page 1. */
  function FilterChange(s: TableState, filter: StatusFilter): (r: TableState)
    ensures r.filter == filter && r.pagination.currentPage == 1
    ensures r.pagination.perPage == s.pagination.perPage
  {
    s.(filter := filter, pagination := s.pagination.(currentPage := 1))
  }

  /** The `status` value the request carries for a filter, if any. */
  function FilterParam(f: StatusFilter): Option<string> {
    match f
    case All => None
    case Only(st) => Some(StatusName(st))
  }

  /** The page and the page size are numbers JavaScript prints in plain decimal. */
  predicate PlainPagination(s: TableState) {
    PrintsPlain(s.pagination.currentPage) && PrintsPlain(s.pagination.perPage)
  }

  /** The `URLSearchParams` of `fetchTimesheets`: `page` and `perPage` always, `status` unless the filter is "all". */
  function BuildQuery(s: TableState): seq<(string, string)>
    requires PlainPagination(s)
  {
    var base := [("page", IntToString(s.pagination.currentPage)), ("perPage", IntToString(s.pagination.perPage))];
    match s.filter
    case All => base
    case Only(st) => base + [("status", StatusName(st))]
  }

  /** `searchParams.get` skips entries with other names. */
  lemma ParamSkip(params: seq<(string, string)>, first: (string, string), name: string)
    requires first.0 != name
    ensures Param([first] + params, name) == Param(params, name)
  {
    assert ([first] + params)[1..] == params;
  }

  /** The route reads back exactly the page, page size and filter the table sent. */
  lemma QueryRoundTrip(s: TableState)
    requires PlainPagination(s)
    ensures ReadQuery(BuildQuery(s)) == Some(Query(s.pagination.currentPage, s.pagination.perPage, FilterParam(s.filter)))
  {
    ParseIntToString(s.pagination.currentPage);
    ParseIntToString(s.pagination.perPage);
    var page, perPage := ("page", IntToString(s.pagination.currentPage)), ("perPage", IntToString(s.pagination.perPage));
    var rest: seq<(string, string)> := if s.filter.Only? then [("status", StatusName(s.filter.status))] else [];
    assert BuildQuery(s) == [page] + ([perPage] + rest);
    ParamSkip([perPage] + rest, page, "perPage");
    ParamSkip([perPage] + rest, page, "status");
    ParamSkip(rest, perPage, "status");
  }

  lemma StatusNameInjective(a: Status, b: Status)
    requires StatusName(a) == StatusName(b)
    ensures a == b
  {
  }

  /** With a status filter chosen, every row the route answers with has that status. */
  lemma FilteredRequestShowsOnlyThatStatus(s: TableState, weeks: seq<Week>, st: Status)
    requires s.filter == Only(st)
    requires s.pagination.perPage >= 1 && PlainPagination(s)
    ensures ReadQuery(BuildQuery(s)) == Some(Query(s.pagination.currentPage, s.pagination.perPage, Some(StatusName(st))))
    ensures forall w :: w in List(weeks, Query(s.pagination.currentPage, s.pagination.perPage, Some(StatusName(st)))).data ==>
      w.status == st
  {
    QueryRoundTrip(s);
    var q := Query(s.pagination.currentPage, s.pagination.perPage, Some(StatusName(st)));
    ListShowsRequestedStatus(weeks, q);
    forall w | w in List(weeks, q).data ensures w.status == st {
      StatusNameInjective(w.status, st);
    }
  }

  /** The table's first request, on mount, asks for page 1 of five, unfiltered. */
  lemma FirstRequestIsDefault()
    ensures ReadQuery(BuildQuery(Initial)) == Some(Query(1, 5, None))
  {
    QueryRoundTrip(Initial);
  }

  /** After a change of filter or page size the next request asks for page 1. */
  lemma ChangesRequestFirstPage(s: TableState, filter: StatusFilter, perPage: int)
    requires PrintsPlain(s.pagination.perPage) && PrintsPlain(perPage)
    ensures ReadQuery(BuildQuery(FilterChange(s, filter))) == Some(Query(1, s.pagination.perPage, FilterParam(filter)))
    ensures ReadQuery(BuildQuery(PerPageChange(s, perPage))) == Some(Query(1, perPage, FilterParam(s.filter)))
  {
    QueryRoundTrip(FilterChange(s, filter));
    QueryRoundTrip(PerPageChange(s, perPage));
  }

  /**
   * `fetchTimesheets` receiving the route's reply: on success the rows and the
   * pagination are the server's; on failure only the error line changes.
   */
  function Loaded(s: TableState, reply: Reply<Listing>): (r: TableState)
    ensures reply.Ok? ==> r.weeks == reply.data.data && r.pagination == reply.data.pagination && r.error.None?
    ensures reply.Fail? ==> r.(error := s.error) == s && r.error.Some?
    ensures reply.Fail? && reply.error != "" ==> r.error == Some(reply.error)
  {
    match reply
    case Ok(listing) => s.(weeks := listing.data, pagination := listing.pagination, error := None)
    case Fail(_, message) => s.(error := Some(if message == "" then "Failed to fetch timesheets" else message))
  }

  /**
   * Loading the route's answer to the table's own request keeps the page,
   * the page size and the filter the request was made for, so the fetch is
   * not triggered again.
   */
  lemma LoadKeepsRequestedPage(s: TableState, weeks: seq<Week>)
    requires s.pagination.perPage >= 1 && PlainPagination(s)
    ensures ReadQuery(BuildQuery(s)) == Some(Query(s.pagination.currentPage, s.pagination.perPage, FilterParam(s.filter)))
    ensures
      var r := Loaded(s, Ok(List(weeks, Query(s.pagination.currentPage, s.pagination.perPage, FilterParam(s.filter)))));
      && r.pagination.currentPage == s.pagination.currentPage
      && r.pagination.perPage == s.pagination.perPage
      && r.filter == s.filter
      && r.pagination.total == |Filtered(weeks, FilterParam(s.filter))|
  {
    QueryRoundTrip(s);
  }

  // ---------------------------------------------------------------------------
  // Previous and Next
  // ---------------------------------------------------------------------------

  predicate PrevDisabled(p: Pagination) {
    p.currentPage == 1
  }

  predicate NextDisabled(p: Pagination) {
    p.currentPage == p.totalPages
  }

  /** From a page in range, an enabled Previous or Next leads to a page in range. */
  lemma NavigationStaysInRange(s: TableState)
    requires 1 <= s.pagination.currentPage <= s.pagination.totalPages
    ensures !PrevDisabled(s.pagination) ==>
      1 <= PageChange(s, s.pagination.currentPage - 1).pagination.currentPage <= s.pagination.totalPages
    ensures !NextDisabled(s.pagination) ==>
      1 <= PageChange(s, s.pagination.currentPage + 1).pagination.currentPage <= s.pagination.totalPages
    ensures PrevDisabled(s.pagination) && NextDisabled(s.pagination) <==> s.pagination.totalPages == 1
  {
  }

  // ---------------------------------------------------------------------------
  // The page-number bar
  // ---------------------------------------------------------------------------

  datatype PageItem = Number(n: int) | Ellipsis

  /** The numbers `lo`, `lo + 1`, …, `hi` (empty when `lo > hi`). */
  function Run(lo: int, hi: int): (r: seq<PageItem>)
    ensures |r| == if lo <= hi then hi - lo + 1 else 0
    ensures forall k :: 0 <= k < |r| ==> r[k] == Number(lo + k)
  {
    if lo <= hi then seq(hi - lo + 1, k => Number(lo + k)) else []
  }

  /** The run shows every page number from `lo` to `hi`, no other and no ellipsis, in ascending order. */
  lemma RunHoldsExactly(lo: int, hi: int)
    ensures forall n :: Number(n) in Run(lo, hi) <==> lo <= n <= hi
    ensures Ellipsis !in Run(lo, hi)
    ensures Ascending(Run(lo, hi))
  {
    var r := Run(lo, hi);
    forall n | lo <= n <= hi ensures Number(n) in r {
      assert r[n - lo] == Number(n);
    }
  }

  /** The first and last neighbour of the current page the bar shows. */
  function RunStart(currentPage: int): int {
    Max(2, currentPage - 1)
  }

  function RunEnd(currentPage: int, totalPages: int): int {
    Min(totalPages - 1, currentPage + 1)
  }

  /** Page 1, then an ellipsis when the current page is past 3. */
  function Head(currentPage: int): seq<PageItem> {
    [Number(1)] + (if currentPage > 3 then [Ellipsis] else [])
  }

  /** An ellipsis when more than two pages follow the current one, then the last page when there are several. */
  function Tail(currentPage: int, totalPages: int): seq<PageItem> {
    (if currentPage < totalPages - 2 then [Ellipsis] else [])
    + (if totalPages > 1 then [Number(totalPages)] else [])
  }

  /** The page list, declaratively: its head, the run of neighbours, its tail. */
  function Layout(currentPage: int, totalPages: int): seq<PageItem> {
    Head(currentPage) + Run(RunStart(currentPage), RunEnd(currentPage, totalPages)) + Tail(currentPage, totalPages)
  }

  /** Page numbers strictly increase along the list, so none repeats. */
  predicate Ascending(pages: seq<PageItem>) {
    forall i, j :: 0 <= i < j < |pages| && pages[i].Number? && pages[j].Number? ==> pages[i].n < pages[j].n
  }

  predicate Below(pages: seq<PageItem>, bound: int) {
    forall i :: 0 <= i < |pages| && pages[i].Number? ==> pages[i].n < bound
  }

  predicate AtLeast(pages: seq<PageItem>, bound: int) {
    forall i :: 0 <= i < |pages| && pages[i].Number? ==> bound <= pages[i].n
  }

  lemma AscendingConcat(a: seq<PageItem>, b: seq<PageItem>, mid: int)
    requires Ascending(a) && Ascending(b)
    requires Below(a, mid) && AtLeast(b, mid)
    ensures Ascending(a + b)
  {
    var c := a + b;
    forall i, j | 0 <= i < j < |c| && c[i].Number? && c[j].Number? ensures c[i].n < c[j].n {
      if j < |a| {
        assert c[i] == a[i] && c[j] == a[j];
      } else if i >= |a| {
        assert c[i] == b[i - |a|] && c[j] == b[j - |a|];
      } else {
        assert c[i] == a[i] && c[j] == b[j - |a|];
      }
    }
  }

  lemma BelowConcat(a: seq<PageItem>, b: seq<PageItem>, bound: int)
    requires Below(a, bound) && Below(b, bound)
    ensures Below(a + b, bound)
  {
    var c := a + b;
    forall i | 0 <= i < |c| && c[i].Number? ensures c[i].n < bound {
      if i >= |a| {
        assert c[i] == b[i - |a|];
      }
    }
  }

  /** Page numbers increase along the list, whatever the two inputs. */
  lemma LayoutAscending(currentPage: int, totalPages: int)
    ensures Ascending(Layout(currentPage, totalPages))
  {
    var lo, hi := RunStart(currentPage), RunEnd(currentPage, totalPages);
    var head, run, tail := Head(currentPage), Run(lo, hi), Tail(currentPage, totalPages);
    AscendingConcat(head, run, 2);
    var mid := if totalPages > 1 then totalPages else Max(2, hi + 1);
    assert Below(run, mid);
    BelowConcat(head, run, mid);
    AscendingConcat(head + run, tail, mid);
  }

  /** A current page in range is always on the list. */
  lemma LayoutShowsCurrent(currentPage: int, totalPages: int)
    requires 1 <= currentPage <= totalPages
    ensures Number(currentPage) in Layout(currentPage, totalPages)
  {
    var lo, hi := RunStart(currentPage), RunEnd(currentPage, totalPages);
    var head, run, tail := Head(currentPage), Run(lo, hi), Tail(currentPage, totalPages);
    var l := Layout(currentPage, totalPages);
    if currentPage == 1 {
      assert l[0] == Number(1);
    } else if currentPage == totalPages {
      assert l[|l| - 1] == Number(totalPages);
    } else {
      assert run[currentPage - lo] == Number(currentPage);
      assert l[|head| + currentPage - lo] == run[currentPage - lo];
    }
  }

  /** With the current page in range, an ellipsis follows page 1 exactly when the current page is past 3. */
  lemma LeadingEllipsis(currentPage: int, totalPages: int)
    requires 1 <= currentPage <= totalPages
    ensures
      var l := Layout(currentPage, totalPages);
      |l| > 1 && l[1] == Ellipsis <==> currentPage > 3
  {
    var lo, hi := RunStart(currentPage), RunEnd(currentPage, totalPages);
    var head, run, tail := Head(currentPage), Run(lo, hi), Tail(currentPage, totalPages);
    var l := Layout(currentPage, totalPages);
    if currentPage <= 3 && |l| > 1 {
      assert |head| == 1;
      if |run| > 0 {
        assert l[1] == run[0];
      } else {
        assert l[1] == tail[0];
      }
    }
  }

  /**
   * With the current page in range and several pages, an ellipsis precedes
   * the last page exactly when more than two pages follow the current one.
   */
  lemma TrailingEllipsis(currentPage: int, totalPages: int)
    requires 1 <= currentPage <= totalPages && totalPages > 1
    ensures
      var l := Layout(currentPage, totalPages);
      |l| >= 2 && (l[|l| - 2] == Ellipsis <==> currentPage < totalPages - 2)
  {
    var lo, hi := RunStart(currentPage), RunEnd(currentPage, totalPages);
    var head, run, tail := Head(currentPage), Run(lo, hi), Tail(currentPage, totalPages);
    var l := Layout(currentPage, totalPages);
    assert l == (head + run) + tail;
    if currentPage < totalPages - 2 {
      assert |tail| == 2;
      assert l[|l| - 2] == tail[0];
    } else {
      assert tail == [Number(totalPages)];
      assert l[|l| - 2] == (head + run)[|head + run| - 1];
      if |run| == 0 {
        assert currentPage <= 3;
      }
    }
  }

  /** The last page closes the list exactly when there is more than one page. */
  lemma LastPageShown(currentPage: int, totalPages: int)
    ensures
      var l := Layout(currentPage, totalPages);
      |l| > 1 && l[|l| - 1] == Number(totalPages) <==> totalPages > 1
  {
  }

  lemma RunExtend(lo: int, i: int)
    requires lo <= i
    ensures Run(lo, i - 1) + [Number(i)] == Run(lo, i)
  {
  }

  /**
   * `renderPagination`'s list of page numbers and ellipses. The `includes`
   * check in the loop never fires: every number the loop reaches is larger
   * than all numbers already pushed.
   */
  method RenderPagination(currentPage: int, totalPages: int) returns (pages: seq<PageItem>)
    ensures pages == Layout(currentPage, totalPages)
    ensures |pages| > 0 && pages[0] == Number(1)
    ensures Ascending(pages)
    ensures 1 <= currentPage <= totalPages ==> Number(currentPage) in pages
  {
    pages := [Number(1)];
    if currentPage > 3 {
      pages := pages + [Ellipsis];
    }
    var lo, hi := RunStart(currentPage), RunEnd(currentPage, totalPages);
    var i := lo;
    while i <= hi
      invariant lo <= i <= Max(lo, hi + 1)
      invariant pages == Head(currentPage) + Run(lo, i - 1)
      invariant Below(pages, i)
    {
      if Number(i) !in pages {
        RunExtend(lo, i);
        pages := pages + [Number(i)];
      }
      i := i + 1;
    }
    assert pages == Head(currentPage) + Run(lo, hi);
    pages := pages + Tail(currentPage, totalPages);
    LayoutAscending(currentPage, totalPages);
    if 1 <= currentPage <= totalPages {
      LayoutShowsCurrent(currentPage, totalPages);
    }
  }

  // ---------------------------------------------------------------------------
  // Row actions
  // ---------------------------------------------------------------------------

  /** Which callback of the table's props a row's button calls. */
  datatype Callback = ViewWeek | CreateEntry

  datatype Action = Action(text: string, onClick: Callback)

  /** `getActionButton`. */
  function ActionFor(status: Status): Action {
    match status
    case Completed => Action("View", ViewWeek)
    case Incomplete => Action("Update", ViewWeek)
    case Missing => Action("Create", CreateEntry)
  }

  /** Only a week without a timesheet offers creation, and the button text tells the three statuses apart. */
  lemma ActionsFollowStatus(a: Status, b: Status)
    ensures ActionFor(a).onClick == CreateEntry <==> a == Missing
    ensures ActionFor(a).text == ActionFor(b).text ==> a == b
  {
  }
}
