/** components/users/users-data-table.tsx: the strip of page buttons under the users
    table, the navigation buttons beside it, and the filter controls above it. */
module UsersDataTable {
  import opened JsText
  import opened UserTypes

  function Max(a: int, b: int): int { if a < b then b else a }
  function Min(a: int, b: int): int { if a < b then a else b }

  /** How many consecutive page buttons the strip shows around the current page. */
  const ShowPages: int := 5

  /** One entry of the strip: a numbered button (highlighted when it is the current
      page) or an ellipsis marker. */
  datatype PageItem = PageButton(page: int, active: bool) | Ellipsis

  // ---------------------------------------------------------------------------
  // Page-number strip

  /** The window (startPage, endPage) of consecutive buttons: centred on the current
      page, shifted left near the end, never before page 1 nor after the last page. */
  function Window(currentPage: int, totalPages: int): (w: (int, int))
    ensures 1 <= w.0 && w.1 <= totalPages
    ensures totalPages >= 1 ==> w.0 <= w.1 && w.1 - w.0 + 1 == Min(ShowPages, totalPages)
    ensures totalPages < 1 ==> w == (1, totalPages)
    ensures 1 <= currentPage <= totalPages ==> w.0 <= currentPage <= w.1
  {
    var start := Max(1, currentPage - ShowPages / 2);
    var end := Min(totalPages, start + ShowPages - 1);
    if end - start + 1 < ShowPages then (Max(1, end - ShowPages + 1), end) else (start, end)
  }

  /** Buttons lo, lo+1, ..., hi in order. */
  function Run(lo: int, hi: int, currentPage: int): seq<PageItem>
    decreases hi - lo
  {
    if hi < lo then [] else Run(lo, hi - 1, currentPage) + [PageButton(hi, hi == currentPage)]
  }

  /** Page 1, and an ellipsis if page 2 is skipped, when the window starts later. */
  function Leading(startPage: int, currentPage: int): seq<PageItem>
  {
    if startPage > 1 then
      [PageButton(1, 1 == currentPage)] + (if startPage > 2 then [Ellipsis] else [])
    else []
  }

  /** The last page, preceded by an ellipsis if pages are skipped, when the window
      ends earlier. */
  function Trailing(endPage: int, totalPages: int, currentPage: int): seq<PageItem>
  {
    if endPage < totalPages then
      (if endPage < totalPages - 1 then [Ellipsis] else []) + [PageButton(totalPages, totalPages == currentPage)]
    else []
  }

  /** Specification of the strip the table renders. */
  function PageStrip(currentPage: int, totalPages: int): seq<PageItem>
  {
    var w := Window(currentPage, totalPages);
    Leading(w.0, currentPage) + Run(w.0, w.1, currentPage) + Trailing(w.1, totalPages, currentPage)
  }

  /** The strip builder as the table runs it: startPage is adjusted once, then the
      pages array is filled by push. */
  method BuildPageStrip(currentPage: int, totalPages: int) returns (pages: seq<PageItem>)
    ensures pages == PageStrip(currentPage, totalPages)
  {
    pages := [];
    var startPage := Max(1, currentPage - ShowPages / 2);
    var endPage := Min(totalPages, startPage + ShowPages - 1);
    if endPage - startPage + 1 < ShowPages {
      startPage := Max(1, endPage - ShowPages + 1);
    }
    assert (startPage, endPage) == Window(currentPage, totalPages);
    if startPage > 1 {
      pages := pages + [PageButton(1, 1 == currentPage)];
      if startPage > 2 {
        pages := pages + [Ellipsis];
      }
    }
    ghost var lead := pages;
    var i := startPage;
    while i <= endPage
      invariant startPage <= i <= Max(endPage + 1, startPage)
      invariant pages == lead + Run(startPage, i - 1, currentPage)
      decreases endPage - i
    {
      RunSnoc(lead, pages, startPage, i, currentPage);
      pages := pages + [PageButton(i, i == currentPage)];
      i := i + 1;
    }
    ghost var middle := pages;
    if endPage < totalPages {
      if endPage < totalPages - 1 {
        pages := pages + [Ellipsis];
      }
      pages := pages + [PageButton(totalPages, totalPages == currentPage)];
    }
    StripParts(currentPage, totalPages, startPage, endPage, i, lead, middle, pages);
  }

  /** One more push extends the run by the next page. */
  lemma RunSnoc(lead: seq<PageItem>, pages: seq<PageItem>, lo: int, i: int, currentPage: int)
    requires lo <= i
    requires pages == lead + Run(lo, i - 1, currentPage)
    ensures pages + [PageButton(i, i == currentPage)] == lead + Run(lo, i, currentPage)
  {
  }

  /** The three stretches BuildPageStrip pushes, in turn, make up PageStrip. */
  lemma StripParts(currentPage: int, totalPages: int, startPage: int, endPage: int, i: int,
                   lead: seq<PageItem>, middle: seq<PageItem>, pages: seq<PageItem>)
    requires (startPage, endPage) == Window(currentPage, totalPages)
    requires lead == Leading(startPage, currentPage)
    requires startPage <= i && (i == endPage + 1 || (i == startPage && endPage < startPage))
    requires middle == lead + Run(startPage, i - 1, currentPage)
    requires pages == middle + Trailing(endPage, totalPages, currentPage)
    ensures pages == PageStrip(currentPage, totalPages)
  {
    assert Run(startPage, i - 1, currentPage) == Run(startPage, endPage, currentPage);
  }

  /** A run holds exactly the pages lo..hi, in order, each highlighted iff current. */
  lemma {:induction false} RunAt(lo: int, hi: int, currentPage: int)
    ensures |Run(lo, hi, currentPage)| == if hi < lo then 0 else hi - lo + 1
    ensures forall k :: 0 <= k < |Run(lo, hi, currentPage)| ==>
              Run(lo, hi, currentPage)[k] == PageButton(lo + k, lo + k == currentPage)
    decreases hi - lo
  {
    if lo <= hi {
      RunAt(lo, hi - 1, currentPage);
    }
  }

  /** Page `p` has a button in `items`. */
  predicate Shows(items: seq<PageItem>, p: int)
  {
    exists k :: 0 <= k < |items| && items[k].PageButton? && items[k].page == p
  }

  /** Where each kind of entry sits in a strip of a non-empty table. */
  lemma {:induction false} StripLayout(currentPage: int, totalPages: int)
    requires totalPages >= 1
    ensures var w := Window(currentPage, totalPages);
            var strip := PageStrip(currentPage, totalPages);
            var lead := |Leading(w.0, currentPage)|;
            var mid := w.1 - w.0 + 1;
            && lead == (if w.0 > 2 then 2 else if w.0 > 1 then 1 else 0)
            && |strip| == lead + mid + |Trailing(w.1, totalPages, currentPage)|
            && |Trailing(w.1, totalPages, currentPage)| == (if w.1 < totalPages - 1 then 2 else if w.1 < totalPages then 1 else 0)
            && (lead > 0 ==> strip[0] == PageButton(1, 1 == currentPage))
            && (lead > 1 ==> strip[1] == Ellipsis)
            && (forall k :: lead <= k < lead + mid ==>
                  strip[k] == PageButton(w.0 + k - lead, w.0 + k - lead == currentPage))
            && (w.1 < totalPages ==> strip[|strip| - 1] == PageButton(totalPages, totalPages == currentPage))
            && (w.1 < totalPages - 1 ==> strip[|strip| - 2] == Ellipsis)
  {
    var w := Window(currentPage, totalPages);
    RunAt(w.0, w.1, currentPage);
  }

  /** Every button shows a page between 1 and totalPages, and the pages increase
      strictly from left to right (so none is shown twice). */
  lemma {:induction false} StripPagesIncrease(currentPage: int, totalPages: int)
    ensures var strip := PageStrip(currentPage, totalPages);
            forall k :: 0 <= k < |strip| && strip[k].PageButton? ==> 1 <= strip[k].page <= totalPages
    ensures var strip := PageStrip(currentPage, totalPages);
            forall i, j :: 0 <= i < j < |strip| && strip[i].PageButton? && strip[j].PageButton? ==>
              strip[i].page < strip[j].page
  {
    var strip := PageStrip(currentPage, totalPages);
    if totalPages < 1 {
      assert strip == [];
    } else {
      StripLayout(currentPage, totalPages);
    }
  }

  /** A page has a button exactly when it lies in 1..totalPages and is the first page,
      the last page, or inside the window. */
  lemma {:induction false} StripShowsPage(currentPage: int, totalPages: int, p: int)
    ensures var w := Window(currentPage, totalPages);
            Shows(PageStrip(currentPage, totalPages), p) <==>
              1 <= p <= totalPages && (p == 1 || p == totalPages || w.0 <= p <= w.1)
  {
    var w := Window(currentPage, totalPages);
    var strip := PageStrip(currentPage, totalPages);
    StripPagesIncrease(currentPage, totalPages);
    if totalPages < 1 {
      assert strip == [];
    } else {
      StripLayout(currentPage, totalPages);
      var lead := |Leading(w.0, currentPage)|;
      if 1 <= p <= totalPages && (p == 1 || p == totalPages || w.0 <= p <= w.1) {
        var k := if w.0 <= p <= w.1 then lead + p - w.0
                 else if p == 1 then 0
                 else |strip| - 1;
        assert strip[k].PageButton? && strip[k].page == p;
      }
    }
  }

  /** With at least one page, the first and the last page always have a button. */
  lemma FirstAndLastShown(currentPage: int, totalPages: int)
    requires totalPages >= 1
    ensures Shows(PageStrip(currentPage, totalPages), 1)
    ensures Shows(PageStrip(currentPage, totalPages), totalPages)
  {
    StripShowsPage(currentPage, totalPages, 1);
    StripShowsPage(currentPage, totalPages, totalPages);
  }

  /** An ellipsis follows page 1 iff the window starts after page 2, and one precedes the
      last page iff the window ends before the page before it. */
  lemma {:induction false} EllipsesAroundWindow(currentPage: int, totalPages: int)
    ensures var w := Window(currentPage, totalPages);
            var strip := PageStrip(currentPage, totalPages);
            (|strip| > 1 && strip[1] == Ellipsis) <==> w.0 > 2
    ensures var w := Window(currentPage, totalPages);
            var strip := PageStrip(currentPage, totalPages);
            (|strip| > 1 && strip[|strip| - 2] == Ellipsis) <==> w.1 < totalPages - 1
  {
    if totalPages < 1 {
      assert PageStrip(currentPage, totalPages) == [];
    } else {
      StripLayout(currentPage, totalPages);
    }
  }

  /** Ellipses mark exactly the skipped pages: each one stands between two buttons whose
      pages are not consecutive, and two neighbouring buttons show consecutive pages. */
  predicate EllipsesMarkGaps(items: seq<PageItem>)
  {
    && (forall k :: 0 <= k < |items| && items[k].Ellipsis? ==>
          0 < k < |items| - 1 && items[k - 1].PageButton? && items[k + 1].PageButton?
          && items[k + 1].page > items[k - 1].page + 1)
    && (forall k :: 0 < k < |items| && items[k - 1].PageButton? && items[k].PageButton? ==>
          items[k].page == items[k - 1].page + 1)
  }

  lemma {:induction false} StripMarksGaps(currentPage: int, totalPages: int)
    ensures EllipsesMarkGaps(PageStrip(currentPage, totalPages))
  {
    if totalPages < 1 {
      assert PageStrip(currentPage, totalPages) == [];
    } else {
      StripLayout(currentPage, totalPages);
    }
  }

  /** A button is highlighted iff it shows the current page; a current page between 1
      and totalPages is shown, so exactly one button is highlighted. */
  lemma {:induction false} StripHighlightsCurrent(currentPage: int, totalPages: int)
    ensures var strip := PageStrip(currentPage, totalPages);
            forall k :: 0 <= k < |strip| && strip[k].PageButton? ==> (strip[k].active <==> strip[k].page == currentPage)
    ensures var strip := PageStrip(currentPage, totalPages);
            1 <= currentPage <= totalPages ==>
              exists k :: 0 <= k < |strip| && strip[k].PageButton? && strip[k].active
    ensures var strip := PageStrip(currentPage, totalPages);
            forall i, j :: (0 <= i < |strip| && 0 <= j < |strip| && strip[i].PageButton? && strip[i].active
                            && strip[j].PageButton? && strip[j].active) ==> i == j
  {
    var strip := PageStrip(currentPage, totalPages);
    StripPagesIncrease(currentPage, totalPages);
    if totalPages < 1 {
      assert strip == [];
    } else {
      StripLayout(currentPage, totalPages);
      StripShowsPage(currentPage, totalPages, currentPage);
    }
  }

  /** No pages (totalPages 0, as while loading) means no page buttons at all. */
  lemma NoPagesNoStrip(currentPage: int, totalPages: int)
    requires totalPages < 1
    ensures PageStrip(currentPage, totalPages) == []
  {
    assert Run(1, totalPages, currentPage) == [];
  }

  // ---------------------------------------------------------------------------
  // Navigation buttons

  datatype NavButton = FirstPage | PreviousPage | NextPage | LastPage

  /** The page each navigation button requests: the first page, the one before, the
      one after, or the last page. */
  function NavTarget(b: NavButton, currentPage: int, totalPages: int): (target: int)
    ensures b == FirstPage ==> target == 1
    ensures b == PreviousPage ==> target + 1 == currentPage
    ensures b == NextPage ==> target == currentPage + 1
    ensures b == LastPage ==> target == totalPages
  {
    match b
    case FirstPage => 1
    case PreviousPage => currentPage - 1
    case NextPage => currentPage + 1
    case LastPage => totalPages
  }

  /** The disabled rules as written: "last" is disabled only when the current page equals
      totalPages. */
  function NavDisabledAsWritten(b: NavButton, currentPage: int, totalPages: int,
                                hasPrevious: bool, hasNext: bool): (disabled: bool)
    ensures b == FirstPage ==> (disabled <==> currentPage == 1)
    ensures b == PreviousPage ==> (disabled <==> !hasPrevious)
    ensures b == NextPage ==> (disabled <==> !hasNext)
    ensures b == LastPage ==> (disabled <==> currentPage == totalPages)
  {
    match b
    case FirstPage => currentPage == 1
    case PreviousPage => !hasPrevious
    case NextPage => !hasNext
    case LastPage => currentPage == totalPages
  }

  /** With no pages (the defaults while loading: page 1 of 0) the as-written "last"
      button is enabled and requests page 0. */
  lemma LastPageEnabledWithoutPages()
    ensures !NavDisabledAsWritten(LastPage, 1, 0, false, false)
    ensures NavTarget(LastPage, 1, 0) == 0
  {
  }

  /** The disabled rules with "last" disabled whenever no later page exists. */
  function NavDisabled(b: NavButton, currentPage: int, totalPages: int,
                       hasPrevious: bool, hasNext: bool): (disabled: bool)
    ensures b != LastPage ==> disabled == NavDisabledAsWritten(b, currentPage, totalPages, hasPrevious, hasNext)
    ensures b == LastPage ==> (disabled <==> currentPage >= totalPages)
  {
    match b
    case FirstPage => currentPage == 1
    case PreviousPage => !hasPrevious
    case NextPage => !hasNext
    case LastPage => currentPage >= totalPages
  }

  /** An enabled navigation button always requests a real page other than the current
      one, provided the server's hasPrevious/hasNext flags are truthful and the current
      page is a real page (or page 1 of an empty result). */
  lemma EnabledNavStaysInRange(b: NavButton, currentPage: int, totalPages: int,
                               hasPrevious: bool, hasNext: bool)
    requires 1 <= currentPage <= Max(totalPages, 1)
    requires hasPrevious ==> currentPage > 1
    requires hasNext ==> currentPage < totalPages
    requires !NavDisabled(b, currentPage, totalPages, hasPrevious, hasNext)
    ensures 1 <= NavTarget(b, currentPage, totalPages) <= Max(totalPages, 1)
    ensures NavTarget(b, currentPage, totalPages) != currentPage
  {
  }

  /** The zero-based pageIndex handed to the table state. */
  function PageIndex(currentPage: int): (index: int)
    ensures index + 1 == currentPage
  {
    currentPage - 1
  }

  /** Number of skeleton rows while loading: `filters.limit || 10`, as an array length. */
  function SkeletonRows(limit: int): (n: nat)
    ensures limit > 0 ==> n == limit
    ensures limit == 0 ==> n == 10
    ensures limit < 0 ==> n == 0
  {
    if limit == 0 then 10 else Max(limit, 0)
  }

  // ---------------------------------------------------------------------------
  // Filter controls

  /** The user-facing filter controls and the value each one reports. */
  datatype FilterControl =
    | SearchInput(text: string)
    | RoleSelect(role: string)
    | StatusSelect(status: string)
    | RowsPerPageSelect(value: string)

  const RoleOptions: seq<string> := ["All", "USER", "ADMIN", "SUPPORT"]
  const StatusFilterOptions: seq<string> := ["All Status", "CONFIRMED", "UNCONFIRMED", "ARCHIVED"]
  const PageSizeOptions: seq<string> := ["10", "20", "50", "100"]

  /** The rows-per-page select only reports numerals (its options). */
  predicate Reportable(c: FilterControl)
  {
    c.RowsPerPageSelect? ==> ParseDecimal(c.value).Some?
  }

  lemma PageSizeOptionsReportable(v: string)
    requires v in PageSizeOptions
    ensures Reportable(RowsPerPageSelect(v))
  {
    assert IsNumeral(v);
  }

  /** The change each control emits: always back to page 1, touching only that
      control's own filter; "All" and "All Status" clear the filter to undefined. */
  function ControlPatch(c: FilterControl): (p: FilterPatch)
    requires Reportable(c)
    ensures p.page == Some(1)
    ensures p.query.Some? <==> c.SearchInput?
    ensures p.role.Some? <==> c.RoleSelect?
    ensures p.userStatus.Some? <==> c.StatusSelect?
    ensures p.limit.Some? <==> c.RowsPerPageSelect?
    ensures p.sortBy.None? && p.sortOrder.None?
    ensures c.SearchInput? ==> p.query == Some(Some(c.text))
    ensures c.RoleSelect? ==> (p.role == Some(None) <==> c.role == "All")
    ensures c.RoleSelect? && c.role != "All" ==> p.role == Some(Some(c.role))
    ensures c.StatusSelect? ==> (p.userStatus == Some(None) <==> c.status == "All Status")
    ensures c.StatusSelect? && c.status != "All Status" ==> p.userStatus == Some(Some(c.status))
    ensures c.RowsPerPageSelect? ==> p.limit == Some(ParseDecimal(c.value).value as int)
  {
    match c
    case SearchInput(text) =>
      NoChange.(query := Some(Some(text)), page := Some(1))
    case RoleSelect(role) =>
      NoChange.(role := Some(if role == "All" then None else Some(role)), page := Some(1))
    case StatusSelect(status) =>
      NoChange.(userStatus := Some(if status == "All Status" then None else Some(status)), page := Some(1))
    case RowsPerPageSelect(value) =>
      NoChange.(limit := Some(ParseDecimal(value).value as int), page := Some(1))
  }

  /** The change a page or navigation button emits: the new page and no other key. */
  function GoToPage(page: int): (p: FilterPatch)
    ensures p.page == Some(page)
    ensures p.(page := None) == NoChange
  {
    NoChange.(page := Some(page))
  }

  /** The search box shows the query, or nothing when there is none. */
  function SearchValue(f: Filters): (v: string)
    ensures f.query.Some? ==> v == f.query.value
    ensures f.query.None? ==> v == ""
  {
    OrNull(f.query, "")
  }

  /** The role select shows the role filter, or "All" when it is unset or empty. */
  function RoleSelectValue(f: Filters): (v: string)
    ensures f.role.Some? && f.role.value != "" ==> v == f.role.value
    ensures f.role.None? || f.role.value == "" ==> v == "All"
  {
    OrNull(f.role, "All")
  }

  /** The status select shows the status filter, or "All Status" when it is unset or
      empty. */
  function StatusSelectValue(f: Filters): (v: string)
    ensures f.userStatus.Some? && f.userStatus.value != "" ==> v == f.userStatus.value
    ensures f.userStatus.None? || f.userStatus.value == "" ==> v == "All Status"
  {
    OrNull(f.userStatus, "All Status")
  }

  /** The rows-per-page select shows the limit as a decimal numeral (a "-" first when
      it is negative); `toString` never gives "", so the "10" default is never used. */
  function PageSizeValue(f: Filters): (v: string)
    ensures f.limit >= 0 ==> v == DecimalString(f.limit)
    ensures f.limit < 0 ==> v == "-" + DecimalString(-f.limit)
  {
    Or(IntString(f.limit), "10")
  }
}
