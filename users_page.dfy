/** app/dashboard/users/page.tsx: the users page. It owns the table filters, the three
    dialog-open flags and the user the dialogs edit; the table and the dialogs report
    to it through handlers. The users query and the mutations are outside: the query's
    answer is a parameter, and a mutation is returned as a request whose success the
    caller reports back. */
module UsersPage {
  import opened JsText
  import opened UserTypes
  import Columns
  import UsersDataTable

  // ---------------------------------------------------------------------------
  // Filters

  /** The filters the page starts with. */
  const InitialFilters: Filters := Filters(1, 10, None, None, None, Some("createdAt"), Some("asc"))

  /** `{ ...prev, ...patch }`: every key present in the patch overwrites, every other
      field keeps its value. */
  function Merge(prev: Filters, patch: FilterPatch): (next: Filters)
    ensures next.page == (if patch.page.Some? then patch.page.value else prev.page)
    ensures next.limit == (if patch.limit.Some? then patch.limit.value else prev.limit)
    ensures next.query == (if patch.query.Some? then patch.query.value else prev.query)
    ensures next.userStatus == (if patch.userStatus.Some? then patch.userStatus.value else prev.userStatus)
    ensures next.role == (if patch.role.Some? then patch.role.value else prev.role)
    ensures next.sortBy == (if patch.sortBy.Some? then patch.sortBy.value else prev.sortBy)
    ensures next.sortOrder == (if patch.sortOrder.Some? then patch.sortOrder.value else prev.sortOrder)
  {
    Filters(
      if patch.page.Some? then patch.page.value else prev.page,
      if patch.limit.Some? then patch.limit.value else prev.limit,
      if patch.query.Some? then patch.query.value else prev.query,
      if patch.userStatus.Some? then patch.userStatus.value else prev.userStatus,
      if patch.role.Some? then patch.role.value else prev.role,
      if patch.sortBy.Some? then patch.sortBy.value else prev.sortBy,
      if patch.sortOrder.Some? then patch.sortOrder.value else prev.sortOrder)
  }

  /** Whichever of two patches names a key wins with its own value. */
  function Later<T>(first: Option<T>, second: Option<T>): Option<T>
  {
    if second.Some? then second else first
  }

  /** The single patch `{ ...p, ...q }` has the effect of applying p, then q. */
  function Compose(p: FilterPatch, q: FilterPatch): FilterPatch
  {
    FilterPatch(Later(p.page, q.page), Later(p.limit, q.limit), Later(p.query, q.query),
                Later(p.userStatus, q.userStatus), Later(p.role, q.role),
                Later(p.sortBy, q.sortBy), Later(p.sortOrder, q.sortOrder))
  }

  /** The empty change leaves the filters as they are. */
  lemma MergeNoChange(f: Filters)
    ensures Merge(f, NoChange) == f
  {
  }

  /** Two successive changes amount to one combined change. */
  lemma MergeCompose(f: Filters, p: FilterPatch, q: FilterPatch)
    ensures Merge(Merge(f, p), q) == Merge(f, Compose(p, q))
  {
  }

  /** Sending the same change twice is the same as sending it once. */
  lemma MergeIdempotent(f: Filters, p: FilterPatch)
    ensures Merge(Merge(f, p), p) == Merge(f, p)
  {
  }

  /** Every filter control sends the table back to page 1, changes its own filter and
      leaves the sort order alone. */
  lemma ControlResetsPage(f: Filters, c: UsersDataTable.FilterControl)
    requires UsersDataTable.Reportable(c)
    ensures var next := Merge(f, UsersDataTable.ControlPatch(c));
            && next.page == 1
            && next.sortBy == f.sortBy && next.sortOrder == f.sortOrder
            && (!c.SearchInput? ==> next.query == f.query)
            && (!c.RoleSelect? ==> next.role == f.role)
            && (!c.StatusSelect? ==> next.userStatus == f.userStatus)
            && (!c.RowsPerPageSelect? ==> next.limit == f.limit)
  {
  }

  /** A page or navigation button moves to its page and keeps every filter and the
      sort order. */
  lemma PageClickKeepsFilters(f: Filters, page: int)
    ensures Merge(f, UsersDataTable.GoToPage(page)) == f.(page := page)
  {
  }

  /** Every numbered button of the strip moves to a real page, keeping the filters. */
  lemma StripClickStaysInRange(f: Filters, currentPage: int, totalPages: int, k: int)
    requires 0 <= k < |UsersDataTable.PageStrip(currentPage, totalPages)|
    requires UsersDataTable.PageStrip(currentPage, totalPages)[k].PageButton?
    ensures var next := Merge(f, UsersDataTable.GoToPage(UsersDataTable.PageStrip(currentPage, totalPages)[k].page));
            1 <= next.page <= totalPages && next == f.(page := next.page)
  {
    UsersDataTable.StripPagesIncrease(currentPage, totalPages);
  }

  /** After typing, the search box shows what was typed. */
  lemma SearchRoundTrip(f: Filters, text: string)
    ensures UsersDataTable.SearchValue(Merge(f, UsersDataTable.ControlPatch(UsersDataTable.SearchInput(text)))) == text
  {
  }

  /** After choosing a role (or "All"), the role select shows that choice. */
  lemma RoleSelectRoundTrip(f: Filters, role: string)
    requires role != ""
    ensures UsersDataTable.RoleSelectValue(Merge(f, UsersDataTable.ControlPatch(UsersDataTable.RoleSelect(role)))) == role
  {
  }

  /** After choosing a status (or "All Status"), the status select shows that choice. */
  lemma StatusSelectRoundTrip(f: Filters, status: string)
    requires status != ""
    ensures UsersDataTable.StatusSelectValue(Merge(f, UsersDataTable.ControlPatch(UsersDataTable.StatusSelect(status)))) == status
  {
  }

  /** After choosing a page size, the rows-per-page select shows that option again:
      `parseInt` and `toString` undo each other on the offered options. */
  lemma {:induction false} PageSizeRoundTrip(f: Filters, v: string)
    requires v in UsersDataTable.PageSizeOptions
    ensures UsersDataTable.Reportable(UsersDataTable.RowsPerPageSelect(v))
    ensures UsersDataTable.PageSizeValue(Merge(f, UsersDataTable.ControlPatch(UsersDataTable.RowsPerPageSelect(v)))) == v
  {
    UsersDataTable.PageSizeOptionsReportable(v);
    var n: nat := if v == "10" then 10 else if v == "20" then 20 else if v == "50" then 50 else 100;
    assert v == DecimalString(n);
    ParseDecimalString(n);
  }

  // ---------------------------------------------------------------------------
  // What the table receives

  /** The props handed to the table for the users query's answer (None while
      loading; after a failure the page shows its error view instead of the table):
      `x || default` for each field. */
  datatype TableProps = TableProps(
    rows: seq<User>,
    totalRecords: int,
    totalPages: int,
    currentPage: int,
    hasNext: bool,
    hasPrevious: bool)

  function TablePropsOf(data: Option<UsersPageData>): (p: TableProps)
    ensures data.None? ==> p == TableProps([], 0, 0, 1, false, false)
    ensures data.Some? ==> p.rows == data.value.data && p.totalRecords == data.value.totalRecords
                           && p.totalPages == data.value.totalPages
                           && p.hasNext == data.value.hasNext && p.hasPrevious == data.value.hasPrevious
    ensures data.Some? ==> p.currentPage == (if data.value.page == 0 then 1 else data.value.page)
  {
    match data
    case None => TableProps([], 0, 0, 1, false, false)
    case Some(d) => TableProps(d.data, d.totalRecords, d.totalPages, if d.page == 0 then 1 else d.page,
                               d.hasNext, d.hasPrevious)
  }

  /** While no answer is there, the table shows no page buttons, yet its "last page"
      button as written is enabled and would request page 0; with the corrected rule it
      is disabled. */
  lemma NoAnswerTable()
    ensures var p := TablePropsOf(None);
            && UsersDataTable.PageStrip(p.currentPage, p.totalPages) == []
            && !UsersDataTable.NavDisabledAsWritten(UsersDataTable.LastPage, p.currentPage, p.totalPages, p.hasPrevious, p.hasNext)
            && UsersDataTable.NavTarget(UsersDataTable.LastPage, p.currentPage, p.totalPages) == 0
            && UsersDataTable.NavDisabled(UsersDataTable.LastPage, p.currentPage, p.totalPages, p.hasPrevious, p.hasNext)
  {
    UsersDataTable.NoPagesNoStrip(1, 0);
    UsersDataTable.LastPageEnabledWithoutPages();
  }

  /** `rows.find(u => u.userId === userId)`: the first row with that id. */
  function FindUser(rows: seq<User>, userId: string): (r: Option<User>)
    ensures r.None? <==> forall k :: 0 <= k < |rows| ==> rows[k].userId != userId
    ensures r.Some? ==> exists k :: 0 <= k < |rows| && rows[k] == r.value && r.value.userId == userId
                                    && forall m :: 0 <= m < k ==> rows[m].userId != userId
  {
    if rows == [] then None
    else if rows[0].userId == userId then Some(rows[0])
    else
      var r := FindUser(rows[1..], userId);
      assert forall k :: 1 <= k < |rows| ==> rows[k] == rows[1..][k - 1];
      r
  }

  /** `data?.data?.data.find(...)`: no answer means no user to find. */
  function FindOnPage(data: Option<UsersPageData>, userId: string): (r: Option<User>)
    ensures data.None? ==> r.None?
    ensures data.Some? ==> r == FindUser(data.value.data, userId)
    ensures r.Some? ==> r.value.userId == userId && r.value in data.value.data
  {
    if data.None? then None else FindUser(data.value.data, userId)
  }

  // ---------------------------------------------------------------------------
  // Mutations

  datatype DialogKind = RolesDialog | FraudRiskDialog | StatusDialog

  /** A mutation of use-users.ts, with the arguments it is called with. */
  datatype Mutation =
    | DeleteUser(userId: string)
    | RestoreUser(userId: string)
    | VerifyUser(userId: string)
    | UpdateUserRole(userId: string, roles: seq<string>)
    | VerifyKyc(userId: string)
    | UpdateFraudRisk(userId: string, risk: string)

  /** A mutation started by the page, and the dialog its success callback closes. */
  datatype Request = Request(mutation: Mutation, closes: Option<DialogKind>)

  /** handleDelete, handleRestore, handleVerify and handleVerifyKyc: the row actions the
      page turns straight into a mutation for the same user, with no success callback.
      The other row actions open a dialog instead. */
  function DirectRequest(a: Columns.RowAction): (r: Option<Request>)
    ensures r.Some? <==> a.Delete? || a.Restore? || a.Verify? || a.UpdateKyc?
    ensures r.Some? ==> r.value.mutation.userId == a.userId && r.value.closes.None?
    ensures a.Delete? ==> r == Some(Request(DeleteUser(a.userId), None))
    ensures a.Restore? ==> r == Some(Request(RestoreUser(a.userId), None))
    ensures a.Verify? ==> r == Some(Request(VerifyUser(a.userId), None))
    ensures a.UpdateKyc? ==> r == Some(Request(VerifyKyc(a.userId), None))
  {
    match a
    case Delete(id) => Some(Request(DeleteUser(id), None))
    case Restore(id) => Some(Request(RestoreUser(id), None))
    case Verify(id) => Some(Request(VerifyUser(id), None))
    case UpdateKyc(id) => Some(Request(VerifyKyc(id), None))
    case _ => None
  }

  /** The dialog a row action opens, if it is not a direct mutation. */
  function DialogFor(a: Columns.RowAction): (k: Option<DialogKind>)
    ensures k.Some? <==> DirectRequest(a).None?
    ensures k == Some(RolesDialog) <==> a.UpdateRole?
    ensures k == Some(FraudRiskDialog) <==> a.UpdateFraudRisk?
    ensures k == Some(StatusDialog) <==> a.UpdateStatus?
  {
    match a
    case UpdateRole(_, _) => Some(RolesDialog)
    case UpdateFraudRisk(_, _) => Some(FraudRiskDialog)
    case UpdateStatus(_) => Some(StatusDialog)
    case _ => None
  }

  /** The props the three dialogs receive while a user is selected. */
  datatype DialogProps = DialogProps(
    rolesOpen: bool, currentRoles: Option<seq<string>>,
    fraudRiskOpen: bool, currentRisk: string,
    statusOpen: bool, currentStatus: string)

  // ---------------------------------------------------------------------------
  // Page state

  class UsersPage {
    var filters: Filters
    var rolesDialogOpen: bool
    var fraudRiskDialogOpen: bool
    var statusDialogOpen: bool
    var selectedUser: Option<User>

    constructor ()
      ensures filters == InitialFilters
      ensures !rolesDialogOpen && !fraudRiskDialogOpen && !statusDialogOpen
      ensures selectedUser.None?
    {
      filters := InitialFilters;
      rolesDialogOpen := false;
      fraudRiskDialogOpen := false;
      statusDialogOpen := false;
      selectedUser := None;
    }

    function DialogOpen(kind: DialogKind): bool
      reads this
    {
      match kind
      case RolesDialog => rolesDialogOpen
      case FraudRiskDialog => fraudRiskDialogOpen
      case StatusDialog => statusDialogOpen
    }

    /** handleFiltersChange. */
    method HandleFiltersChange(patch: FilterPatch)
      modifies this
      ensures filters == Merge(old(filters), patch)
      ensures rolesDialogOpen == old(rolesDialogOpen) && fraudRiskDialogOpen == old(fraudRiskDialogOpen)
      ensures statusDialogOpen == old(statusDialogOpen) && selectedUser == old(selectedUser)
    {
      filters := Merge(filters, patch);
    }

    /** handleUpdateRole, handleUpdateFraudRisk and handleUpdateStatus: select the user
      and open the dialog, but only when the user is on the current page. The roles and
      risk arguments the table passes along are not used. */
    method OpenDialog(kind: DialogKind, data: Option<UsersPageData>, userId: string)
      modifies this
      ensures var found := FindOnPage(data, userId);
              if found.Some? then
                selectedUser == found && DialogOpen(kind)
                && (forall other :: other != kind ==> DialogOpen(other) == old(DialogOpen(other)))
              else
                selectedUser == old(selectedUser)
                && (forall k :: DialogOpen(k) == old(DialogOpen(k)))
      ensures filters == old(filters)
    {
      var user := FindOnPage(data, userId);
      if user.Some? {
        selectedUser := user;
        match kind
        case RolesDialog => rolesDialogOpen := true;
        case FraudRiskDialog => fraudRiskDialogOpen := true;
        case StatusDialog => statusDialogOpen := true;
      }
    }

    /** handleRolesSubmit: update the selected user's roles; nothing without a
        selected user. */
    method SubmitRoles(roles: seq<string>) returns (req: Option<Request>)
      ensures req.None? <==> selectedUser.None?
      ensures req.Some? ==> req.value == Request(UpdateUserRole(selectedUser.value.userId, roles), Some(RolesDialog))
    {
      if selectedUser.Some? {
        req := Some(Request(UpdateUserRole(selectedUser.value.userId, roles), Some(RolesDialog)));
      } else {
        req := None;
      }
    }

    /** handleFraudRiskSubmit. */
    method SubmitFraudRisk(risk: string) returns (req: Option<Request>)
      ensures req.None? <==> selectedUser.None?
      ensures req.Some? ==> req.value == Request(UpdateFraudRisk(selectedUser.value.userId, risk), Some(FraudRiskDialog))
    {
      if selectedUser.Some? {
        req := Some(Request(UpdateFraudRisk(selectedUser.value.userId, risk), Some(FraudRiskDialog)));
      } else {
        req := None;
      }
    }

    /** handleStatusSubmit: runs the verify mutation for the selected user; the chosen
        status is not sent anywhere. */
    method SubmitStatus(status: string) returns (req: Option<Request>)
      ensures req.None? <==> selectedUser.None?
      ensures req.Some? ==> req.value == Request(VerifyUser(selectedUser.value.userId), Some(StatusDialog))
    {
      if selectedUser.Some? {
        req := Some(Request(VerifyUser(selectedUser.value.userId), Some(StatusDialog)));
      } else {
        req := None;
      }
    }

    /** A mutation reports success: one started from a dialog closes that dialog and
        clears the selection; the direct row mutations change no page state. */
    method Succeeded(req: Request)
      modifies this
      ensures req.closes.Some? ==>
                && !DialogOpen(req.closes.value) && selectedUser.None?
                && forall other :: other != req.closes.value ==> DialogOpen(other) == old(DialogOpen(other))
      ensures req.closes.None? ==>
                selectedUser == old(selectedUser) && forall k :: DialogOpen(k) == old(DialogOpen(k))
      ensures filters == old(filters)
    {
      if req.closes.Some? {
        match req.closes.value {
          case RolesDialog => rolesDialogOpen := false;
          case FraudRiskDialog => fraudRiskDialogOpen := false;
          case StatusDialog => statusDialogOpen := false;
        }
        selectedUser := None;
      }
    }

    /** onOpenChange of a dialog: sets that flag only; the selection stays. Dialogs exist
        only while a user is selected, so only then can they call it. */
    method SetDialogOpen(kind: DialogKind, open: bool)
      requires selectedUser.Some?
      modifies this
      ensures DialogOpen(kind) == open
      ensures forall other :: other != kind ==> DialogOpen(other) == old(DialogOpen(other))
      ensures selectedUser == old(selectedUser) && filters == old(filters)
    {
      match kind
      case RolesDialog => rolesDialogOpen := open;
      case FraudRiskDialog => fraudRiskDialogOpen := open;
      case StatusDialog => statusDialogOpen := open;
    }

    /** The dialogs are rendered only when the users query has not failed (a failure
        returns the error view, which has no dialogs) and a user is selected; they then
        edit that user's roles, risk and status. */
    function RenderedDialogs(queryFailed: bool): (d: Option<DialogProps>)
      reads this
      ensures d.None? <==> queryFailed || selectedUser.None?
      ensures d.Some? ==> d.value.rolesOpen == rolesDialogOpen && d.value.fraudRiskOpen == fraudRiskDialogOpen
                          && d.value.statusOpen == statusDialogOpen
      ensures d.Some? ==> d.value.currentRoles == selectedUser.value.roles
                          && d.value.currentRisk == selectedUser.value.fraudRisk
                          && d.value.currentStatus == selectedUser.value.userStatus
    {
      if queryFailed || selectedUser.None? then None
      else
        var u := selectedUser.value;
        Some(DialogProps(rolesDialogOpen, u.roles, fraudRiskDialogOpen, u.fraudRisk,
                         statusDialogOpen, u.userStatus))
    }
  }

  /** Every control a row offers is handled: either it starts a mutation for that row's
      user, or it opens a dialog, and opening works for any user on the page. */
  lemma RowActionsHandled(data: UsersPageData, u: User, a: Columns.RowAction)
    requires u in data.data
    requires a in Columns.RowActions(u)
    ensures DirectRequest(a).Some? ==> DirectRequest(a).value.mutation.userId == u.userId
    ensures DialogFor(a).Some? ==> FindOnPage(Some(data), a.userId).Some?
  {
    Columns.RowActionArguments(u);
    var k :| 0 <= k < |data.data| && data.data[k] == u;
    assert data.data[k].userId == a.userId;
  }
}
