# my-shop-admin: the dashboard's decision rules in Dafny

This project models the rules inside the my-shop-admin dashboard. That is a Next.js/React admin front end for a shop's user base. Its users page lists accounts in a paged, filterable table. From that table an administrator deletes, restores and verifies accounts, and edits roles, fraud risk and status in dialogs. Around it sit an authentication guard, the signed-in user's sidebar entry, and the one-time-code and reset-password dialogs.

One Dafny module stands for each source file:

- `UsersDataTable` (components/users/users-data-table.tsx) covers:
  - the page-number strip, with the builder as a method with a loop, proved equal to the specification function `PageStrip`;
  - the navigation buttons;
  - the filter controls and the change each one emits.
- `Columns` (components/users/columns.tsx) covers the short id, the roles cell, the status badge, the row actions offered, and the created/updated cell.
- `UpdateDialogs` (components/users/update-dialogs.tsx) covers the role toggle, the three submit validators, the submit-button rules, the option tables, and the dialog state as classes.
- `UsersPage` (app/dashboard/users/page.tsx) covers the filter merge, the table's default props, and the page state as a class with one method per handler.
- `UseAuth` (hooks/use-auth.ts) covers the retry policy of the current-user query and the toast-message selection.
- `AuthGuard` (components/auth-guard.tsx) covers the redirect/render decision.
- `NavUser` (components/nav-user.tsx) covers the redirect rule, the status icon, the defaults and the initials.
- `OtpDialog` (components/otp-dialog.tsx) and `ResetPasswordDialog` (components/reset-password-dialog.tsx) are state-machine classes.
- `JsText` holds the JavaScript string behaviour the rules rely on: `||` defaults, `trim`, `split(" ")`, `toUpperCase`, `toString` and `parseInt`.
- `UserTypes` holds the record shapes of types/users.ts.

Conventions:

- A JavaScript string that may be empty stays a `string`, and `s || d` is modelled with the empty string as the only falsy value.
- A field that may be `null` or `undefined` is an `Option`.
- `{...prev, ...patch}` copies a key whose value is `undefined`. A key of the partial filters object is therefore `Option<Option<string>>`: absent, present with `undefined`, or present with a value.
- HTTP requests, mutations and the users query are not called. A handler returns the request it would start. The caller then reports the outcome through a method (`Succeeded`, `VerifyFailed`, ...). The query's answer is a parameter.
- `setTimeout` callbacks are explicit "delay elapsed" methods.
- useMe's retry option is run by TanStack Query. After a failed attempt, the library calls it with the number of failures before that one, starting at 0, and retries while it returns true. `UseAuth.RunQuery` models that protocol. The answer the server gives to each attempt is a function parameter.

## Model

| member | source | states |
|---|---|---|
| UsersDataTable.Window | components/users/users-data-table.tsx:438-448 | the window lies within 1..totalPages, holds min(5, totalPages) pages when there is a page, and contains a current page that lies in 1..totalPages |
| UsersDataTable.BuildPageStrip | components/users/users-data-table.tsx:436-510 | the builder, with its reassigned startPage, its pushes and its for loop, produces exactly PageStrip |
| UsersDataTable.RunAt | components/users/users-data-table.tsx:473-485 | the loop's run of buttons holds pages startPage..endPage in order, each highlighted iff it is the current page |
| UsersDataTable.StripLayout | components/users/users-data-table.tsx:450-507 | the position of page 1, the leading ellipsis, the window, the trailing ellipsis and the last page in the strip |
| UsersDataTable.StripPagesIncrease | components/users/users-data-table.tsx:436-510 | every button's page lies in 1..totalPages, and pages strictly increase from left to right, so there are no duplicates |
| UsersDataTable.StripShowsPage | components/users/users-data-table.tsx:450-507 | a page has a button iff it is in 1..totalPages and is page 1, the last page or inside the window |
| UsersDataTable.FirstAndLastShown | components/users/users-data-table.tsx:450-507 | with at least one page, page 1 and page totalPages always have a button |
| UsersDataTable.EllipsesAroundWindow | components/users/users-data-table.tsx:463-469 | an ellipsis follows page 1 iff startPage > 2, and precedes the last page iff endPage < totalPages - 1 |
| UsersDataTable.StripMarksGaps | components/users/users-data-table.tsx:450-507 | every ellipsis sits between two buttons whose pages are not consecutive, and neighbouring buttons show consecutive pages |
| UsersDataTable.StripHighlightsCurrent | components/users/users-data-table.tsx:455-499 | a button is highlighted iff it shows the current page; a current page in range is highlighted exactly once |
| UsersDataTable.NoPagesNoStrip | components/users/users-data-table.tsx:436-510 | totalPages 0 gives no buttons at all |
| UsersDataTable.LastPageEnabledWithoutPages | components/users/users-data-table.tsx:528-529 | as written, page 1 of 0 pages leaves the "last" button enabled, and it requests page 0 |
| UsersDataTable.NavDisabledAsWritten | components/users/users-data-table.tsx:412-534 | as written: "first" disabled iff currentPage = 1, "prev" iff !hasPrevious, "next" iff !hasNext, "last" iff currentPage = totalPages |
| UsersDataTable.NavTarget | components/users/users-data-table.tsx:412-534 | "first" requests page 1, "prev" the page before, "next" the page after, "last" page totalPages |
| UsersDataTable.NavDisabled | components/users/users-data-table.tsx:412-534 | "first" is disabled iff currentPage = 1, "prev" iff !hasPrevious, "next" iff !hasNext, all as written; "last" is disabled iff currentPage >= totalPages (corrected) |
| UsersDataTable.EnabledNavStaysInRange | components/users/users-data-table.tsx:412-534 | with truthful hasPrevious/hasNext, an enabled navigation button requests a real page other than the current one |
| UsersDataTable.PageIndex | components/users/users-data-table.tsx:122 | the table's zero-based pageIndex is currentPage - 1 |
| UsersDataTable.SkeletonRows | components/users/users-data-table.tsx:279 | while loading, the table shows `limit` skeleton rows, or 10 when limit is 0 |
| UsersDataTable.PageSizeOptionsReportable | components/users/users-data-table.tsx:398-401 | every rows-per-page option parses as a number |
| UsersDataTable.ControlPatch | components/users/users-data-table.tsx:149-391 | every control emits page 1 and only its own key; "All" and "All Status" set their key to undefined; rows-per-page sends the parsed number |
| UsersDataTable.GoToPage | components/users/users-data-table.tsx:415-528 | a page or navigation button sets the page and no other key |
| UsersDataTable.SearchValue | components/users/users-data-table.tsx:148 | the search box shows the query, or "" when there is none |
| UsersDataTable.RoleSelectValue | components/users/users-data-table.tsx:172 | the role select shows the role filter, or "All" when it is unset or "" |
| UsersDataTable.StatusSelectValue | components/users/users-data-table.tsx:192 | the status select shows the status filter, or "All Status" when it is unset or "" |
| UsersDataTable.PageSizeValue | components/users/users-data-table.tsx:389 | the rows-per-page select shows the limit in decimal, with a "-" for a negative limit |
| Columns.DisplayId | components/users/columns.tsx:83 | an empty id shows "N/A"; otherwise the short id has min(6, length) characters |
| Columns.DisplayIdIsUpperTail | components/users/columns.tsx:83 | the short id is the id's last characters, upper-cased one by one |
| Columns.RolesSummary | components/users/columns.tsx:160-186 | a missing or empty list shows "No roles"; one role shows that role; more show the first role and "+(n-1)", with the full list in the tooltip |
| Columns.StatusBadge | components/users/columns.tsx:211-238 | the four known statuses get fixed labels; any other status shows as is, and an empty one shows "Unknown" |
| Columns.StatusLabelNonEmpty | components/users/columns.tsx:235 | a badge label is never empty |
| Columns.RoleArgument | components/users/columns.tsx:360 | Update Role passes the user's roles; only a missing list becomes ["USER"] |
| Columns.RowActions | components/users/columns.tsx:293-397 | the controls the Actions cell offers a row: one on a deleted row, otherwise four plus Verify for an unconfirmed user and Verify KYC while KYC is pending; RowActionsOffered, RowActionArguments, RowActionsInDisplayOrder, DeletedRowOnlyRestores and the four exact-list lemmas fix its value |
| Columns.RowActionsOffered | components/users/columns.tsx:295-394 | Restore iff deleted; Delete iff not; Verify iff not deleted and not CONFIRMED; Update Role, Update Status and Update Fraud Risk iff not deleted; Verify KYC iff not deleted and KYC is unverified |
| Columns.RowActionArguments | components/users/columns.tsx:301-392 | every control carries the row's id, Update Role the row's roles (`["USER"]` when it has none) and Update Fraud Risk the row's risk |
| Columns.RowActionsInDisplayOrder | components/users/columns.tsx:295-394 | the controls come in display order (Restore or Delete first, then Verify, Update Role, Update Status, Verify KYC, Update Fraud Risk last on a live row), each at most once |
| Columns.LiveRowNeighbours | components/users/columns.tsx:300-392 | on a live row the controls run from Delete to Update Fraud Risk, each after the one before it |
| Columns.UnconfirmedPendingKycRow | components/users/columns.tsx:300-392 | a live unconfirmed user with KYC pending is offered Delete, Verify, Update Role, Update Status, Verify KYC, Update Fraud Risk, in that order |
| Columns.UnconfirmedKycVerifiedRow | components/users/columns.tsx:300-392 | the same without Verify KYC once KYC is verified |
| Columns.ConfirmedPendingKycRow | components/users/columns.tsx:300-392 | a live confirmed user with KYC pending gets the same list without Verify |
| Columns.ConfirmedKycVerifiedRow | components/users/columns.tsx:300-392 | a live confirmed, KYC-verified user gets Delete and the role, status and fraud-risk items only |
| Columns.RestoreXorDelete | components/users/columns.tsx:301-327 | exactly one of Restore and Delete is offered |
| Columns.DeletedRowOnlyRestores | components/users/columns.tsx:301-394 | a deleted row offers exactly `[Restore]` and nothing else |
| Columns.CreatedByLabel | components/users/columns.tsx:268 | createdBy, or "System" when it is empty |
| Columns.ShowsUpdated | components/users/columns.tsx:280 | the "Updated" line appears iff updatedAt is non-empty and differs from createdAt |
| Columns.UnchangedRecordHidesUpdated | components/users/columns.tsx:280 | the "Updated" line is hidden when updatedAt equals createdAt |
| UpdateDialogs.RemoveAll | components/users/update-dialogs.tsx:51 | the filter drops every copy of the role and keeps every other entry with its multiplicity; a list without the role comes back unchanged |
| UpdateDialogs.RemoveAllSingle | components/users/update-dialogs.tsx:51 | on one entry the filter keeps it iff it is not the role |
| UpdateDialogs.RemoveAllConcat | components/users/update-dialogs.tsx:51 | the filter of a concatenation is the concatenation of the filters, so the kept roles stay in their order |
| UpdateDialogs.ToggleRole | components/users/update-dialogs.tsx:49-53 | a selected role is removed entirely by the filter; an unselected role is appended at the end |
| UpdateDialogs.UntickMiddleKeepsOrder | components/users/update-dialogs.tsx:49-53 | unticking ADMIN in [USER, ADMIN, SUPPORT] leaves [USER, SUPPORT] |
| UpdateDialogs.ToggleAbsentTwice | components/users/update-dialogs.tsx:49-53 | ticking and unticking a role restores the exact list |
| UpdateDialogs.TogglePresentTwice | components/users/update-dialogs.tsx:49-53 | unticking and ticking a role keeps the same set, with the role moved to the end |
| UpdateDialogs.TogglePreservesNoDuplicates | components/users/update-dialogs.tsx:49-53 | toggling keeps a duplicate-free list duplicate-free |
| UpdateDialogs.ToggleFlipsOneCheckbox | components/users/update-dialogs.tsx:78-81 | a toggle flips the toggled role's checkbox and no other |
| UpdateDialogs.RolesSubmit | components/users/update-dialogs.tsx:55-61 | an empty selection is refused with "Please select at least one role"; otherwise onUpdate receives the selection unchanged |
| UpdateDialogs.ChoiceSubmit | components/users/update-dialogs.tsx:158-164 | an empty risk or status is refused with that dialog's message; otherwise it is forwarded unchanged (the status dialog at lines 263-269) |
| UpdateDialogs.RolesSubmitDisabled | components/users/update-dialogs.tsx:119 | the button is disabled iff loading or a click would be refused |
| UpdateDialogs.ChoiceSubmitDisabled | components/users/update-dialogs.tsx:214 | likewise for the risk and status buttons (the status dialog at line 319) |
| UpdateDialogs.LabelOf | components/users/update-dialogs.tsx:195 | the label of the first entry with that value, and none iff no entry has it (the status dialog at line 300) |
| UpdateDialogs.RiskLabels | components/users/update-dialogs.tsx:147-152 | LOW, MEDIUM, HIGH and CRITICAL map to their labels, and every other value has none |
| UpdateDialogs.StatusChoices | components/users/update-dialogs.tsx:242-257 | the status options are exactly the six values in order, and every other value has no label |
| UpdateDialogs.StatusLabelsAgreeWithBadge | components/users/update-dialogs.tsx:242-246 | the four statuses the table badge knows get the same label in the dialog |
| UpdateDialogs.ExtraStatusesShowRawBadge | components/users/update-dialogs.tsx:247-251 | RESET_REQUIRED has a dialog label, but its table badge shows the raw value |
| UpdateDialogs.RolesDialog.constructor | components/users/update-dialogs.tsx:40-41 | the selection starts as the current roles |
| UpdateDialogs.RolesDialog.Rerender | components/users/update-dialogs.tsx:45-47 | the selection resets to currentRoles iff currentRoles or open changed |
| UpdateDialogs.RolesDialog.Toggle | components/users/update-dialogs.tsx:49-53 | the selection becomes ToggleRole of the previous one; the toggled role's checkbox flips and every other checkbox keeps its state |
| UpdateDialogs.RolesDialog.Checked | components/users/update-dialogs.tsx:80 | a checkbox is ticked iff its role is in the selection |
| UpdateDialogs.RolesDialog.Submit | components/users/update-dialogs.tsx:55-61 | the outcome is RolesSubmit of the current selection |
| UpdateDialogs.ChoiceDialog.Rerender | components/users/update-dialogs.tsx:154-156 | the selection resets to the current value iff it or open changed (the status dialog at lines 259-261) |
| UpdateDialogs.ChoiceDialog.constructor | components/users/update-dialogs.tsx:145 | the choice starts as the current value (the status dialog at line 240) |
| UpdateDialogs.ChoiceDialog.Choose | components/users/update-dialogs.tsx:177 | the select stores the chosen value and changes nothing else (the status dialog at line 282) |
| UpdateDialogs.ChoiceDialog.SelectedCaption | components/users/update-dialogs.tsx:190-199 | the caption line appears iff something is chosen, and shows the chosen value's label (the status dialog at lines 295-304) |
| UpdateDialogs.ChoiceDialog.Submit | components/users/update-dialogs.tsx:158-164 | the outcome is ChoiceSubmit of the current choice (the status dialog at lines 263-269) |
| UsersPage.Merge | app/dashboard/users/page.tsx:59-61 | each key present in the change, even with undefined, replaces the old value; every absent key keeps it |
| UsersPage.MergeNoChange | app/dashboard/users/page.tsx:59-61 | an empty change leaves the filters unchanged |
| UsersPage.MergeCompose | app/dashboard/users/page.tsx:59-61 | two successive changes equal one combined change |
| UsersPage.MergeIdempotent | app/dashboard/users/page.tsx:59-61 | the same change applied twice equals applying it once |
| UsersPage.ControlResetsPage | app/dashboard/users/page.tsx:59-61 | after any filter control the page is 1, the sort is kept, and only that control's filter changed |
| UsersPage.PageClickKeepsFilters | components/users/users-data-table.tsx:415-528 | a page or navigation click changes the page and nothing else |
| UsersPage.StripClickStaysInRange | components/users/users-data-table.tsx:479 | every numbered button of the strip moves to a page in 1..totalPages and keeps the filters |
| UsersPage.SearchRoundTrip | components/users/users-data-table.tsx:148-150 | the search box shows what was typed |
| UsersPage.RoleSelectRoundTrip | components/users/users-data-table.tsx:172-177 | the role select shows the chosen option, including "All" |
| UsersPage.StatusSelectRoundTrip | components/users/users-data-table.tsx:192-197 | the status select shows the chosen option, including "All Status" |
| UsersPage.PageSizeRoundTrip | components/users/users-data-table.tsx:389-391 | after a page size is chosen, the select shows that option again |
| UsersPage.TablePropsOf | app/dashboard/users/page.tsx:212-217 | no answer gives no rows, 0 records, 0 pages, page 1 and both flags false; an answer passes through, except that page 0 becomes 1 |
| UsersPage.NoAnswerTable | app/dashboard/users/page.tsx:212-217 | with no answer the strip is empty; the as-written "last" button is enabled and targets page 0, and the corrected rule disables it |
| UsersPage.FindUser | app/dashboard/users/page.tsx:76 | the first row with that id, and none iff no row has it |
| UsersPage.FindOnPage | app/dashboard/users/page.tsx:76 | with no answer no user is found; with an answer the user found is the first row with that id (`find`), so it is on the page and has that id (the same rule at lines 88, 96) |
| UsersPage.DirectRequest | app/dashboard/users/page.tsx:63-73 | delete, restore, verify and KYC start their mutation for the row's user with no success callback; the other actions start none (the same rule at lines 83-85) |
| UsersPage.DialogFor | app/dashboard/users/page.tsx:75-101 | exactly the actions that start no mutation open a dialog: Update Role the roles dialog, Update Fraud Risk the risk dialog, Update Status the status dialog |
| UsersPage.RowActionsHandled | app/dashboard/users/page.tsx:63-101 | every action a row offers is handled, and a dialog opens for any user on the page |
| UsersPage.UsersPage.constructor | app/dashboard/users/page.tsx:38-49 | the initial filters are page 1, limit 10, sortBy createdAt, sortOrder asc; no dialog is open and no user is selected |
| UsersPage.UsersPage.HandleFiltersChange | app/dashboard/users/page.tsx:59-61 | the filters become the merge; nothing else changes |
| UsersPage.UsersPage.OpenDialog | app/dashboard/users/page.tsx:75-101 | a user found on the page is selected and that dialog opens; otherwise nothing changes |
| UsersPage.UsersPage.SubmitRoles | app/dashboard/users/page.tsx:104-116 | nothing without a selected user; otherwise the role update for that user, closing the roles dialog on success |
| UsersPage.UsersPage.SubmitFraudRisk | app/dashboard/users/page.tsx:118-130 | likewise, with the risk update |
| UsersPage.UsersPage.SubmitStatus | app/dashboard/users/page.tsx:132-143 | likewise, but the verify mutation is sent with the user id only and the chosen status is dropped |
| UsersPage.UsersPage.Succeeded | app/dashboard/users/page.tsx:109-112 | a dialog's mutation success closes that dialog and clears the selection; direct mutations change nothing (the same rule at lines 123-126, 137-140) |
| UsersPage.UsersPage.SetDialogOpen | app/dashboard/users/page.tsx:237 | onOpenChange sets that flag only (the same rule at lines 245, 253) |
| UsersPage.UsersPage.RenderedDialogs | app/dashboard/users/page.tsx:145-258 | the dialogs exist iff the users query has not failed (a failure returns the error view early) and a user is selected, and receive that user's roles, risk and status |
| UseAuth.ShouldRetry | hooks/use-auth.ts:124-130 | retry iff the error is not a 401 or 503 and fewer than 3 failures came before |
| UseAuth.RunQuery | hooks/use-auth.ts:120-131 | every earlier attempt failed and was retryable; the last attempt succeeded or failed without a retry; at most 4 attempts in all |
| UseAuth.MeQueryBounds | hooks/use-auth.ts:124-129 | between 1 and 4 attempts; a first answer of 401 or 503 ends the query at once with that error |
| UseAuth.PersistentFailureGetsFourAttempts | hooks/use-auth.ts:129 | a server that keeps failing with another status is asked exactly four times |
| UseAuth.SuccessMessage | hooks/use-auth.ts:14 | the server's non-empty message, else the operation's own text (the same rule at lines 32, 50, 70, 88, 106) |
| UseAuth.ErrorMessage | hooks/use-auth.ts:16-23 | no response gives the connection text for every operation; otherwise the server's non-empty message, else the operation's fallback (the same rule at lines 34-41, 52-61, 72-79, 90-97, 108-115) |
| UseAuth.ConnectionMessageMeansNoResponse | hooks/use-auth.ts:17-22 | the connection text appears only without a response, or when the server sent exactly that text |
| AuthGuard.Guard | components/auth-guard.tsx:15-32 | redirect iff the error is a 401 or 503; children are rendered iff there is no redirect, so always when there is no error |
| AuthGuard.FirstAuthFailureRedirects | components/auth-guard.tsx:15-30 | a 401 or 503 on the first attempt ends the query, and the guard redirects and renders nothing |
| AuthGuard.OtherFailuresRenderAfterFourAttempts | components/auth-guard.tsx:25-32 | the query settles with an error other than 401 or 503 only after four attempts, and the page then still renders |
| NavUser.RedirectsToLogin | components/nav-user.tsx:30-38 | redirect iff the error is a 401 or 503 |
| NavUser.RedirectAgreesWithGuard | components/nav-user.tsx:30-38 | the sidebar entry and the guard redirect on the same errors |
| NavUser.IconFor | components/nav-user.tsx:49-60 | CONFIRMED, PENDING and DISABLED each get their own icon, and every other status the default |
| NavUser.Initials | components/nav-user.tsx:101-104 | the initials are never empty |
| NavUser.InitialsAreWordStarts | components/nav-user.tsx:101-104 | the initials are the characters that start a space-separated word, or "AD" when there are none |
| NavUser.InitialsOfTwoWords | components/nav-user.tsx:101-104 | "Jane Doe" gives "JD" |
| NavUser.RoleShown | components/nav-user.tsx:137 | the first role when it is non-empty; "ADMIN" when there is no list, the list is empty, or the first role is "" |
| NavUser.ProfileOf | components/nav-user.tsx:83-137 | the name and e-mail, with "Admin" and "admin@example.com" whenever they are missing or empty; initials of the shown name; the role RoleShown gives; the icon IconFor gives for a non-empty status, else the confirmed icon |
| OtpDialog.AutoSubmit | components/otp-dialog.tsx:48-53 | a request is sent iff the code has 6 characters, no verify is pending and the code is not yet accepted; it carries the username and the code unchanged |
| OtpDialog.HandoverFor | components/otp-dialog.tsx:58-62 | onSuccess runs if one was given; otherwise the dialog goes to "/" |
| OtpDialog.NoSecondRequestWhilePending | components/otp-dialog.tsx:50 | nothing more is sent while a verify is pending |
| OtpDialog.OtpDialog.constructor | components/otp-dialog.tsx:40-42 | an empty code, no shake, not accepted, nothing pending; the invariant holds |
| OtpDialog.OtpDialog.InputDisabled | components/otp-dialog.tsx:119 | the input is disabled iff a verify is pending or the code was accepted |
| OtpDialog.OtpDialog.ResendShown | components/otp-dialog.tsx:147 | Resend is hidden once the code is accepted |
| OtpDialog.OtpDialog.ResendDisabled | components/otp-dialog.tsx:151 | Resend is disabled while a resend or a verify is pending |
| OtpDialog.OtpDialog.EnterOtp | components/otp-dialog.tsx:48-53 | a disabled input ignores input; otherwise the code is stored and sent once it is complete, and the invariant is kept (the input at lines 115-119) |
| OtpDialog.OtpDialog.VerifySucceeded | components/otp-dialog.tsx:54-55 | the code is accepted and kept until the delay |
| OtpDialog.OtpDialog.SuccessDelayElapsed | components/otp-dialog.tsx:57-66 | hands over, closes, clears the code, resets the accepted flag and sends nothing |
| OtpDialog.WrongThenRightCode | components/otp-dialog.tsx:48-71 | a run with a wrong code then a right one sends exactly two requests, one per complete code; input while checking or after acceptance is ignored, the accepted code is kept until the delay, and the delay navigates home and leaves an empty, unverified input |
| OtpDialog.OtpDialog.VerifyFailed | components/otp-dialog.tsx:68-71 | the code is cleared and the dialog shakes; nothing is re-sent |
| OtpDialog.OtpDialog.ShakeElapsed | components/otp-dialog.tsx:71 | the shake stops |
| OtpDialog.OtpDialog.ResendClicked | components/otp-dialog.tsx:87-89 | a resend to the dialog's e-mail is started iff the button is shown and enabled (the button at lines 147-151) |
| OtpDialog.OtpDialog.ResendSettled | components/otp-dialog.tsx:87-89 | the resend is no longer pending; nothing else changes |
| ResetPasswordDialog.IsFormValid | components/reset-password-dialog.tsx:72 | valid iff the code has 6 characters and the trimmed password at least 6; a valid password has a visible character |
| ResetPasswordDialog.SubmitGuard | components/reset-password-dialog.tsx:45 | the handler sends iff the code has 6 characters and the password is not all white space |
| ResetPasswordDialog.FormValidPassesGuard | components/reset-password-dialog.tsx:45-72 | every valid form passes the handler's check |
| ResetPasswordDialog.GuardWeakerThanForm | components/reset-password-dialog.tsx:45-72 | a one-letter password passes the handler's check but not the form check |
| ResetPasswordDialog.PaddedShortPasswordInvalid | components/reset-password-dialog.tsx:72 | " abcde " is seven characters long, yet the form is invalid because only five remain after trimming; the handler's check would pass it |
| ResetPasswordDialog.SubmitButtonDisabled | components/reset-password-dialog.tsx:157 | disabled iff the form is invalid or the dialog is disabled; an enabled button implies the handler's check |
| ResetPasswordDialog.ResetPasswordDialog.constructor | components/reset-password-dialog.tsx:35-38 | empty code and password, no shake, no success, nothing pending |
| ResetPasswordDialog.ResetPasswordDialog.IsDisabled | components/reset-password-dialog.tsx:73 | disabled iff a reset is pending or succeeded |
| ResetPasswordDialog.ResetPasswordDialog.ResendShown | components/reset-password-dialog.tsx:166 | Resend is hidden once the reset succeeded |
| ResetPasswordDialog.ResetPasswordDialog.ResendDisabled | components/reset-password-dialog.tsx:171-174 | Resend is disabled while a resend or a reset is pending |
| ResetPasswordDialog.ResetPasswordDialog.EditOtp | components/reset-password-dialog.tsx:105-109 | a disabled input ignores input; otherwise the code is stored |
| ResetPasswordDialog.ResetPasswordDialog.EditPassword | components/reset-password-dialog.tsx:145-147 | a disabled input ignores input; otherwise the password is stored as typed |
| ResetPasswordDialog.ResetPasswordDialog.HandleSubmit | components/reset-password-dialog.tsx:43-47 | sends email, code and the untrimmed password iff the handler's check passes |
| ResetPasswordDialog.ResetPasswordDialog.ResetSucceeded | components/reset-password-dialog.tsx:49-50 | the reset is marked successful and no longer pending |
| ResetPasswordDialog.ResetPasswordDialog.SuccessDelayElapsed | components/reset-password-dialog.tsx:51-57 | goes to login, closes, and clears the code, the password and the success flag |
| ResetPasswordDialog.ResetPasswordDialog.ResetFailed | components/reset-password-dialog.tsx:59-61 | the dialog shakes; the code and the password are kept |
| ResetPasswordDialog.ResetPasswordDialog.ShakeElapsed | components/reset-password-dialog.tsx:61 | the shake stops |
| ResetPasswordDialog.ResetPasswordDialog.ResendClicked | components/reset-password-dialog.tsx:68-70 | a resend is started iff the button is shown (before success) and neither request is pending (the button at lines 166-174) |
| ResetPasswordDialog.ResetPasswordDialog.ResendSettled | components/reset-password-dialog.tsx:68-70 | the resend is no longer pending; nothing else changes |
| ResetPasswordDialog.EnabledSubmitSends | components/reset-password-dialog.tsx:45-47 | a click on an enabled submit button always sends the request, with the password as typed (the button at line 157) |
| JsText.Trim | components/reset-password-dialog.tsx:45-72 | the result is `s` with a white-space prefix and a white-space suffix cut off, and it neither starts nor ends with white space; it is empty iff `s` is all white space |
| JsText.TrimIsTheOnlyCut | components/reset-password-dialog.tsx:45-72 | any cut that drops only white space at each end and keeps none at either end of what remains equals Trim, so the contract fixes the value |
| JsText.JoinSplit | components/nav-user.tsx:102 | joining the pieces of `split(" ")` gives the name back |
| JsText.FirstCharsOfSplit | components/nav-user.tsx:101-104 | the first characters of the pieces are exactly the word starts |
| JsText.ParseDecimalString | components/users/users-data-table.tsx:389-391 | parseInt reads back what toString wrote |

## Left out

- Rendering, CSS classes, icons, skeleton markup, toasts, the clipboard copy, router navigation, localStorage and sessionStorage are left out. These are side effects. A navigation appears only as a returned flag or value.
- HTTP calls, the Axios client, lib/api.ts and hooks/use-users.ts are left out. Requests are returned as values and their outcome is a method call. Cache invalidation after a mutation is not modelled.
- react-table's sorting, row selection, column visibility and client-side filtering are left out. That library's code is not part of this model.
- date-fns formatting of the creation, update and last-login dates is left out. So are the other cells of the table (name, avatar letter, e-mail, phone).
- The sidebar entry's logout handler (clears stored tokens, then goes to /login) and its loading skeleton are left out. They are storage and rendering only.
- The login, signup and forgot-password forms, the sidebar, app/page.tsx and the coming-soon page are left out. They are form plumbing or static content.
- Timers do not measure time. Each one is a single "delay elapsed" step. A dialog that closes before its timer fires is not modelled.
- Closing the OTP and reset dialogs is returned as a flag (`closeDialog`), because the open state belongs to the caller.
- Whether a mutation's per-call callbacks fire when the same mutation is started twice is left out. That is library behaviour.
- The React effects in the dialogs compare their dependencies by value in this model; React compares arrays by reference. The roles dialog receives `selectedUser.roles` as a field reference, so the two comparisons agree for a given selected user.
- UsersPage.UsersPage.OpenDialog: the roles and risk arguments that handleUpdateRole and handleUpdateFraudRisk receive are not used by the source, so the `["USER"]` default of Columns.RoleArgument never reaches the roles dialog. The dialog gets `selectedUser.roles` instead, which the model passes on as an Option.
- UpdateDialogs.RolesDialog.constructor: takes a list. The roles field of a user is typed `string[]`, but the model keeps it optional, as the server may omit it. A missing list is never handed to the roles dialog in this model. The source would hand over `undefined`, and `.includes` and `.length` would then fail; that crash is not modelled.
- UsersPage.UsersPage.SetDialogOpen: requires a selected user. The dialogs, and so their onOpenChange, exist only while one is selected.
- OtpDialog.OtpDialog.EnterOtp: requires at most 6 characters, which the input's maxLength guarantees.
- ResetPasswordDialog.ResetPasswordDialog.EditOtp: requires at most 6 characters, which the reset dialog's code input guarantees with `maxLength={6}` (components/reset-password-dialog.tsx:106).
- OtpDialog.OtpDialog.VerifySucceeded, OtpDialog.OtpDialog.VerifyFailed and OtpDialog.OtpDialog.SuccessDelayElapsed require the state in which the library or the timer can call them: a pending verify, or an accepted code. The same holds for ResetPasswordDialog.ResetPasswordDialog.ResetSucceeded and ResetPasswordDialog.ResetPasswordDialog.ResetFailed.
- UsersPage.RoleSelectRoundTrip and UsersPage.StatusSelectRoundTrip require a non-empty option value. Every option the selects offer is non-empty, and an empty one would show the default, because `||` treats "" as missing.
- UsersDataTable.Window and UsersDataTable.BuildPageStrip assume integer page numbers. NaN or fractional pages from a malformed answer are not modelled.
- JsText.Upper changes ASCII letters only. Full Unicode case mapping is not modelled.
- JsText.Upper, JsText.Trim, ResetPasswordDialog.IsFormValid, ResetPasswordDialog.SubmitGuard, Columns.DisplayId, NavUser.Initials: strings are sequences of code points, not UTF-16 units, so lengths, `slice` and `[0]` differ from JavaScript for characters outside the Basic Multilingual Plane.

## Findings

| source | as written | input that shows it | evidently intended | confidence | as-written member | corrected member |
|---|---|---|---|---|---|---|
| components/users/users-data-table.tsx:529 | the "last page" button is disabled only when `currentPage === totalPages` | while loading, or for an empty result, the page passes currentPage 1 and totalPages 0 (app/dashboard/users/page.tsx:214-215); the button is then enabled and requests page 0 | disabled whenever there is no later page, `currentPage >= totalPages` | not executed | UsersDataTable.LastPageEnabledWithoutPages | UsersDataTable.EnabledNavStaysInRange |
