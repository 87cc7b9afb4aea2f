# Asset manager front-end: a verified model of its decision logic

The asset manager's browser front-end lets staff browse and edit assets, and check them out to users, through assignments. Users can request an asset, and the people who oversee those requests approve, reject or fulfil them. Labels scope who may do what. A user holds role grants of the form `role: scope`, and a scope is either a label name or `*` for every label.

Most of the front-end is network plumbing and markup. This project models the decisions spread through it, in Dafny, and proves what those decisions promise:

- **Role checks** (`RoleUtils`): `hasRole`, `hasRoleAccess`, `hasRoleAccessString`, `hasScopeAll` and `labelsFromRoles`. It proves the wildcard's dominance, that access to a scope list carries over to every sub-list, and that an empty scope list passes vacuously.
- **Shared utilities and guards**:
  - the due-date messages and day arithmetic (`DateUtils`), with the message parsed back to its day count;
  - the password-complexity rule (`AuthUtils`), stated class by class;
  - the route guard (`PrivateRoute`);
  - the navigation menu and drawer (`Layout`);
  - the theme cycle and its stored mode (`ThemeContext`);
  - the back-link tracker with its `backFrom` memory (`HistoryContext`);
  - the three-state confirm and result popup (`ConfirmAlert`).
- **The pages**, one module each. For every page the model covers:
  - which screen and which buttons appear, and for whom;
  - the list filters and their round trip through the URL query;
  - ordering and the ten-per-page slices;
  - form validation and error dictionaries;
  - the `toInt` and `toCurrency` formatters;
  - the `role: scope` format and parse pair;
  - the local label and role lists the label and role pages edit;
  - the dashboard tiles;
  - the confirm handlers, with the request each one sends.

Each page's mutable React state is a `class` whose methods are its event handlers. The handlers change only the fields their `modifies` clause allows, and they state the new state in full.

Some things outside the front-end become inputs:

- A backend call is a value of the `Domain.Call` datatype. Its fate is an `Outcome`: `Succeeded` or `Threw`. A handler returns a `HandlerRun`: the call it issued, if any, and the boolean it hands back to the confirm dialog.
- Time is an integer count of milliseconds on the local wall clock. "Now" is a parameter.
- Strings are sequences of Unicode characters. Where JavaScript counts length in UTF-16 code units (the password rule), `AuthUtils.Utf16Length` counts a character outside the Basic Multilingual Plane as two.
- The results of foreign libraries are parameters: the fuzzy search, the autocomplete's matcher and the e-mail validator.

## Model

| member | source | states |
|---|---|---|
| RoleUtils.LabelsFromRoles | src/utils/role_utils.ts:36-38 | every grant returned is one of the user's entries for the role, and every entry for the role is returned |
| RoleUtils.LabelsFromRolesConcat | src/utils/role_utils.ts:36-38 | the selection is order-preserving: the grants of two concatenated role lists are the grants of each list, in order |
| RoleUtils.HasRole | src/utils/role_utils.ts:3-5 | true exactly when some entry of the user's roles has that role name |
| RoleUtils.HasRoleAccessString | src/utils/role_utils.ts:15-26 | a '*' grant of the role admits every scope list; without one, access holds iff every requested scope has its own grant, so an empty list is admitted even with no grant |
| RoleUtils.AccessToSubList | src/utils/role_utils.ts:15-26 | access to a scope list gives access to every list drawn from it |
| RoleUtils.HasRoleAccess | src/utils/role_utils.ts:7-13 | the same verdict as hasRoleAccessString over the labels' names: '*' admits all, otherwise each label name needs a grant |
| RoleUtils.HasScopeAll | src/utils/role_utils.ts:28-34 | true exactly when the user holds the role with scope '*' |
| RoleUtils.ScopeAllGrantsEverything | src/utils/role_utils.ts:28-34 | a '*' grant implies hasRole and access to every scope list |
| DateUtils.StartOfDay | src/utils/date_utils.ts:5-6 | local midnight of the given instant: at or before it, less than a day before it, and a whole number of days |
| DateUtils.StartOfDayShift | src/utils/date_utils.ts:5-6 | moving an instant by whole days moves its midnight by the same amount |
| DateUtils.GetDueDateInfo | src/utils/date_utils.ts:1-24 | days is the number of midnights from today to the due day, positive exactly when the due day is later; the message is "due today" exactly when days is 0, and it is the message of that same day count |
| DateUtils.ParseCount | src/utils/date_utils.ts:13-18 | reads "N day"/"N days" plus a suffix back into a positive count (the reader the round trip is stated with) |
| DateUtils.ParseCountOf | src/utils/date_utils.ts:13-18 | the count written as digits with "day", pluralised unless it is 1, reads back as that count |
| DateUtils.DueMessageRoundTrip | src/utils/date_utils.ts:12-23 | reading the message back gives the days field for every day count: "due in N day(s)" for the future, "due N day(s) ago" for the past, "due today" only for 0, singular exactly for 1 and -1 |
| DateUtils.DueMessage | src/utils/date_utils.ts:12-21 | the message for a whole-day difference; DueMessageRoundTrip states that it reads back as that difference |
| DateUtils.Plural | src/utils/date_utils.ts:14-18 | "day" takes no ending for exactly one and an 's' for every other count |
| DateUtils.ParseDueMessage | src/utils/date_utils.ts:12-21 | reads a due message back into its day count, the partner of DueMessage in DueMessageRoundTrip |
| DateUtils.DueInRoundTrip | src/utils/date_utils.ts:13-14 | the future branch of the round trip |
| DateUtils.DueAgoRoundTrip | src/utils/date_utils.ts:15-18 | the past branch of the round trip, with the absolute value in the message |
| DateUtils.ReadAgo | src/utils/date_utils.ts:15-18 | "due " followed by a count and " ago" reads back as minus that count, never as "due today" or "due in" |
| DateUtils.AddDays | src/utils/date_utils.ts:26-30 | the result is `days` calendar days later (earlier when negative) at the same time of day |
| AuthUtils.LongToEnd | src/utils/auth_utils.ts:2 | the `(?=.{8,}$)` lookahead at position 0: true iff the password is at least eight UTF-16 code units long (a character outside the Basic Multilingual Plane counts two) and has no line terminator anywhere |
| AuthUtils.CodeUnits | src/utils/auth_utils.ts:2 | a character takes two UTF-16 code units exactly when it lies outside the Basic Multilingual Plane, otherwise one |
| AuthUtils.Utf16Length | src/utils/auth_utils.ts:2 | a string's UTF-16 length lies between its character count and twice that, and equals the character count when every character is inside the Basic Multilingual Plane |
| AuthUtils.NoLineTerminatorScan | src/utils/auth_utils.ts:2 | true iff no character is a line terminator |
| AuthUtils.Reaches | src/utils/auth_utils.ts:2 | the `(?=.*?K)` lookahead at position 0: true iff some character of the class occurs with no line terminator before it |
| AuthUtils.VerifyPasswordComplexity | src/utils/auth_utils.ts:1-6 | accepted iff at least 8 UTF-16 code units, no line terminator, and at least one ASCII digit, one ASCII lower-case letter, one ASCII upper-case letter and one character that is none of those nor whitespace |
| AuthUtils.AstralCharactersCountTwice | src/utils/auth_utils.ts:1-6 | a six-character password with two emoji is eight code units long and is accepted |
| PrivateRoute.Decide | src/components/PrivateRoute.tsx:7-34 | no user: /login first, without logout; logout exactly for a user whose expiry is missing or past; /login exactly when there is no user or the login has expired; /reset-password exactly for a live flagged user off that path; children exactly when every earlier check passes and roles are omitted or some group is wholly held; Unauthorized exactly when every earlier check passes, roles are given and no group is wholly held (so an empty roles list admits nobody and an empty group admits everybody) |
| PrivateRoute.Expired | src/components/PrivateRoute.tsx:18-19 | the expiry test Decide is stated in: a missing expiry, or one before now; an unparseable date is never expired |
| Layout.MenuShape | src/components/Layout.tsx:22-35 | the menu has 2 to 5 entries, Dashboard first, Assignments last, each optional entry present exactly when its flag is set, in the fixed order |
| Layout.Menu | src/components/Layout.tsx:22-35 | the menu as a value; MenuShape states its entries and order |
| Layout.GenerateNavItems | src/components/Layout.tsx:22-35 | the pushes build exactly the menu for the user's roles: Assets iff ReadAsset, Users iff ReadUser, Requests iff CheckInOutAsset or RequestAsset, Dashboard first and Assignments last, in order |
| Layout.Drawer.constructor | src/components/Layout.tsx:41 | the drawer starts closed |
| Layout.Drawer.Toggle | src/components/Layout.tsx:46 | toggleDrawer flips the open flag |
| ThemeContext.ParseMode | src/context/ThemeContext.tsx:12-13 | a stored text is adopted only when it names a mode, and then as exactly that mode |
| ThemeContext.ParseModeName | src/context/ThemeContext.tsx:12-20 | every mode name written to storage is read back as that mode |
| ThemeContext.NextMode | src/context/ThemeContext.tsx:16-18 | toggling always changes the mode |
| ThemeContext.NextModeCycle | src/context/ThemeContext.tsx:16-18 | light, dark, system form a cycle: three toggles restore every mode, one or two do not |
| ThemeContext.CurrentMode | src/context/ThemeContext.tsx:23-24 | the effective mode is never system: explicit modes pass through, system resolves to dark exactly when dark is preferred |
| ThemeContext.SavedMode | src/context/ThemeContext.tsx:11 | a missing or empty entry reads as 'system'; otherwise the stored text is read |
| ThemeContext.ToggleSurvivesReload | src/context/ThemeContext.tsx:11-20 | after a toggle, a reload adopts the toggled mode whatever else storage holds |
| ThemeContext.ThemeProvider.constructor | src/context/ThemeContext.tsx:7 | the initial mode is system and storage is untouched |
| ThemeContext.ThemeProvider.LoadSaved | src/context/ThemeContext.tsx:10-14 | the mount effect adopts the saved mode only if it names a mode, else keeps the state; storage is unchanged |
| ThemeContext.ThemeProvider.ToggleTheme | src/context/ThemeContext.tsx:16-21 | the mode moves to the next one and exactly that mode's name is stored under 'themeMode' |
| HistoryContext.ParentOf | src/context/HistoryContext.tsx:20-24 | dropping the last segment of q + "/" + leaf gives back q (split then join round trip) |
| HistoryContext.FirstSegment | src/context/HistoryContext.tsx:17-19 | `path.split('/')[1]`, absent without a '/'; Back is stated in terms of it |
| HistoryContext.Parent | src/context/HistoryContext.tsx:20 | the path without its last segment; ParentOf states that it undoes appending a segment |
| HistoryContext.Back | src/context/HistoryContext.tsx:10-32 | no previous path: no link and backFrom cleared; backFrom is only ever the current page, remembered exactly when crossing into another first segment other than by returning to backFrom; the link is then the previous page, and otherwise the current path's parent |
| HistoryContext.BackAndForth | src/context/HistoryContext.tsx:16-32 | crossing sections links back to the page left, and following that link back links to that page's parent instead of forward again |
| HistoryContext.HistoryTracker.constructor | src/context/HistoryContext.tsx:7-8 | both refs start null |
| HistoryContext.HistoryTracker.Render | src/context/HistoryContext.tsx:10-32 | a render yields the link and backFrom Back computes from the old refs, and the effect leaves prevLocation at the current path |
| ConfirmAlert.ConfirmAlert.constructor | src/components/ConfirmAlert.tsx:24-25 | status starts as success and no window is open; no callback has run |
| ConfirmAlert.ConfirmAlert.ConfirmOpen | src/components/ConfirmAlert.tsx:54-62 | the confirm dialog (state 1) and the result popup (state 2) are never open together |
| ConfirmAlert.ConfirmAlert.PopupMessage | src/components/ConfirmAlert.tsx:65 | the popup shows the success message exactly when the status is success |
| ConfirmAlert.ConfirmAlert.OnOpenChange | src/components/ConfirmAlert.tsx:27-29 | open with nothing showing moves to state 1; otherwise nothing changes |
| ConfirmAlert.ConfirmAlert.HandleConfirmClose | src/components/ConfirmAlert.tsx:31-42 | the status is success iff onClose resolved true (a rejection is failure); a confirmed action moves to the popup, a cancelled one to state 0 with one closePopup call |
| ConfirmAlert.ConfirmAlert.HandleAlertClose | src/components/ConfirmAlert.tsx:44-48 | the window closes, closePopup is called once, and onComplete receives whether the status is success |
| AssetForm.CommafyLength | src/pages/Assets/AssetForm.tsx:49 | grouping a run of digits adds one comma per full group of three after the first digit |
| AssetForm.CommafyCommas | src/pages/Assets/AssetForm.tsx:49 | inside a grouped run a character is a comma exactly when a multiple of four characters follows it up to the end |
| AssetForm.CommafyKeepDigits | src/pages/Assets/AssetForm.tsx:49 | deleting the commas from a grouped run gives back the digits that were grouped |
| AssetForm.Commafy | src/pages/Assets/AssetForm.tsx:49 | the grouping regex over a run of digits read from position i; CommafyLength, CommafyCommas and CommafyKeepDigits state its length, comma positions and digits |
| AssetForm.GroupDigits | src/pages/Assets/AssetForm.tsx:49-55 | the thousands grouping of a digit string holds only digits and commas, loses no digit, puts a comma exactly before each group of three counted from the right (never first), and its length is the digits plus (n-1)/3 commas |
| AssetForm.ToInt | src/pages/Assets/AssetForm.tsx:52-56 | the maintenance-rate display keeps exactly the digits of the input, in order, grouped by thousands with commas and nothing else |
| AssetForm.ToIntIdempotent | src/pages/Assets/AssetForm.tsx:52-56 | reformatting an already formatted rate changes nothing |
| AssetForm.KeepDigitsAndDots | src/pages/Assets/AssetForm.tsx:47 | the second replace keeps a character exactly when it is a digit or a dot: every digit and dot of the input survives and nothing else does |
| AssetForm.KeepDigitsAndDotsIsFilter | src/pages/Assets/AssetForm.tsx:47 | the replace is the order-keeping filter of the digits and dots |
| AssetForm.Prepared | src/pages/Assets/AssetForm.tsx:45-47 | the value after the first two replaces; PreparedValue states what it is |
| AssetForm.CleanCurrency | src/pages/Assets/AssetForm.tsx:45-48 | the value after the first three replaces; CleanCurrencyShaped states its shape |
| AssetForm.PreparedValue | src/pages/Assets/AssetForm.tsx:46-47 | after the first two replaces a value without a dot is its digits, and one with a dot is the digits before its first dot, one dot, then the digits after it (later dots are dropped) |
| AssetForm.CleanCurrencyShaped | src/pages/Assets/AssetForm.tsx:46-48 | after the cents truncation the cost is digits with at most one dot, and when it has both integer digits and a dot, at most two digits follow the dot |
| AssetForm.TruncateCentsShaped | src/pages/Assets/AssetForm.tsx:48 | the cents truncation leaves an already truncated value alone |
| AssetForm.CurrencyParts | src/pages/Assets/AssetForm.tsx:48-49 | a truncated cost splits into its integer digits and its fraction, and the grouping only inserts commas into the integer digits |
| AssetForm.IntegerPart | src/pages/Assets/AssetForm.tsx:49 | the part of a cost before its dot is a dot-free prefix ending at the dot or the end |
| AssetForm.ToCurrencyShape | src/pages/Assets/AssetForm.tsx:43-50 | a formatted cost holds only digits, commas and at most one dot; only digits follow the dot, at most two of them when the dot is not first; the integer part is grouped by thousands |
| AssetForm.ToCurrencySplit | src/pages/Assets/AssetForm.tsx:43-50 | a formatted cost is a grouped integer part followed by an optional dot and fraction digits |
| AssetForm.ToCurrency | src/pages/Assets/AssetForm.tsx:43-50 | toCurrency as the four replaces in turn; ToCurrencyShape, ToCurrencySplit and ToCurrencyIdempotent state what it produces |
| AssetForm.ToCurrencyWithoutDot | src/pages/Assets/AssetForm.tsx:43-56 | for input without a dot the cost formatting and the rate formatting agree |
| AssetForm.ToCurrencyIdempotent | src/pages/Assets/AssetForm.tsx:43-50 | formatting an already formatted cost changes nothing, so the typed field is stable |
| AssetForm.FormattedKeepsCursor | src/pages/Assets/AssetForm.tsx:131-140 | a value that is already formatted, such as a pasted amount, is reformatted with no cursor shift (offset 0) |
| AssetForm.TypingShiftsCursor | src/pages/Assets/AssetForm.tsx:131-140 | a keystroke can shift the cursor: four typed digits, such as a 9 typed after the formatted "999", are grouped as d,ddd and the cursor moves one place on |
| AssetForm.CursorOffset | src/pages/Assets/AssetForm.tsx:131-135 | the cursor shift is the comma count after formatting minus the comma count typed; FormattedKeepsCursor states it is zero for a formatted amount |
| AssetForm.SubmitErrors | src/pages/Assets/AssetForm.tsx:78-80 | the only possible error is 'label', present exactly when no label is selected |
| AssetForm.SaveCall | src/pages/Assets/AssetForm.tsx:94-113 | a new asset is added with its labels, an existing one updated by its id without labels; both send the six form fields asset_tag, name, description, purchase_date, purchase_cost and maintenance_rate as held in the form (a field never set as empty) |
| AssetForm.SentCostIsFormatted | src/pages/Assets/AssetForm.tsx:94-113 | a cost stored by updateForm is sent as its formatted value, which is a fixed point of the formatting and made only of digits, commas and dots |
| AssetForm.FirstNamed | src/pages/Assets/AssetForm.tsx:153 | the lookup returns the first label of the list with the given name: no earlier label has it, and none is found exactly when no label has that name |
| AssetForm.Scopes | src/pages/Assets/AssetForm.tsx:153 | the scopes of the grants, one per grant, in order |
| AssetForm.ScopeLabels | src/pages/Assets/AssetForm.tsx:153-154 | the labels are the map of `find` over the grants with the undefined results dropped, so one label per grant whose scope names an existing label, in grant order; every kept label is an existing label named by some grant's scope |
| AssetForm.FoundLabelsMapsThenDrops | src/pages/Assets/AssetForm.tsx:153-154 | the one-pass scan equals the map followed by the filter, and keeps as many labels as there are grants whose scope names a label |
| AssetForm.FirstNamedFound | src/pages/Assets/AssetForm.tsx:153 | `find` by name returns a label exactly when the name is among the label names |
| AssetForm.LabelOptions | src/pages/Assets/AssetForm.tsx:150-154 | with CreateEditAsset on '*' every label is offered; otherwise every offered label is one the user holds CreateEditAsset on, and every such grant naming an existing label is offered |
| AssetForm.AssetFormPage.constructor | src/pages/Assets/AssetForm.tsx:69-75 | the form starts with the given values and labels, no errors, no dialog open, nothing pending and no saved id |
| AssetForm.AssetFormPage.UpdateForm | src/pages/Assets/AssetForm.tsx:125-145 | only the edited field changes; the cost field stores the formatted value and moves the cursor by the change in the comma count; other fields keep the raw text |
| AssetForm.AssetFormPage.HandleLabelChange | src/pages/Assets/AssetForm.tsx:146-148 | the selected labels are replaced and nothing else changes |
| AssetForm.AssetFormPage.HandleSubmit | src/pages/Assets/AssetForm.tsx:77-86 | the errors become exactly the submit errors and the confirm opens only when a label is selected |
| AssetForm.AssetFormPage.HandleConfirmClose | src/pages/Assets/AssetForm.tsx:88-123 | a cancel sends nothing and succeeds; a confirm sends the save call, records the saved id on success or the thrown message under 'general' on failure, and always clears the pending flag |
| AssetDetail.DetailScreenFor | src/pages/Assets/AssetDetail.tsx:114-120 | loading shows nothing; Not Found exactly when loading finished without an asset; the error view exactly when an asset loaded with an error; the redirect of a deleted asset and the detail exactly when the asset loaded without error, split by its deleted flag |
| AssetDetail.OpenRequest | src/pages/Assets/AssetDetail.tsx:283-297 | the request found is the first pending or approved request for this asset in the list, which View Request links to; none is found exactly when no such request exists |
| AssetDetail.HasOwnOpenRequest | src/pages/Assets/AssetDetail.tsx:263-268 | true exactly when the user has a pending or approved request for this asset |
| AssetDetail.OpenAssignment | src/pages/Assets/AssetDetail.tsx:307-320 | the assignment found is the first unreturned assignment of this asset in the list, which View Assignment links to; none is found exactly when there is none |
| AssetDetail.StatusButtons | src/pages/Assets/AssetDetail.tsx:202-242 | each check-in or check-out button is present exactly when its flag is set, and only such buttons appear |
| AssetDetail.ManageButtons | src/pages/Assets/AssetDetail.tsx:243-277 | Edit, Retire and Request are present exactly when their flags are set |
| AssetDetail.LinkButtons | src/pages/Assets/AssetDetail.tsx:278-335 | View Request and View Assignment point at the found request and assignment, and Add Labels and Link appear exactly when their flags are set |
| AssetDetail.ViewButtons | src/pages/Assets/AssetDetail.tsx:278-325 | View Request appears exactly when a request was found and links to it, and View Assignment likewise for the open assignment |
| AssetDetail.LabelLinkButtons | src/pages/Assets/AssetDetail.tsx:326-335 | Add Labels and Link Asset appear exactly when their access flags are set |
| AssetDetail.Layout | src/pages/Assets/AssetDetail.tsx:201-344 | the button row always ends with Back |
| AssetDetail.Buttons | src/pages/Assets/AssetDetail.tsx:201-344 | the buttons the page renders, in order; ButtonsExclusive and the layout lemmas state which appear together |
| AssetDetail.BackTarget | src/pages/Assets/AssetDetail.tsx:340 | the previous page when there is one, else '/assets'; ShownFor states that Back carries it |
| AssetDetail.ShownFor | src/pages/Assets/AssetDetail.tsx:202-340 | each button's condition: check-in/out by CheckInOutAsset access and status, Edit and Add Labels by CreateEditAsset, Retire by RetireAsset, Link by LinkAsset, Request by RequestAsset without CheckInOutAsset on an available asset with no open request of the user's own, View Request on a reserved asset with an open request, View Assignment on an in-use asset with an open assignment, Back to the previous page or '/assets' |
| AssetDetail.LayoutShowsStatus | src/pages/Assets/AssetDetail.tsx:202-242 | each check-in or check-out button is in the rendered row exactly when its condition holds |
| AssetDetail.LayoutShowsManage | src/pages/Assets/AssetDetail.tsx:243-277 | Edit, Retire and Request are in the rendered row exactly when their conditions hold |
| AssetDetail.LayoutShowsLinks | src/pages/Assets/AssetDetail.tsx:326-335 | Add Labels and Link are in the rendered row exactly when their conditions hold |
| AssetDetail.LayoutViews | src/pages/Assets/AssetDetail.tsx:278-325 | a View Request or View Assignment button is in the row exactly when one is found, pointing at it |
| AssetDetail.ShownExclusive | src/pages/Assets/AssetDetail.tsx:202-277 | the status admits at most one kind of check-in or check-out, and Request is never offered beside Check In or Check Out |
| AssetDetail.LayoutExclusive | src/pages/Assets/AssetDetail.tsx:201-344 | exclusive conditions give a row with exclusive buttons and Back last |
| AssetDetail.ButtonsExclusive | src/pages/Assets/AssetDetail.tsx:201-344 | the rendered row never shows two conflicting check-in or check-out buttons, never Request beside them, and ends with Back |
| AssetDetail.ActionCall | src/pages/Assets/AssetDetail.tsx:70-112 | each dialog calls the endpoint of its own action on this asset; only Retire deletes |
| AssetDetail.HandleConfirm | src/pages/Assets/AssetDetail.tsx:70-112 | a cancel calls nothing and reports success; a confirm calls the action's endpoint and reports success exactly when it did not throw |
| AssetRow.StatusColour | src/components/AssetRow.tsx:7-14 | each status has its own chip colour: Available success, In Use primary, Maintenance warning, Reserved secondary |
| AssetRow.NextMaintenance | src/components/AssetRow.tsx:18-21 | the next maintenance falls maintenance_rate whole days after the last maintenance (or the purchase date), at the same time of day |
| AssetRow.MaintenanceBase | src/components/AssetRow.tsx:18-19 | the base date is the last maintenance, or the purchase date when there was none; NextMaintenance states the date counted from it |
| AssetRow.MaintenanceColour | src/components/AssetRow.tsx:23-26 | the chip is error for a day count of 0 or less, warning for 1 to 40, info above 40 |
| AssetRow.MaintenanceChip | src/components/AssetRow.tsx:18-26 | the chip shows the due message for the calendar days until the next maintenance and takes MaintenanceColour of that count: error exactly when that day is today or past, warning exactly when it is 1 to 40 days away, info exactly when it is further |
| AssetRow.ChipAgreesWithMessage | src/components/AssetRow.tsx:22-26 | the chip's message can be read back as a day count, and the chip is error exactly when that count is 0 or less |
| AssetRow.RowTargetsDistinct | src/components/AssetRow.tsx:31 | rows of different assets lead to different detail pages |
| AssetRow.RowTarget | src/components/AssetRow.tsx:31 | a row leads to its asset's detail page; RowTargetsDistinct states that different assets lead to different pages |
| AssetList.StatusChoicesAreNames | src/pages/Assets/AssetList.tsx:98-102 | every asset status is one of the choices the filter accepts |
| AssetList.Param | src/pages/Assets/AssetList.tsx:27-28 | a missing query parameter reads as empty |
| AssetList.InitialStatusFilter | src/pages/Assets/AssetList.tsx:28-33 | the status filter starts as the 'status' parameter when it is one of the four statuses, and empty otherwise |
| AssetList.InitialFilters | src/pages/Assets/AssetList.tsx:26-33 | the search term starts as the 'search' parameter and the status filter as above |
| AssetList.WriteParams | src/pages/Assets/AssetList.tsx:77-95 | the query string written holds exactly the search term and the status filter |
| AssetList.ChangeSearch | src/pages/Assets/AssetList.tsx:77-83 | typing changes only the search term and writes both filters to the query string |
| AssetList.ChangeStatus | src/pages/Assets/AssetList.tsx:89-95 | choosing a status changes only the status filter and writes both filters to the query string |
| AssetList.ReloadRestoresFilters | src/pages/Assets/AssetList.tsx:26-95 | reading back the query string a change wrote restores the filters that change set |
| AssetList.InitialStatusIsChoice | src/pages/Assets/AssetList.tsx:29-33 | whatever the query string, the initial status filter is empty or a status |
| AssetList.FilteredAssets | src/pages/Assets/AssetList.tsx:47-58 | the listed assets come from the search results when a term is set (else all assets); with a status filter they are exactly those of that status, otherwise all of them |
| AssetList.NoFiltersShowsAll | src/pages/Assets/AssetList.tsx:47-58 | with no term and no status every asset is listed, in order |
| AssetList.StatusFilterKeepsOrder | src/pages/Assets/AssetList.tsx:53-55 | filtering by status keeps the relative order of the assets |
| AssetList.AssetListView | src/pages/Assets/AssetList.tsx:60-125 | a load error shows the alert; otherwise the New button follows CreateEditAsset, the count is the number filtered, and the page shows at most ten rows, those at the page's offsets |
| AssetList.EveryAssetOnItsPage | src/pages/Assets/AssetList.tsx:65 | every filtered asset appears on page i/10 at row i%10 |
| AssignmentDetail.AssignmentScreenFor | src/pages/Assignments/AssignmentDetail.tsx:60-65 | each early return exactly when its condition holds: nothing while loading, Not Found when loading finished without an assignment, the error view when one loaded with an error, the detail when one loaded without |
| AssignmentDetail.ReturnedLate | src/pages/Assignments/AssignmentDetail.tsx:75-77 | an assignment was returned late exactly when it was returned more than one day after its due date |
| AssignmentDetail.LateReturnSortsLast | src/pages/Assignments/AssignmentDetail.tsx:75-77 | an assignment shown as returned late also counts as returned overdue in the assignment list's ordering |
| AssignmentDetail.ReturnWithinADayOnTime | src/pages/Assignments/AssignmentDetail.tsx:75-77 | a return within a day of the due date is shown on time |
| AssignmentDetail.ReturnedStatus | src/pages/Assignments/AssignmentDetail.tsx:125-141 | the return chip appears exactly for returned assignments, reading Late in error colour when returned late and On Time in success colour otherwise |
| AssignmentDetail.AssignmentBackTarget | src/pages/Assignments/AssignmentDetail.tsx:184 | Back leads to the previous page when there is one, else to '/assignments'; AssignmentButtons puts it last |
| AssignmentDetail.AssignmentButtons | src/pages/Assignments/AssignmentDetail.tsx:157-188 | Check In appears exactly for an unreturned assignment the user may check in; Request Immediate Return additionally needs the due instant still in the future; Back comes last |
| AssignmentDetail.ReturnRequestNeedsCheckIn | src/pages/Assignments/AssignmentDetail.tsx:158-179 | Request Immediate Return never appears without Check In, and a returned assignment shows only Back |
| AssignmentDetail.HandleConfirmCloseCheckIn | src/pages/Assignments/AssignmentDetail.tsx:38-47 | a cancel calls nothing and succeeds; a confirm checks the asset in by this assignment's id and succeeds exactly when that did not throw |
| AssignmentDetail.HandleConfirmCloseReturn | src/pages/Assignments/AssignmentDetail.tsx:49-58 | a cancel calls nothing and succeeds; a confirm requests the return by this assignment's id and succeeds exactly when that did not throw |
| AssignmentRow.DueColour | src/components/AssignmentRow.tsx:10-15 | a returned assignment's chip is success; an open one is error at 0 days or less, warning for 1 to 7, info above 7 |
| AssignmentRow.DueChip | src/components/AssignmentRow.tsx:9-15 | the chip's message is the due message for the whole days between today's midnight and the due day's midnight, and its colour is DueColour of that count: success when returned; for an open one error exactly when the due day is today or past, warning exactly when it is 1 to 7 days away, info exactly when it is further |
| AssignmentRow.DueChipAgreesWithMessage | src/components/AssignmentRow.tsx:9-15 | the chip's message reads back as a day count; an open assignment's chip is error exactly when that count is 0 or less, and a returned one's never is |
| AssignmentRow.AssignmentRowTargetsDistinct | src/components/AssignmentRow.tsx:20 | rows of different assignments lead to different detail pages |
| AssignmentRow.AssignmentRowTarget | src/components/AssignmentRow.tsx:20 | a row leads to its assignment's detail page; AssignmentRowTargetsDistinct states that different assignments lead to different pages |
| AssignmentRow.ReturnedCell | src/components/AssignmentRow.tsx:33-36 | the returned-at cell holds the return instant, and is empty exactly when returned_at is null |
| AssignmentRow.ReturnedCellIffSuccess | src/components/AssignmentRow.tsx:9-36 | a row shows a return date exactly when its chip is green |
| AssignmentList.InitialStatusFilter | src/pages/Assignments/AssignmentList.tsx:24-27 | the status filter starts as the 'status' parameter when it is 'Checked Out' or 'Returned', and empty otherwise |
| AssignmentList.InitialRelationshipFilter | src/pages/Assignments/AssignmentList.tsx:28-31 | the relationship Select starts as the 'relationship' parameter when it is 'Assigner' or 'Requester', and empty otherwise |
| AssignmentList.StatusFiltered | src/pages/Assignments/AssignmentList.tsx:41-46 | no status keeps all; 'Checked Out' keeps exactly the unreturned assignments; any other status keeps exactly the returned ones |
| AssignmentList.RelationshipFiltered | src/pages/Assignments/AssignmentList.tsx:47-54 | on the raw parameter: empty keeps all; 'Assigner' keeps exactly those the user assigned; any other value keeps exactly those assigned to the user |
| AssignmentList.FilteredMembership | src/pages/Assignments/AssignmentList.tsx:38-54 | an assignment is listed exactly when it is fetched and passes both filters |
| AssignmentList.Filtered | src/pages/Assignments/AssignmentList.tsx:41-54 | the status filter, then the relationship filter; FilteredMembership states which assignments pass |
| AssignmentList.SortByDue | src/pages/Assignments/AssignmentList.tsx:56-58 | the sort leaves the array ordered by due date and a permutation of what it was |
| AssignmentList.InsertIntoSorted | src/pages/Assignments/AssignmentList.tsx:56-58 | one insertion step extends the sorted prefix by one element and permutes the array |
| AssignmentList.OverdueLast | src/pages/Assignments/AssignmentList.tsx:59-73 | moving the returned-and-overdue assignments to the end permutes the list and leaves none of them before one that is not |
| AssignmentList.FilterKeepsSorted | src/pages/Assignments/AssignmentList.tsx:59-73 | filtering a due-date-ordered list keeps it ordered |
| AssignmentList.OverdueLastKeepsOrder | src/pages/Assignments/AssignmentList.tsx:56-73 | after sorting, the two parts stay in due-date order |
| AssignmentList.Arrange | src/pages/Assignments/AssignmentList.tsx:38-76 | the list set is a permutation of the filtered assignments with the returned-and-overdue ones last and each part by due date; with no filter the fetched array itself ends up sorted, with a filter it is left untouched |
| AssignmentList.Arranged | src/pages/Assignments/AssignmentList.tsx:56-73 | what the effect promises of the list it sets: a permutation of the filtered assignments, returned-and-overdue ones last, each part by due date |
| AssignmentList.AssignmentListView | src/pages/Assignments/AssignmentList.tsx:78-83 | a load error shows the alert; otherwise the count is the number listed and the page shows at most ten rows, those at the page's offsets |
| CheckoutAsset.ParseNatZero | src/pages/Assets/CheckoutAsset.tsx:54 | a digit string parses as zero exactly when all its digits are '0' |
| CheckoutAsset.DueInDaysRejectedIff | src/pages/Assets/CheckoutAsset.tsx:54-56 | the day count is rejected exactly when the field is empty or all zeros |
| CheckoutAsset.ValidateErrors | src/pages/Assets/CheckoutAsset.tsx:51-59 | the 'user' error appears exactly when no user is chosen and the 'dueInDays' error exactly when the day count is rejected, each with its message, and no other key |
| CheckoutAsset.CheckoutCall | src/pages/Assets/CheckoutAsset.tsx:37-43 | the checkout sends the route's asset id, the chosen user's id and the parsed day count |
| CheckoutAsset.CheckoutBackTarget | src/pages/Assets/CheckoutAsset.tsx:119 | Back leads to the previous page when there is one, else to the asset's detail page, and never to an empty path |
| CheckoutAsset.CheckoutDoneTarget | src/pages/Assets/CheckoutAsset.tsx:133 | after the popup closes the page goes to the asset's detail page; BackWithoutHistoryIsDoneTarget relates it to Back |
| CheckoutAsset.BackWithoutHistoryIsDoneTarget | src/pages/Assets/CheckoutAsset.tsx:119-133 | without a previous page, Back and the end of a checkout lead to the same page, which names this asset and no other |
| CheckoutAsset.ValidatedCallPositive | src/pages/Assets/CheckoutAsset.tsx:35-64 | once validation passes, a user is chosen and the day count sent is positive |
| CheckoutAsset.CheckoutAssetPage.constructor | src/pages/Assets/CheckoutAsset.tsx:29-33 | no user, an empty field, no errors and the dialog closed |
| CheckoutAsset.CheckoutAssetPage.ChangeDueInDays | src/pages/Assets/CheckoutAsset.tsx:105 | the field keeps only the digits typed, so it always holds digits only |
| CheckoutAsset.CheckoutAssetPage.ChangeUser | src/pages/Assets/CheckoutAsset.tsx:66-68 | only the chosen user changes |
| CheckoutAsset.CheckoutAssetPage.Validate | src/pages/Assets/CheckoutAsset.tsx:51-59 | the errors become exactly the validation errors, and the result is true exactly when there are none |
| CheckoutAsset.CheckoutAssetPage.HandleSubmit | src/pages/Assets/CheckoutAsset.tsx:61-64 | validation runs and the confirm opens only when it passes |
| CheckoutAsset.CheckoutAssetPage.HandleConfirm | src/pages/Assets/CheckoutAsset.tsx:35-49 | a cancel calls nothing and succeeds; a confirm sends the checkout call for the chosen user and succeeds exactly when it did not throw |
| CheckoutRequest.RequestValidateErrors | src/pages/Requests/CheckoutRequest.tsx:32-39 | the 'dueInDays' error appears exactly when the day count is rejected, with its message, and no other key |
| CheckoutRequest.SameDayCountRule | src/pages/Requests/CheckoutRequest.tsx:32-39 | both checkout pages accept exactly the same day counts |
| CheckoutRequest.CheckoutRequestBackTarget | src/pages/Requests/CheckoutRequest.tsx:70 | Back leads to the previous page when there is one, else to the request's detail page, and never to an empty path |
| CheckoutRequest.RequestDoneTarget | src/pages/Requests/CheckoutRequest.tsx:84 | after the popup closes the page goes to the request's detail page; RequestBackWithoutHistoryIsDoneTarget relates it to Back |
| CheckoutRequest.RequestBackWithoutHistoryIsDoneTarget | src/pages/Requests/CheckoutRequest.tsx:70-84 | without a previous page, Back and the end of a checkout lead to the same page, which names this request and no other |
| CheckoutRequest.CheckoutRequestPage.constructor | src/pages/Requests/CheckoutRequest.tsx:17-19 | an empty field, no errors and the dialog closed |
| CheckoutRequest.CheckoutRequestPage.ChangeDueInDays | src/pages/Requests/CheckoutRequest.tsx:56 | the field keeps only the digits typed |
| CheckoutRequest.CheckoutRequestPage.HandleSubmit | src/pages/Requests/CheckoutRequest.tsx:41-44 | the errors become exactly the validation errors and the confirm opens only when there are none |
| CheckoutRequest.CheckoutRequestPage.HandleConfirm | src/pages/Requests/CheckoutRequest.tsx:21-30 | a cancel calls nothing and succeeds; a confirm checks out the route's request with the parsed day count, which is positive, and succeeds exactly when it did not throw |
| Dashboard.TotalUsersTile | src/pages/Dashboard.tsx:22-30 | 'Total Users' counts every fetched user and links to the user list |
| Dashboard.MyRequestTiles | src/pages/Dashboard.tsx:31-49 | 'Your Pending Requests' counts the user's pending requests and 'New Requests (last 7 days)' those requested after seven days ago, each with its own request-list link |
| Dashboard.OverseeCount | src/pages/Dashboard.tsx:54-57 | the oversee count is the number of pending requests of other users, never more than all pending requests |
| Dashboard.OverseenPending | src/pages/Dashboard.tsx:55-57 | the requests the oversee tile counts: pending and made by another user; OverseeCount states the count |
| Dashboard.OverseeTileAsWritten | src/pages/Dashboard.tsx:50-61 | 'Requests You Oversee' carries the oversee count and the link as written, whose request_type the request list does not accept |
| Dashboard.OverseeTile | src/pages/Dashboard.tsx:50-61 | 'Requests You Oversee' carries the oversee count and a link to the pending requests of other users ('Pending Requests', a type the request list accepts) |
| Dashboard.RoleTiles | src/pages/Dashboard.tsx:22-61 | the tiles pushed before the assignment tiles, as written; RoleTileNames states which appear |
| Dashboard.StockTiles | src/pages/Dashboard.tsx:91-108 | the tiles pushed after the assignment tiles; StockTileNames states which appear |
| Dashboard.DashboardTiles | src/pages/Dashboard.tsx:20-111 | getDashboards' result, in push order; NameLayoutShape states which tiles a user sees |
| Dashboard.AssignmentTiles | src/pages/Dashboard.tsx:62-90 | the three assignment tiles count the user's assignments, those overdue, and those due within seven days, all linking to the user's assignments |
| Dashboard.OverdueFor | src/pages/Dashboard.tsx:71-77 | the user's assignments due before now; OverdueAndDueSoonDisjoint states that no assignment is also due soon |
| Dashboard.DueSoonFor | src/pages/Dashboard.tsx:80-87 | the user's assignments due after now and within seven days; AssignmentTiles states the count |
| Dashboard.AssetTile | src/pages/Dashboard.tsx:91-108 | 'Available Assets' and 'In Use Assets' count the assets of that status and link to the asset list filtered by it |
| Dashboard.CountImplies | src/pages/Dashboard.tsx:54-57 | a filter whose predicate implies another's counts no more |
| Dashboard.CountDisjointBound | src/pages/Dashboard.tsx:62-90 | two disjoint filters inside a third count together no more than it |
| Dashboard.OverdueAndDueSoonDisjoint | src/pages/Dashboard.tsx:62-90 | no assignment is both overdue and due soon, so the two counts together never exceed 'Assigned To You' |
| Dashboard.RolesOf | src/pages/Dashboard.tsx:22-100 | the three role tests the dashboard makes: ReadUser, RequestAsset and CheckInOutAsset held on any scope |
| Dashboard.Names | src/pages/Dashboard.tsx:14-18 | the tile names, one per tile |
| Dashboard.RoleTileNames | src/pages/Dashboard.tsx:22-61 | the role tiles are Total Users, then the two request tiles, then the oversee tile, each present exactly with its role |
| Dashboard.StockTileNames | src/pages/Dashboard.tsx:91-108 | the asset tiles are Available Assets with RequestAsset, then In Use Assets with CheckInOutAsset |
| Dashboard.AssignmentTileNames | src/pages/Dashboard.tsx:62-90 | the assignment tiles are always present, in order |
| Dashboard.DashboardNames | src/pages/Dashboard.tsx:20-111 | the flattened tile list has exactly the names the user's roles call for, in the pushed order |
| Dashboard.NameLayoutShape | src/pages/Dashboard.tsx:20-111 | a user sees between three and nine tiles, and a tile is in the list exactly when its role condition holds (the assignment tiles always) |
| Dashboard.PushRoleTiles | src/pages/Dashboard.tsx:22-61 | the role-conditional pushes append exactly the role tiles, with the oversee tile as written |
| Dashboard.PushStockTiles | src/pages/Dashboard.tsx:91-108 | the asset pushes append exactly the asset tiles |
| Dashboard.GetDashboards | src/pages/Dashboard.tsx:20-111 | the pushes, awaited and flattened, give the dashboard tiles in order, with the oversee tile as written |
| Dashboard.DashboardLinksOverseeAsWritten | src/pages/Dashboard.tsx:50-61 | a user with CheckInOutAsset is shown the oversee tile as written, whose link lists the wrong requests |
| Dashboard.ShownTiles | src/pages/Dashboard.tsx:131-132 | a tile is shown exactly when it is one of the tiles and its value is not zero |
| Dashboard.AssignmentTileShownIff | src/pages/Dashboard.tsx:131-132 | each assignment tile is shown exactly when its count is not zero |
| Dashboard.DashboardScreenAsWritten | src/pages/Dashboard.tsx:119-123 | as written, the error alert needs both an error and loaded tiles |
| Dashboard.FailedLoadBlankAsWritten | src/pages/Dashboard.tsx:119-123 | a failed load leaves no tiles, so as written it renders nothing instead of the alert |
| Dashboard.DashboardScreen | src/pages/Dashboard.tsx:119-149 | corrected: the alert shows exactly when loading ended in an error, and the grid exactly when tiles loaded without error, showing the non-zero tiles |
| Dashboard.FailedLoadShowsAlert | src/pages/Dashboard.tsx:119-123 | corrected: a failed load shows the alert, and without an error both versions agree |
| Dashboard.OverseeLinkListsOwnAsWritten | src/pages/Dashboard.tsx:50-61 | as written, a tile counting one overseen request opens a list of two, including the user's own |
| Dashboard.AsWrittenLinkFilters | src/pages/Requests/RequestList.tsx:29-34 | the request list as written reads the written link as Pending with no request type |
| Dashboard.OverseeLinkListsCounted | src/pages/Dashboard.tsx:50-61 | corrected: the oversee tile's link lists exactly the requests the tile counted |
| RequestList.InitialStatusFilter | src/pages/Requests/RequestList.tsx:25-28 | the status filter starts as the 'status' parameter when it is Pending, Approved or Rejected, and empty otherwise |
| RequestList.RequestTypeAsWritten | src/pages/Requests/RequestList.tsx:29 | as written, a missing and an empty 'request_type' both read as 'Pending Requests' |
| RequestList.RequestType | src/pages/Requests/RequestList.tsx:29 | corrected: only a missing 'request_type' reads as 'Pending Requests'; an empty one stays empty |
| RequestList.TypeFilterOf | src/pages/Requests/RequestList.tsx:30-34 | the request-type Select starts as the value read when it is 'My Requests' or 'Pending Requests', and empty otherwise |
| RequestList.InitialFiltersAsWritten | src/pages/Requests/RequestList.tsx:25-34 | the filters read from the query string as written are valid choices |
| RequestList.InitialFilters | src/pages/Requests/RequestList.tsx:25-34 | the corrected reading of the query string gives valid choices |
| RequestList.ReadingsAgreeUnlessEmpty | src/pages/Requests/RequestList.tsx:29 | the two readings differ only for an empty 'request_type', which the written one turns into 'Pending Requests' |
| RequestList.WriteParams | src/pages/Requests/RequestList.tsx:78-104 | the query string written holds exactly the status and request-type filters |
| RequestList.AllTypesNotRestoredAsWritten | src/pages/Requests/RequestList.tsx:29-34 | as written, choosing 'All' request types and reloading brings back 'Pending Requests' |
| RequestList.ReloadRestoresFilters | src/pages/Requests/RequestList.tsx:25-104 | corrected: reading back any query string the page wrote restores the filters it held |
| RequestList.AllRequests | src/api/requests.ts:4-8 | a user who oversees gets their own requests followed by the others' pending ones; otherwise only their own |
| RequestList.ByStatus | src/pages/Requests/RequestList.tsx:49-51 | no status keeps all; otherwise exactly the requests of that status |
| RequestList.ByType | src/pages/Requests/RequestList.tsx:52-56 | the type filter applies only to a user who oversees: 'My Requests' keeps exactly the user's own, the other type exactly the others' |
| RequestList.FilteredIsOneFilter | src/pages/Requests/RequestList.tsx:46-59 | the two filters in turn keep exactly the requests passing both, in order |
| RequestList.FilteredRequests | src/pages/Requests/RequestList.tsx:46-59 | the effect's two filters in turn; FilteredIsOneFilter states they are one filter by Passes |
| RequestList.Passes | src/pages/Requests/RequestList.tsx:49-56 | a request passes the status filter when one is set and the type filter when one is set for a user who oversees requests |
| RequestList.TypeFilterNeedsRole | src/pages/Requests/RequestList.tsx:52 | for a user who does not oversee, the request-type filter has no effect |
| RequestList.RequestListView | src/pages/Requests/RequestList.tsx:61-117 | a load error shows the alert; otherwise the title is 'Requests' for a user who oversees and 'My Requests' otherwise, the type Select shows only for one who oversees, and the page shows at most ten of the filtered rows at its offsets |
| RequestDetail.RequestScreenFor | src/pages/Requests/RequestDetail.tsx:65-70 | each early return exactly when its condition holds: nothing while loading, Not Found when loading finished without a request, the error view when one loaded with an error, the detail when one loaded without |
| RequestDetail.RequestStatusColour | src/pages/Requests/RequestDetail.tsx:25-29 | Approved is success, Rejected error, Pending primary, and Fulfilled has no colour |
| RequestDetail.ApproverLine | src/pages/Requests/RequestDetail.tsx:108-113 | the approver line appears exactly when the request has an approver, labelled by its status |
| RequestDetail.RequestBackTarget | src/pages/Requests/RequestDetail.tsx:160 | Back leads to the previous page when there is one, else to '/requests'; RequestButtons puts it last |
| RequestDetail.RequestButtons | src/pages/Requests/RequestDetail.tsx:125-164 | Approve and Reject appear together, exactly for a pending request the user may check in or out; Check Out via Request exactly for an approved one, pointing at its check-out page; Back comes last |
| RequestDetail.RequestButtonsExclusive | src/pages/Requests/RequestDetail.tsx:125-164 | Check Out never appears beside Approve, and a rejected or fulfilled request shows only Back |
| RequestDetail.HandleConfirmCloseApprove | src/pages/Requests/RequestDetail.tsx:43-52 | a cancel calls nothing and succeeds; a confirm approves the route's request and succeeds exactly when that did not throw |
| RequestDetail.HandleConfirmCloseReject | src/pages/Requests/RequestDetail.tsx:54-63 | a cancel calls nothing and succeeds; a confirm rejects the route's request and succeeds exactly when that did not throw |
| LinkAssets.RelationFromName | src/pages/Assets/LinkAssets.tsx:23 | a name reads as a relation exactly when it is one of the three relationship types, and reads back as that name |
| LinkAssets.RelationshipTypesRoundTrip | src/pages/Assets/LinkAssets.tsx:23 | every relation is offered by name, and its name reads back as the same relation |
| LinkAssets.LinkScreenFor | src/pages/Assets/LinkAssets.tsx:34-41 | each outcome exactly when its condition holds: nothing while loading; a render failure when the asset list is absent after loading; Not Found when no loaded asset has the route's id; Unauthorized when the parent is found but the user may not link it; the error view when the user may link it but loading failed; the form otherwise |
| LinkAssets.ChildOptions | src/pages/Assets/LinkAssets.tsx:68-78 | the child choices are exactly the other assets the user may link |
| LinkAssets.NoSelfLink | src/pages/Assets/LinkAssets.tsx:71 | the parent is never offered as its own child |
| LinkAssets.LinkDisabled | src/pages/Assets/LinkAssets.tsx:101 | the Link button is disabled exactly when the child id is 0 or no relationship is chosen |
| LinkAssets.EnabledWithoutChild | src/pages/Assets/LinkAssets.tsx:101 | with a relationship chosen the button is enabled even before a child is chosen |
| LinkAssets.HandleLinkAssetsAsWritten | src/pages/Assets/LinkAssets.tsx:43-52 | as written, a link request is sent exactly when NO child is chosen (with the placeholder id -1), the relationship is set and the dialog confirmed, so a chosen child is never linked; the dialog reports success exactly when nothing was sent or the request succeeded |
| LinkAssets.LinkAsWrittenDropsChosenChild | src/pages/Assets/LinkAssets.tsx:43-52 | as written, confirming a chosen child with a relationship sends nothing and reports success |
| LinkAssets.HandleLinkAssets | src/pages/Assets/LinkAssets.tsx:43-52 | corrected: a link is sent exactly when a child and a relationship are chosen and the user confirms, for the parent and that child, and it succeeds unless that call threw |
| LinkAssets.ConfirmedLinkUsesSelection | src/pages/Assets/LinkAssets.tsx:43-101 | corrected: confirming a child picked from the choices links that child to the parent, and never the parent to itself |
| LinkAssets.LinkReturnPath | src/pages/Assets/LinkAssets.tsx:109-123 | Back and completion go to '/assets/' followed by the route's id, which is the parent's detail page whenever the id is a number's decimal form |
| LinkAssets.LinkReturnsToParent | src/pages/Assets/LinkAssets.tsx:109-123 | when the form is shown for route id n, Back and completion lead to the detail page of the parent the form is for |
| LinkedRow.LinksOf | src/components/LinkedRow.tsx:21-23 | the chips of a row are exactly the asset's links of that relation |
| LinkedRow.RowShown | src/components/LinkedRow.tsx:21-25 | the row shows exactly when the asset has a link of that relation |
| LinkedRow.RowsPartitionLinks | src/components/LinkedRow.tsx:21-23 | each link appears in the row of its own relation and in no other |
| LinkedRow.AssetWithId | src/components/LinkedRow.tsx:74-79 | the lookup returns an asset with the given id, and none exactly when there is none |
| LinkedRow.UnlinkOffered | src/components/LinkedRow.tsx:80-86 | Unlink is offered only when the user may link both assets of the link; when both exist and it is not offered, one of them denies the user |
| LinkedRow.WildcardUnlinks | src/components/LinkedRow.tsx:80-86 | with LinkAsset on '*', Unlink is offered exactly when both assets of the link exist |
| LinkedRow.AssetChip | src/components/LinkedRow.tsx:90-96 | a chip is captioned '#' and the linked asset's id, leads to that asset, and offers Unlink as above |
| LinkedRow.ChipsDistinct | src/components/LinkedRow.tsx:90-92 | chips of different assets differ in caption and target |
| LinkedRow.HandleConfirmDeleteLink | src/components/LinkedRow.tsx:63-72 | a cancel calls nothing and succeeds; a confirm unlinks the two assets and succeeds exactly when that did not throw |
| LabelPages.EditRole | src/pages/Users/UserLabelsPage.tsx:101-103 | the asset page works under CreateEditAsset and the user page under CreateEditUser |
| LabelPages.LabelScreenFor | src/pages/Users/UserLabelsPage.tsx:94-100 | each early return exactly when its condition holds: nothing while loading, Not Found without a target, Unauthorized exactly for a user editing their own labels on the user page, the error view and the editor for any other loaded target, split by the error |
| LabelPages.AssignCall | src/pages/Assets/AssetLabelsPage.tsx:70 | the assign request of the page's target kind; HandleAddLabel states when it is sent |
| LabelPages.DeleteCall | src/pages/Assets/AssetLabelsPage.tsx:84 | the delete request of the page's target kind; HandleRemoveLabel states when it is sent |
| LabelPages.AvailableLabels | src/pages/Assets/AssetLabelsPage.tsx:100-102 | with the role on '*' every label name is available; otherwise exactly the scopes the user holds the role on |
| LabelPages.Options | src/pages/Assets/AssetLabelsPage.tsx:149-151 | an option is offered exactly when it is an available label that is not attached, except that an empty name is offered even when attached, because `includes` is tested through `find`, whose result '' is falsy |
| LabelPages.AttachedEmptyNameOffered | src/pages/Assets/AssetLabelsPage.tsx:149-151 | an attached empty name is still offered |
| LabelPages.AttachedEmptyNameNotShown | src/pages/Assets/AssetLabelsPage.tsx:134-148 | an attached empty name is never among the filtered choices shown |
| LabelPages.FilterOptions | src/pages/Assets/AssetLabelsPage.tsx:134-148 | the result starts with exactly the matched choices that are not attached, in their order, followed by at most one entry; that entry, 'Add ' plus the trimmed input, is present exactly when the input is non-empty and its trimmed form is neither available nor attached; only that entry can be attached |
| LabelPages.SuggestsNew | src/pages/Assets/AssetLabelsPage.tsx:139-143 | the condition FilterOptions is stated in: a non-empty input whose trimmed form is neither available nor attached |
| LabelPages.FilterOptionsOffersNewOrAvailable | src/pages/Assets/AssetLabelsPage.tsx:134-151 | every entry offered is an available label or the one 'Add' suggestion at the end |
| LabelPages.LabelNamed | src/pages/Assets/AssetLabelsPage.tsx:69 | the lookup returns a label with that name, and none exactly when no label has it |
| LabelPages.AddDisabled | src/pages/Assets/AssetLabelsPage.tsx:177-182 | Add Label is enabled exactly when nothing is loading and a non-empty selection names an existing label |
| LabelPages.AddCall | src/pages/Assets/AssetLabelsPage.tsx:64-70 | a label is assigned exactly when the selection is a non-empty existing label name, by that label's id |
| LabelPages.EnabledAddAssigns | src/pages/Assets/AssetLabelsPage.tsx:177-182 | pressing an enabled Add Label always sends an assignment of the selected label |
| LabelPages.RemoveAll | src/pages/Assets/AssetLabelsPage.tsx:85 | removing a name drops every copy of it and keeps every other attached name |
| LabelPages.RemoveAbsent | src/pages/Assets/AssetLabelsPage.tsx:85 | removing a name that is not attached changes nothing |
| LabelPages.RemoveUndoesAdd | src/pages/Assets/AssetLabelsPage.tsx:71-85 | removing a freshly added name gives back the names before it was added |
| LabelPages.LabelEditor.constructor | src/pages/Assets/AssetLabelsPage.tsx:36-39 | no attached names, no selection, not loading, dialog closed |
| LabelPages.LabelEditor.LoadTarget | src/pages/Assets/AssetLabelsPage.tsx:45-48 | the attached names become the loaded target's label names |
| LabelPages.LabelEditor.OnChange | src/pages/Assets/AssetLabelsPage.tsx:123-133 | picking an 'Add X' entry that is not itself a label opens the create dialog with X selected; any other choice is just selected |
| LabelPages.LabelEditor.HandleAddLabel | src/pages/Assets/AssetLabelsPage.tsx:64-78 | the assignment is sent as AddCall says; on success the name is appended and the selection cleared, otherwise nothing changes; loading ends whenever something was selected |
| LabelPages.LabelEditor.HandleRemoveLabel | src/pages/Assets/AssetLabelsPage.tsx:80-91 | the removal is sent exactly when the name is an existing label; on success the name is removed from the attached names, otherwise nothing changes; loading ends |
| LabelPages.LabelEditor.HandleConfirmClose | src/pages/Assets/AssetLabelsPage.tsx:50-62 | a cancel sends nothing and succeeds; a confirm creates the selected label, succeeds exactly when that did not throw, and ends loading |
| LabelPages.LabelsBackTarget | src/pages/Assets/AssetLabelsPage.tsx:190 | Back leads to the previous page, else to the target's detail page |
| ResetPassword.ResetErrors | src/pages/ResetPassword.tsx:25-33 | the 'password' error appears exactly when the password fails the complexity rule and 'confirm_password' exactly when the two entries differ, each with its message, and no other key |
| ResetPassword.ResetAcceptedIff | src/pages/ResetPassword.tsx:25-36 | the form is accepted exactly when the password is complex enough and confirmed; one shorter than 8 UTF-16 code units never is |
| ResetPassword.ResetPasswordPage.constructor | src/pages/ResetPassword.tsx:21-23 | both entries empty, no errors, dialog closed |
| ResetPassword.ResetPasswordPage.HandleSubmit | src/pages/ResetPassword.tsx:25-36 | the errors become exactly the reset errors and the confirm opens only when there are none |
| ResetPassword.ResetPasswordPage.HandleConfirmClose | src/pages/ResetPassword.tsx:38-48 | a cancel sends nothing and succeeds; a confirm sends the new password, and a failure records the thrown message under 'general' |
| UserRoles.FormatRole | src/pages/Users/UserRolesPage.tsx:47 | an entry is the role, then ': ', then the scope |
| UserRoles.FirstSeparatorAfterRole | src/pages/Users/UserRolesPage.tsx:88-91 | for a role without ': ', the first separator in its entry is the one just after the role |
| UserRoles.ParseFormatRoundTrip | src/pages/Users/UserRolesPage.tsx:88-91 | splitting an entry at its first ': ' and joining the rest gives back the grant, whenever the role has no ': ' (a scope may) |
| UserRoles.ParseRole | src/pages/Users/UserRolesPage.tsx:88-91 | an entry read back as a grant; ParseFormatRoundTrip states it undoes FormatRole |
| UserRoles.RoleWithSeparatorMisparsed | src/pages/Users/UserRolesPage.tsx:88-91 | a role containing ': ' formats like another grant and is read back as that other grant |
| UserRoles.RoleNames | src/pages/Users/UserRolesPage.tsx:58 | the role names of the user's grants, one per grant, in order |
| UserRoles.AvailableRoles | src/pages/Users/UserRolesPage.tsx:58 | the offered roles are distinct, exactly the roles the user holds, in order of first occurrence |
| UserRoles.AvailableScopes | src/pages/Users/UserRolesPage.tsx:59-61 | with the role on '*' every label name and then '*' are offered; otherwise exactly the scopes the user holds the role on |
| UserRoles.OfferedScopesAssignable | src/pages/Users/UserRolesPage.tsx:59-67 | every offered scope passes the permission check on adding |
| UserRoles.DeleteOffered | src/pages/Users/UserRolesPage.tsx:112-117 | an entry can be deleted exactly when the user holds its role on '*' or on its scope |
| UserRoles.OwnGrantsRemovable | src/pages/Users/UserRolesPage.tsx:112-117 | any grant the acting user holds themself can be deleted from another user |
| UserRoles.RolesScreenFor | src/pages/Users/UserRolesPage.tsx:50-63 | each early return exactly when its condition holds: nothing while loading, Not Found without a target, the error view for a target loaded with an error, Unauthorized for the user themself loaded without error, the editor for another user loaded without error |
| UserRoles.AddRoleStep | src/pages/Users/UserRolesPage.tsx:65-74 | nothing happens without both a role and a scope; the permission alert shows exactly when the user may not grant that role on that scope; otherwise the role is assigned to the target |
| UserRoles.OfferedSelectionAssigns | src/pages/Users/UserRolesPage.tsx:58-74 | choosing from the offered roles and scopes always leads to the assignment, never the alert |
| UserRoles.RolesEditor.constructor | src/pages/Users/UserRolesPage.tsx:37-40 | no entries, no selection, not loading |
| UserRoles.RolesEditor.LoadTarget | src/pages/Users/UserRolesPage.tsx:45-48 | the entries become the target's grants, formatted in order |
| UserRoles.RolesEditor.SelectRole | src/pages/Users/UserRolesPage.tsx:129-132 | choosing a role clears the chosen scope |
| UserRoles.RolesEditor.SelectScope | src/pages/Users/UserRolesPage.tsx:146 | a cleared scope reads as empty |
| UserRoles.RolesEditor.HandleAddRole | src/pages/Users/UserRolesPage.tsx:65-83 | the step is AddRoleStep; a successful assignment appends the new entry and clears both selections; otherwise nothing changes; loading ends after an assignment |
| UserRoles.RolesEditor.HandleDeleteRole | src/pages/Users/UserRolesPage.tsx:85-99 | the removal is sent for the parsed role and scope; on success every copy of the entry is dropped, on failure nothing changes; loading ends |
| UserRoles.DeleteRemovesAllCopies | src/pages/Users/UserRolesPage.tsx:93 | after deletion the entry is gone and every other entry remains |
| UserRoles.AddRoleDisabled | src/pages/Users/UserRolesPage.tsx:162 | Add Role is enabled exactly when a role and a scope are chosen and nothing is loading |
| UserRoles.EnabledAddIsChecked | src/pages/Users/UserRolesPage.tsx:162 | an enabled Add Role always reaches the permission check |
| UserDetail.UserScreenFor | src/pages/Users/UserDetail.tsx:76-81 | each early return exactly when its condition holds: nothing while loading, Not Found when loading finished without a user, the error view when one loaded with an error, the detail when one loaded without |
| UserDetail.ToggleVerb | src/pages/Users/UserDetail.tsx:165 | the toggle button reads Enable exactly for a disabled user and Disable otherwise |
| UserDetail.ManageButtons | src/pages/Users/UserDetail.tsx:149-167 | Delete and the toggle appear exactly when their conditions hold, the toggle with the given verb |
| UserDetail.EditButtons | src/pages/Users/UserDetail.tsx:168-196 | Reset Password appears with its condition, and Add Labels and Add Roles together with theirs |
| UserDetail.ActionLayout | src/pages/Users/UserDetail.tsx:149-196 | each action button appears exactly when its condition holds, and Back is not among them |
| UserDetail.ActionButtons | src/pages/Users/UserDetail.tsx:149-196 | Delete follows DeleteUser access, the toggle DisableUser access with the verb of the user's state, Reset Password ResetPasswordUser access, Add Labels and Add Roles CreateEditUser access, all on the target's labels |
| UserDetail.OnlyBackWithoutActions | src/pages/Users/UserDetail.tsx:147-206 | a deleted user, or the acting user themself, gets only Back |
| UserDetail.ActionsShown | src/pages/Users/UserDetail.tsx:147 | the actions' guard: a user neither deleted nor the signed-in user; OnlyBackWithoutActions and ButtonsFollowRoles are stated in it |
| UserDetail.UserButtons | src/pages/Users/UserDetail.tsx:147-206 | the page's buttons, the actions when shown then Back; OnlyBackWithoutActions and LayoutWithBack state their layout |
| UserDetail.UserBackTarget | src/pages/Users/UserDetail.tsx:203 | the target of Back: the previous page when there is one, else '/users' |
| UserDetail.ButtonsFollowRoles | src/pages/Users/UserDetail.tsx:146-207 | for another, undeleted user each action button (Delete, the toggle, Reset Password, Add Labels, Add Roles) shows exactly under its role access, and Back is last |
| UserDetail.LayoutWithBack | src/pages/Users/UserDetail.tsx:146-207 | appending Back keeps each action button's condition and puts Back last |
| UserDetail.HandleConfirmCloseDelete | src/pages/Users/UserDetail.tsx:43-52 | a cancel calls nothing and succeeds; a confirm deletes the route's user and succeeds exactly when that did not throw |
| UserDetail.ActiveCall | src/pages/Users/UserDetail.tsx:67-68 | the toggle enables exactly a disabled user and disables any other, always for the user of the route |
| UserDetail.HandleConfirmCloseActive | src/pages/Users/UserDetail.tsx:64-74 | a cancel calls nothing and succeeds; a confirm toggles the user's state and succeeds exactly when that did not throw |
| UserDetail.ActiveWordingAsWritten | src/pages/Users/UserDetail.tsx:232-243 | as written, the dialog's wording follows whether the user is deleted, not whether it is disabled |
| UserDetail.ActiveWordingContradictsAction | src/pages/Users/UserDetail.tsx:232-243 | as written, for a disabled user the button says Enable and the call enables, while the dialog asks to disable |
| UserDetail.ActiveWording | src/pages/Users/UserDetail.tsx:232-243 | corrected: the wording says enable exactly for a disabled user |
| UserDetail.ActiveWordingMatchesAction | src/pages/Users/UserDetail.tsx:232-243 | corrected: the dialog's verb names the call the handler makes, and its title matches the button |
| UserDetail.UserDetailPage.constructor | src/pages/Users/UserDetail.tsx:41 | no password shown yet and no reload |
| UserDetail.UserDetailPage.HandleConfirmCloseReset | src/pages/Users/UserDetail.tsx:53-63 | a successful reset keeps the new password for the popup; otherwise the password is unchanged |
| UserDetail.UserDetailPage.OnResetComplete | src/pages/Users/UserDetail.tsx:226-229 | closing the reset popup forgets the password and reloads once |
| UserForm.SubmitErrors | src/pages/Users/UserForm.tsx:51-60 | each error key appears exactly when its check fails (no label, a password the complexity rule refuses, unequal passwords, an invalid email), with its message, and no other key |
| UserForm.NoErrorsMeansValid | src/pages/Users/UserForm.tsx:51-65 | the form is accepted exactly when all four checks pass, and then the confirmed password is at least 8 UTF-16 code units with a digit and a special character |
| UserForm.CreateCall | src/pages/Users/UserForm.tsx:73-78 | the new user is created with the form's name, email and password and the names of its labels, in order |
| UserForm.Options | src/pages/Users/UserForm.tsx:100-104 | with CreateEditUser on '*' every label is offered; otherwise every offered label is one the user holds CreateEditUser on, and every such grant naming an existing label is offered |
| UserForm.UserFormPage.constructor | src/pages/Users/UserForm.tsx:39-49 | empty fields, no labels, no errors, nothing pending, no created id |
| UserForm.UserFormPage.UpdateForm | src/pages/Users/UserForm.tsx:90-95 | the field named by the input takes the typed value and nothing else changes |
| UserForm.UserFormPage.HandleLabelChange | src/pages/Users/UserForm.tsx:96-98 | the labels are replaced and nothing else changes |
| UserForm.UserFormPage.HandleSubmit | src/pages/Users/UserForm.tsx:51-66 | the errors become exactly the submit errors and the confirm opens only when there are none |
| UserForm.UserFormPage.HandleConfirmClose | src/pages/Users/UserForm.tsx:68-88 | a cancel sends nothing and succeeds; a confirm sends the create call, records the new id on success or the thrown message under 'general' on failure, and always clears the pending flag |
| Domain.LabelNames | src/pages/Assets/AssetLabelsPage.tsx:47 | the names of the labels, one per label, in order |
| Domain.PathsInjective | src/components/AssetRow.tsx:31 | each detail route names exactly one record |
| Domain.RunConfirmed | src/pages/Requests/RequestDetail.tsx:43-52 | the shared handler shape: a cancel calls nothing and succeeds; a confirm makes the call and succeeds exactly when it did not throw |
| Seqs.Filter | src/pages/Assets/AssetList.tsx:54 | the kept elements satisfy the predicate, come from the list, and every element satisfying it is kept |
| Seqs.FilterConcat | src/pages/Assignments/AssignmentList.tsx:59-73 | filtering a concatenation filters each part and keeps their order |
| Seqs.FilterSplitPermutes | src/pages/Assignments/AssignmentList.tsx:59-73 | the elements failing a predicate followed by those passing it are a permutation of the list |
| Seqs.FilterTwice | src/pages/Requests/RequestList.tsx:49-56 | two filters in turn are one filter on the conjunction |
| Seqs.Map | src/pages/Users/UserRolesPage.tsx:47 | mapping keeps the length and applies the function element by element |
| Seqs.FindIndex | src/pages/Assets/AssetDetail.tsx:263-268 | the index found is the first element satisfying the predicate, and none is found exactly when no element does |
| Seqs.Find | src/pages/Assets/AssetDetail.tsx:263-268 | the element found is the first in the list that satisfies the predicate, and none is found exactly when no element does |
| Seqs.Every | src/utils/role_utils.ts:25 | true exactly when every element satisfies the predicate |
| Seqs.Count | src/pages/Dashboard.tsx:36 | the count is at most the length and zero exactly when no element satisfies the predicate |
| Seqs.CountIsFilterLength | src/pages/Dashboard.tsx:36 | counting equals the length of the filtered list |
| Seqs.Somes | src/pages/Assets/AssetForm.tsx:153-154 | dropping the missing entries keeps exactly the present values |
| Seqs.Page | src/pages/Assets/AssetList.tsx:65 | a page holds at most ten elements, those at the page's offsets, a full ten when the list reaches past it and at least one when it starts inside the list |
| Seqs.PageCovers | src/pages/Assets/AssetList.tsx:65 | element i is on page i/10 at row i%10 |
| Seqs.IndexOf | src/pages/Users/UserRolesPage.tsx:58 | the first position of an element |
| Seqs.Dedup | src/pages/Users/UserRolesPage.tsx:58 | building a Set keeps exactly the elements of the list, each once, in order of first occurrence |
| Text.NatToString | src/pages/Assets/CheckoutAsset.tsx:40 | the decimal form of a number is non-empty digits with no leading zero |
| Text.ParseNatToString | src/pages/Assets/CheckoutAsset.tsx:40 | parseInt reads back the decimal form of any number |
| Text.ParseNat | src/pages/Assets/CheckoutAsset.tsx:40 | parseInt on a digit string; ParseNatToString states it undoes NatToString |
| Text.IntToStringInjective | src/components/AssetRow.tsx:31 | different numbers print differently |
| Text.IntToString | src/components/AssetRow.tsx:31 | the decimal form of an integer is non-empty, digits only when not negative, '-' first when negative |
| Text.TakeDigits | src/pages/Assets/AssetForm.tsx:48 | the longest digit prefix of a string |
| Text.KeepDigits | src/pages/Assets/CheckoutAsset.tsx:105 | replacing every non-digit by nothing leaves exactly the string's digits |
| Text.KeepDigitsConcat | src/pages/Assets/CheckoutAsset.tsx:105 | keeping digits works part by part |
| Text.KeepDigitsOfDigits | src/pages/Assets/CheckoutAsset.tsx:105 | a digit string is left alone |
| Text.SplitOn | src/pages/Users/UserRolesPage.tsx:89-90 | split always gives at least one part |
| Text.JoinSplit | src/pages/Users/UserRolesPage.tsx:89-90 | joining the parts of a split with the same separator gives back the string |
| Text.Join | src/pages/Users/UserRolesPage.tsx:90 | `parts.join(sep)`; JoinSplit states it undoes SplitOn |
| Text.SplitAfterFirst | src/pages/Users/UserRolesPage.tsx:89-90 | splitting at a first separator gives the text before it, then the split of the rest |
| Text.TrimStart | src/pages/Assets/AssetLabelsPage.tsx:141 | the result is the suffix of the string that starts at the first non-whitespace character: what it drops is all whitespace and it does not start with whitespace |
| Text.TrimEnd | src/pages/Assets/AssetLabelsPage.tsx:141 | the result is the prefix of the string that ends at the last non-whitespace character: what it drops is all whitespace and it does not end with whitespace |
| Text.Trim | src/pages/Assets/AssetLabelsPage.tsx:141-144 | the trimmed string is the slice of the input that starts where TrimStart starts, with only whitespace before and after it; it neither starts nor ends with whitespace, and a string already so is unchanged |
| Text.SkipLeading | src/pages/Assets/AssetLabelsPage.tsx:141 | the first non-whitespace position at or after i: only whitespace before it, and it is not whitespace |
| Text.SkipTrailing | src/pages/Assets/AssetLabelsPage.tsx:141 | the position after the last non-whitespace character: only whitespace after it, and the character before it is not whitespace |
| Text.TrimIsTrimEndOfTrimStart | src/pages/Assets/AssetLabelsPage.tsx:141 | trimming both ends is trimming the start and then the end |
| Text.CountChar | src/pages/Assets/AssetForm.tsx:134-135 | the number of occurrences, zero exactly when the character is absent |

## Left out

- Fetch wrappers, JSON decoding and the network: each backend call is a `Domain.Call` value and its fate an `Outcome` parameter. The results are passed in as lists. The two `getAssets` loads a page may issue are one list.
- Session storage, login and logout: the logged-in user and the login expiry are inputs. After a password reset, the logout and fresh login are not modelled.
- Navigation: a `navigate` target is returned as a path string. The router itself and `AppRoutes.tsx` are not part of this model.
- React effects, hooks and promise scheduling: each handler runs as a single step, and a settled `onClose` is one step of the confirm dialog. There is no concurrency.
- Fuse.js fuzzy search in the asset list: its result list is the `searchResults` parameter.
- The autocomplete's `createFilterOptions` on the label pages: its output is the `matched` parameter, an arbitrary sub-list of the options.
- The `email-validator` package in the user form: its verdict is the `emailValid` parameter.
- `Date` arithmetic: dates are integer milliseconds in local time, and a day is 86 400 000 ms. Daylight-saving shifts, `Math.round` over a 23- or 25-hour day, `toLocaleDateString` and `toFixed` are not modelled.
- ReturnedCell: holds the return instant; its `toLocaleDateString` rendering is not modelled (see the `Date` line above).
- `Array.prototype.sort` in the assignment list: it is modelled as an in-place insertion sort on the due date (`AssignmentList.SortByDue`). The result is proved sorted and a permutation. Stability among equal due dates is not stated.
- URL query strings: they are decoded maps from key to value. Percent-encoding is not modelled.
- `parseInt` is modelled only on digit strings. The due-in-days fields keep nothing else, because their `onChange` strips every non-digit.
- The regular expressions' `g` flag and `lastIndex` state do not affect the single `replace` and `test` calls that are modelled.
- Spinners, chip colours as rendered, layout and text styling: only the choice of screen, button, colour and message is modelled.
- The reset-password popup on the user detail page reports a failure as "Could not delete user, try again later". The wording is a copy slip and is not modelled.
- CheckoutAsset.CheckoutAssetPage.HandleConfirm: requires that a confirmation follows a submit that passed validation. The dialog opens only then, and the handler itself does not re-check the selected user.
- CheckoutRequest.CheckoutRequestPage.HandleConfirm: requires that a confirmation follows a submit that passed validation. The dialog opens only then.
- LabelPages.LabelEditor.HandleConfirmClose: requires a selected label. The create-confirm opens only with one, and the source's non-null assertion `selectedLabel!` is otherwise unmodelled.

## Findings

| source | as written | input that shows it | evidently intended | confidence | as-written member | corrected member |
|---|---|---|---|---|---|---|
| src/pages/Assets/LinkAssets.tsx:44 | the guard returns early when `assetB != -1`, so a chosen child never reaches `linkAssets` | parent 1, child `assetB` = 7, relationship License, confirmed: no link request is sent and the dialog reports success | return early when no child is chosen (`assetB === -1`) and link the chosen child otherwise | not executed | LinkAssets.HandleLinkAssetsAsWritten, LinkAssets.LinkAsWrittenDropsChosenChild | LinkAssets.HandleLinkAssets, LinkAssets.ConfirmedLinkUsesSelection |
| src/pages/Users/UserDetail.tsx:233-243 | the enable/disable dialog chooses its wording from `is_deleted`, while the button and the action follow `is_disabled` | a disabled user who is not deleted: the button says Enable, the handler enables, and the dialog asks to disable | the dialog's wording follows `is_disabled`, as the button does | not executed | UserDetail.ActiveWordingAsWritten, UserDetail.ActiveWordingContradictsAction | UserDetail.ActiveWording, UserDetail.ActiveWordingMatchesAction |
| src/pages/Dashboard.tsx:58 | the Requests You Oversee tile links to `request_type=Requests I Oversee`, a type the request list does not know, so the list shows every pending request | one pending request by another user and one by the viewer: the tile shows 1 and the linked list shows 2 | link to the type whose filter keeps other users' requests ('Pending Requests'), so the list shows what the tile counts | not executed | Dashboard.OverseeTileAsWritten, Dashboard.OverseeLinkListsOwnAsWritten, Dashboard.DashboardLinksOverseeAsWritten | Dashboard.OverseeTile, Dashboard.OverseeLinkListsCounted |
| src/pages/Requests/RequestList.tsx:29 | `searchParams.get('request_type') \|\| 'Pending Requests'` turns the empty value that 'All' writes into 'Pending Requests' | choose All and reload: the list comes back filtered to 'Pending Requests' | only a missing parameter defaults; an empty one stays 'All' | not executed | RequestList.RequestTypeAsWritten, RequestList.AllTypesNotRestoredAsWritten | RequestList.RequestType, RequestList.ReloadRestoresFilters |
| src/pages/Dashboard.tsx:119-123 | the error alert sits behind the check that the dashboards loaded, so a failed load renders nothing at all | a load that throws: the dashboards stay undefined and the page is blank | a failed load shows its error alert | not executed | Dashboard.DashboardScreenAsWritten, Dashboard.FailedLoadBlankAsWritten | Dashboard.DashboardScreen, Dashboard.FailedLoadShowsAlert |
