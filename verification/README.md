# Timesheet app core, modelled in Dafny

This project models the rules at the centre of a small timesheet web app.

- **Entries route.** An in-memory store of time entries. `GET` filters by date range and groups entries into days with hour totals; `POST`, `PUT` and `DELETE` create, partially update and remove entries.
- **Weeks route.** Builds 99 synthetic weeks from an index rule and caches them. It serves them filtered by status, one page at a time.
- **Week table.** Holds pagination state, builds its query, and renders the page-number bar with ellipses.
- **Entry dialog.** Opening defaults, field checks, the hour stepper, and the payload it submits.
- **Sign-in.** The sign-in form's checks, and the login route's ordered 400/400/401 chain.
- **List view.** Merges the server's sparse day list into exactly five working days.

Each source file becomes one module:

| module | file |
|---|---|
| `Entries` | `entries.dfy` |
| `Timesheets` | `timesheets.dfy` |
| `TableView` | `table_view.dfy` |
| `EntryModal` | `entry_modal.dfy` |
| `LoginForm` | `login_form.dfy` |
| `LoginRoute` | `login_route.dfy` |
| `ListView` | `list_view.dfy` |

`Common` holds `Option`, the reply envelope (`Ok` or `Fail(status, error)`) and the weekly target of 40. `Text` holds the JavaScript string rules the modules share:
- `\s` white space and `trim`;
- `<` on strings;
- `toString` and `parseInt` on decimal numerals;
- the e-mail pattern `^[^\s@]+@[^\s@]+\.[^\s@]+$`, with a proof that the matcher accepts exactly the pattern's language.

Handlers are pure functions. The entries route's module-level array is an explicit `Store` value: each handler takes the store and returns a reply together with the store it leaves behind. React state is a datatype, and each event handler is a function from state to state.

JavaScript truthiness is modelled as follows:
- an optional string counts as given when it is present and non-empty;
- an optional number counts as given when it is present and non-zero.

Clock readings (`Date.now()`, ISO time), random draws and the five dates of the list view are parameters.

Behaviour of the code that the model keeps as it is:
- **Entry ids.** POST builds the id from `Date.now()` (app/api/timesheets/entries/route.ts:150), so two entries created in the same millisecond share one. `PUT` and `DELETE` act on the first match; `Entries.DeleteSparesLaterDuplicate` shows the consequence.
- **Out-of-range pages.** Page 0 and pages past the last are empty. A negative page is not: JavaScript's `slice` counts negative bounds from the end, so it returns weeks taken from the end of the list (`Timesheets.NegativePageCountsFromEnd`).
- **Hours range.** POST (app/api/timesheets/entries/route.ts:135-140) and the entry dialog (components/timesheet/entry-modal.tsx:139) keep hours within 1 to 24. `PUT` does not (see Findings).
- **Dates as object keys.** The entries listing groups by date in a plain object, so a stored date that names an inherited property such as "constructor" breaks the listing (see Findings).
- **Lengths.** Field lengths are JavaScript's `length`, counted in UTF-16 code units (`Text.JsLength`): a character above U+FFFF, such as an emoji, counts twice.

## Model

| member | source | states |
|---|---|---|
| Text.Trim | components/timesheet/entry-modal.tsx:133-137 | `trim` gives the empty string exactly for all-white-space input, and otherwise a string that neither starts nor ends with white space |
| Text.TrimIsSlice | components/auth/login-form.tsx:27 | the trimmed string is a contiguous piece of the input with only white space before and after it |
| Text.BeforeTotal | app/api/timesheets/entries/route.ts:102 | the string order used to sort days is total on distinct dates |
| Text.BeforeTransitive | app/api/timesheets/entries/route.ts:75 | the string order used for the range test is transitive |
| Text.BeforeIrreflexive | app/api/timesheets/entries/route.ts:102 | no date sorts before itself |
| Text.BeforeAsymmetric | app/api/timesheets/entries/route.ts:102 | two dates are never each before the other |
| Text.NatToString | app/api/timesheets/route.ts:32 | a count prints as a non-empty run of digits with no leading zero |
| Text.ParseNatToString | app/api/timesheets/route.ts:65-66 | parsing a printed count gives the count back |
| Text.ParseInt | app/api/timesheets/route.ts:65-66 | on a numeral of digits only, `parseInt` is its decimal value, and it fails on the empty string |
| Text.ParseIntToString | components/timesheet/table-view.tsx:33-36 | printing an integer of magnitude below 10^21, the range JavaScript prints in plain decimal, and parsing it back gives the integer, negative ones included |
| Text.JsLength | components/auth/login-form.tsx:35 | `length` counts UTF-16 code units: between one and two per character, exactly one per character on text within the Basic Multilingual Plane (`Text.JsLengthOfBmp`) |
| Text.JsLengthOfBmp | components/timesheet/entry-modal.tsx:135 | on text without characters above U+FFFF, `length` is the number of characters |
| Text.JsLengthConcat | components/timesheet/entry-modal.tsx:135 | `length` adds up over concatenation |
| Text.IndexOf | components/auth/login-form.tsx:29 | finds the first `@`: the character there is `@`, no earlier one is, and none at all when it fails |
| Text.EmailShapeIsPattern | components/auth/login-form.tsx:29 | the e-mail matcher accepts a string exactly when it is non-empty plain text, `@`, non-empty plain text, `.`, non-empty plain text, where plain means no white space and no `@` |
| Entries.InWeekOnlyCounts | app/api/timesheets/entries/route.ts:73-77 | the range filter keeps each entry, as often as it is stored, exactly when `weekStart <= date <= weekEnd` in string order |
| Entries.InWeekOnlyConcat | app/api/timesheets/entries/route.ts:74-76 | the range filter keeps store order: filtering a concatenation concatenates the filtered parts |
| Entries.SelectKeepsExactly | app/api/timesheets/entries/route.ts:71-77 | with both bounds non-empty the listing works on exactly the week's entries; with either missing, on the whole store |
| Entries.OnDateCounts | app/api/timesheets/entries/route.ts:80-86 | a day's bucket holds exactly the selected entries with that date, each as often as it was selected |
| Entries.BucketFor | app/api/timesheets/entries/route.ts:82 | the bucket lookup among the record's own keys finds the bucket of a date when one exists, and reports none otherwise; inherited keys are the subject of `Entries.GetAsWritten` |
| Entries.GroupByDatePartitions | app/api/timesheets/entries/route.ts:80-86 | the buckets have distinct dates; each equals the in-order list of entries with its date and is non-empty; every entry has a bucket |
| Entries.Insert | app/api/timesheets/entries/route.ts:102 | inserting a day with a new date into strictly ascending days keeps them strictly ascending and adds exactly that day |
| Entries.SortByDate | app/api/timesheets/entries/route.ts:102 | days with distinct dates come out strictly ascending by date, as a permutation of the input |
| Entries.GetGroupsByDay | app/api/timesheets/entries/route.ts:65-111 | the listed days are strictly ascending. Each holds exactly the selected entries of its date, is non-empty, and totals their hours. Every selected entry's date has a day. The overall total is the selection's hour sum; the target is 40 |
| Entries.DaysSurviveSort | app/api/timesheets/entries/route.ts:102 | sorting neither adds nor loses a day |
| Entries.TotalIsSumOfDays | app/api/timesheets/entries/route.ts:99-104 | the overall `totalHours` equals the sum of the day totals |
| Entries.SumDaysGroup | app/api/timesheets/entries/route.ts:99 | the day totals of the buckets add up to the hours of all grouped entries |
| Entries.EntryInExactlyOneDay | app/api/timesheets/entries/route.ts:80-102 | each selected entry appears under some day, and any day listing it carries its date |
| Entries.TwoDayListing | app/api/timesheets/entries/route.ts:65-111 | for any two non-empty dates in order, two entries on the first and one on the second list as exactly two days in that order, holding those entries |
| Entries.GroupingExample | app/api/timesheets/entries/route.ts:65-111 | entries dated 2024-01-01 (3 h, 5 h) and 2024-01-02 (2 h) list as two days of 8 h and 2 h, 10 h overall, target 40 |
| Entries.Post | app/api/timesheets/entries/route.ts:122-161 | a falsy field, `hours` 0 included, gives 400 "All fields are required"; hours outside 1..24 give 400 "Hours must be between 1 and 24"; both leave the store alone. Otherwise exactly one entry is appended with the given fields, the catalogue's project name or "Unknown Project", id `entry-<millis>` `createdAt` and `updatedAt` from two separate clock readings, and all earlier entries are kept |
| Entries.PostKeepsValid | app/api/timesheets/entries/route.ts:135-161 | POST keeps every stored entry within 1..24 hours |
| Entries.FindIndex | app/api/timesheets/entries/route.ts:187 | finds the first position holding the id, or reports that no position holds it |
| Entries.Put | app/api/timesheets/entries/route.ts:175-213 | no id gives 400 and an unknown id gives 404, both leaving the store alone. Otherwise only the first entry with the id changes. Each field is overwritten only by a truthy value, so `hours: 0` is ignored. The project name changes only with a new project id. Id and `createdAt` are kept and `updatedAt` is the clock's time |
| Entries.UpdateThenList | app/api/timesheets/entries/route.ts:202-213 | after a PUT of non-zero hours, listing again shows the entry under a day with the new hours and the new `updatedAt` |
| Entries.Delete | app/api/timesheets/entries/route.ts:227-248 | no id gives 400 and an unknown id gives 404, both leaving the store alone. Otherwise exactly the first entry with the id goes: the store shrinks by one and the others keep their order |
| Entries.DeleteKeepsValid | app/api/timesheets/entries/route.ts:248 | DELETE keeps every stored entry within 1..24 hours |
| Entries.DeleteThenNotFound | app/api/timesheets/entries/route.ts:239-248 | with unique ids, after a delete no entry has the id, and a second delete answers 404 |
| Entries.DeleteSparesLaterDuplicate | app/api/timesheets/entries/route.ts:150 | when a later entry shares the id, a delete removes only the earlier one, and a second delete succeeds |
| Entries.PutStoresOutOfRangeHours | app/api/timesheets/entries/route.ts:210 | as written, PUT of 25 hours succeeds on a valid store and leaves an entry outside 1..24 |
| Entries.GetAsWritten | app/api/timesheets/entries/route.ts:80-86 | as written, GET answers 500 "Failed to fetch entries" exactly when a selected entry's date names a property inherited from `Object.prototype`; otherwise it lists what `Entries.Get` lists |
| Entries.InheritedDateBreaksListing | app/api/timesheets/entries/route.ts:82-85 | as written, after a POST with date "constructor" is accepted, every GET without week bounds answers 500 |
| Entries.OwnKeysListInheritedDate | app/api/timesheets/entries/route.ts:80-102 | looking dates up among own keys, an entry dated "constructor" is listed under its day like any other |
| Entries.PutChecked | app/api/timesheets/entries/route.ts:202-213 | PUT with POST's range check: truthy hours outside 1..24 give 400 and leave the store alone; otherwise the same as PUT |
| Entries.PutCheckedKeepsValid | app/api/timesheets/entries/route.ts:202-213 | the checked PUT keeps every stored entry within 1..24 hours |
| Timesheets.GenerateFirst | app/api/timesheets/route.ts:10-39 | week `i` has number `i+1` and id `week-<i+1>`, and starts 7·i days in, ending 6 days later. It is INCOMPLETE iff `i < 85` and `i % 7 == 2`, and MISSING iff `i >= 85`. Hours are 40, 10..39 or 0 by status; the target is 40 |
| Timesheets.PrefixCounts | app/api/timesheets/route.ts:17-22 | after `n` weeks the incomplete count is `(min(n,85)+4)/7`, the missing count is `max(n-85,0)`, and the rest are completed |
| Timesheets.GeneratedStatusCounts | app/api/timesheets/route.ts:10-22 | the 99 weeks are 73 completed, 12 incomplete and 14 missing |
| Timesheets.WeeksAreConsecutive | app/api/timesheets/route.ts:11-15 | each week starts the day after the previous one ends |
| Timesheets.GetTimesheets | app/api/timesheets/route.ts:52-59 | the first read generates and caches the weeks; later reads return the cached list |
| Timesheets.CacheIsStable | app/api/timesheets/route.ts:52-59 | once read, the list returned stays the same whatever the later random draws |
| Timesheets.ReadQuery | app/api/timesheets/route.ts:63-70 | a query is read exactly when `page` and `perPage` are each missing, empty or a numeral. A missing or empty `page` reads as 1 and `perPage` as 5, so two blank parameters always give page 1 of five; a numeral reads as its `parseInt` value. `status` is passed through as given |
| Timesheets.EmptyQueryDefaults | app/api/timesheets/route.ts:65-70 | a request with no query string reads as page 1, five per page, no status |
| Timesheets.WithStatusCounts | app/api/timesheets/route.ts:74-76 | the status filter keeps each week, as often as it occurs, exactly when its status is the one asked for |
| Timesheets.WithStatusConcat | app/api/timesheets/route.ts:75 | the status filter keeps the original order |
| Timesheets.CeilDiv | app/api/timesheets/route.ts:79 | `totalPages` is the least page count whose pages hold all `total` weeks |
| Timesheets.SliceIndex | app/api/timesheets/route.ts:83 | a slice bound always lands inside the list |
| Timesheets.JsSlice | app/api/timesheets/route.ts:83 | a slice holds only items of the list and at most `end - start` of them; from a non-negative start it is the clipped run from `start` |
| Timesheets.PageShape | app/api/timesheets/route.ts:79-83 | a page of any list holds at most `perPage` items; pages before the last are full; pages up to the last are non-empty; page 0 and pages past the last are empty |
| Timesheets.List | app/api/timesheets/route.ts:61-94 | echoes page and page size. `total` and `totalPages` count the filtered weeks. A page holds at most `perPage` weeks, all from the filtered list. Pages before the last are full and the last is non-empty. Page 0 and pages past the last are empty |
| Timesheets.NegativePageCountsFromEnd | app/api/timesheets/route.ts:80-83 | page `-k` returns the `perPage` filtered weeks that end `k·perPage` weeks before the end of the list |
| Timesheets.ListShowsRequestedStatus | app/api/timesheets/route.ts:74-83 | with a status asked for, every week on the page has that status |
| Timesheets.FirstPagesArePrefix | app/api/timesheets/route.ts:80-83 | pages 1..n laid end to end are the first `n·perPage` filtered weeks, clipped to the list |
| Timesheets.PagesCoverFiltered | app/api/timesheets/route.ts:78-83 | pages 1..totalPages laid end to end give back the filtered list |
| TableView.PageChange | components/timesheet/table-view.tsx:62-64 | a page change sets the current page and keeps every other pagination field, the filter and the rows |
| TableView.PerPageChange | components/timesheet/table-view.tsx:66-69 | a page-size change sets the size and returns to page 1, keeping the totals and the filter |
| TableView.FilterChange | components/timesheet/table-view.tsx:71-75 | a filter change sets the filter and returns to page 1, keeping the page size |
| TableView.ParamSkip | components/timesheet/table-view.tsx:33-40 | reading a query parameter skips entries with other names |
| TableView.QueryRoundTrip | components/timesheet/table-view.tsx:33-40 | for a page and page size below 10^21 in magnitude, the route reads back exactly the page, page size and filter the table sends; "all" sends no `status` |
| TableView.FirstRequestIsDefault | components/timesheet/table-view.tsx:13-22 | the table's state on mount (page 1, five per page, "all") makes its first request read as page 1 of five, unfiltered |
| TableView.FilteredRequestShowsOnlyThatStatus | components/timesheet/table-view.tsx:38-40 | with a status filter chosen, every row the route returns has that status |
| TableView.ChangesRequestFirstPage | components/timesheet/table-view.tsx:66-75 | after a filter or page-size change the next request asks for page 1 with the new setting |
| TableView.Loaded | components/timesheet/table-view.tsx:45-52 | a good reply replaces the rows and pagination and clears the error; a failed one changes only the error line, to the server's message or "Failed to fetch timesheets" |
| TableView.LoadKeepsRequestedPage | components/timesheet/table-view.tsx:49-56 | loading the route's answer to the table's own request keeps page, page size and filter, so the fetch is not triggered again |
| TableView.NavigationStaysInRange | components/timesheet/table-view.tsx:136-169 | from a page in range, an enabled Previous or Next leads to a page in range; both are disabled exactly when there is one page |
| TableView.RunHoldsExactly | components/timesheet/table-view.tsx:116-124 | the run of neighbours shows page `n` exactly when `lo <= n <= hi`, no ellipsis, in ascending order |
| TableView.AscendingConcat | components/timesheet/table-view.tsx:110-132 | joining two ascending page lists, every number of the first below every number of the second, stays ascending |
| TableView.BelowConcat | components/timesheet/table-view.tsx:110-124 | a bound on the page numbers of two lists bounds their join |
| TableView.LayoutAscending | components/timesheet/table-view.tsx:106-132 | the page numbers on the bar strictly increase, so none repeats, whatever the inputs |
| TableView.LayoutShowsCurrent | components/timesheet/table-view.tsx:116-124 | a current page in range is always on the bar |
| TableView.LeadingEllipsis | components/timesheet/table-view.tsx:112-114 | with the current page in range, an ellipsis follows page 1 exactly when the current page is past 3 |
| TableView.TrailingEllipsis | components/timesheet/table-view.tsx:126-128 | with several pages and the current one in range, an ellipsis precedes the last page exactly when more than two pages follow the current one |
| TableView.LastPageShown | components/timesheet/table-view.tsx:130-132 | the last page closes the bar exactly when there is more than one page |
| TableView.RunExtend | components/timesheet/table-view.tsx:116-124 | pushing the next number extends the run by one |
| TableView.RenderPagination | components/timesheet/table-view.tsx:106-132 | the loop builds page 1, an optional ellipsis, the neighbours `max(2,cp-1)..min(tp-1,cp+1)`, an optional ellipsis and the last page; its `includes` check never fires. The bar starts with 1, ascends, and shows the current page when it is in range |
| TableView.ActionsFollowStatus | components/timesheet/table-view.tsx:77-104 | only a missing week offers Create and its callback; the button text tells the three statuses apart |
| EntryModal.Open | components/timesheet/entry-modal.tsx:73-88 | opening copies the edited entry's four fields, or starts from "", "Bug fixes", "", 4; the errors are cleared either way |
| EntryModal.Validate | components/timesheet/entry-modal.tsx:122-141 | a project error iff no project. A work-type error iff none. "Description is required" iff the description is all white space, else "at least 3 characters" iff the trimmed text is shorter than 3 UTF-16 units. An hours error iff hours are outside 1..24 |
| EntryModal.ValidIffFieldsMeetRules | components/timesheet/entry-modal.tsx:143-144 | the form passes exactly when project and work type are set, the trimmed description is at least 3 UTF-16 units long and hours are in 1..24 |
| EntryModal.AstralDescriptionIsLongEnough | components/timesheet/entry-modal.tsx:133-137 | a description of two emoji is four units long and passes the 3-character rule |
| EntryModal.OpenedFormErrors | components/timesheet/entry-modal.tsx:80-85 | a blank dialog asks for a project and a description and nothing else, and its work type is one of the offered six; a stored entry's hours pass |
| EntryModal.Step | components/timesheet/entry-modal.tsx:177-187 | a stepper click moves hours by one only inside 1..24 and leaves the other fields alone |
| EntryModal.StepsStayInRange | components/timesheet/entry-modal.tsx:177-187 | any run of stepper clicks from hours in 1..24 stays in 1..24, never trips the hours check, and touches no other field |
| EntryModal.Submit | components/timesheet/entry-modal.tsx:147-175 | nothing is sent unless the form passes, and then the errors shown are the form's. Otherwise the payload carries the trimmed description and the date `entry.date`, else the `date` prop, else today. A successful save closes the dialog; a failed one shows the save error |
| EntryModal.SubmittedPayloadIsAccepted | components/timesheet/entry-modal.tsx:157-166 | any payload the dialog sends is accepted by the entries route's POST, which appends it with the trimmed description and the hours, provided today's date is not empty |
| LoginRoute.Login | app/api/auth/login/route.ts:13-46 | a missing or empty field gives 400 first. A malformed address gives 400 "Invalid email format" next. A success returns the demo user and the token `token_<millis>_<suffix>` |
| LoginRoute.DemoEmailIsWellFormed | app/api/auth/login/route.ts:4 | the demo address passes the e-mail pattern |
| LoginRoute.OnlyDemoAccountSucceeds | app/api/auth/login/route.ts:33-46 | the route answers 200 exactly for the body `john.doe@example.com` / `password123` |
| LoginRoute.StatusOrder | app/api/auth/login/route.ts:18-38 | 400 exactly for a missing, empty or malformed field; 401 exactly for any other well-formed pair that is not the demo pair |
| LoginRoute.ShortPasswordIsUnauthorized | app/api/auth/login/route.ts:18-38 | the route has no length rule: a well-formed address with a password of 1 to 5 UTF-16 units, which the form calls too short, is refused with 401, not 400 |
| LoginForm.EmailShapeNotBlank | components/auth/login-form.tsx:27-31 | a well-formed address is never all white space, so the two address messages never both apply |
| LoginForm.Validate | components/auth/login-form.tsx:24-41 | "Email is required" iff the address trims to empty. "Please enter a valid email address" iff it does not, yet fails the pattern on the untrimmed text. "Password is required" iff the password is empty, else "at least 6 characters" iff it is shorter than 6 UTF-16 units |
| LoginForm.HandleSubmit | components/auth/login-form.tsx:43-58 | `login` is called exactly when no field error exists. Without the call the field errors are shown. With it, the form moves to the dashboard iff login succeeds and otherwise shows login's error |
| LoginForm.GateIffFieldsPass | components/auth/login-form.tsx:47-51 | `login` is called exactly when the address is well formed and the password is at least six UTF-16 units long |
| LoginForm.FormPassesRouteChecks | components/auth/login-form.tsx:51 | credentials the form lets through are never answered with 400 by the login route |
| LoginForm.AstralPasswordIsLongEnough | components/auth/login-form.tsx:33-37 | a password of three emoji is six units long and passes the 6-character rule |
| LoginForm.EmptyFormShowsRequired | __tests__/components/login-form.test.tsx:29-41 | submitting the empty form shows "Email is required" and "Password is required" and calls nothing |
| LoginForm.AddressWithoutAtIsInvalid | __tests__/components/login-form.test.tsx:43-61 | "invalid-email" with "password123" shows only the invalid-address message |
| ListView.FindDay | components/timesheet/list-view.tsx:68-70 | finds the first server day with the date, or reports that none has it |
| ListView.FetchEntries | components/timesheet/list-view.tsx:44-88 | a good reply gives exactly five days dated `dateAt(0..4)` in order, clears the error, and copies the header totals from the reply. A failed one changes only the error line, to the server's message or "Failed to fetch entries" |
| ListView.FirstFetch | components/timesheet/list-view.tsx:21-25 | from the state on mount, a good reply gives five rows; a failed one leaves no rows, 0 hours logged, the target of 40 and an error line |
| ListView.RowsFollowServerDays | components/timesheet/list-view.tsx:68-77 | each row carries the entries and total of the server's day with its date, or no entries and 0 when there is none |
| ListView.RowsShowStoredEntries | components/timesheet/list-view.tsx:59-82 | given the entries route's answer for the week, each row shows exactly the week's stored entries of that date, in store order, and their hour sum; the header shows the week's total |

## Left out

- Next.js request and response plumbing. Of the 500 paths, only the GET listing's inherited-key throw is modelled (`Entries.GetAsWritten`); unparsable JSON bodies and other runtime faults are out. Values that are not strings or numbers are also out, e.g. `hours: "5"` or an array `email`, together with JavaScript's coercions on them.
- The seeded entries (`generateInitialEntries`): they depend on today's date and `Math.random()`. The model starts from any store.
- Clock and random sources become parameters: `Date.now()`, ISO time, `Math.random()` for week hours and token suffixes, and the list view's five dates. Computing those dates, and the week ranges and labels printed as "D Month, YYYY", are calendar arithmetic in the local time zone. Weeks carry day offsets from 2024-01-01 instead.
- `dayLabel` on both sides: a locale-dependent presentation string.
- Timesheets.ReadQuery: `parseInt`, called without a radix, is modelled on an optional sign followed by decimal digits. Everything else gives `None` here:
  - leading white space, which JavaScript skips;
  - characters after the digits, where JavaScript stops at the first non-digit;
  - a `0x` prefix, which JavaScript reads as hexadecimal (`"0x10"` is 16);
  - text without digits, which JavaScript reads as NaN.
- Timesheets.List: requires `perPage >= 1`. A page size of 0 makes `totalPages` NaN or Infinity, which is not an integer. A negative page size gives a negative `Math.ceil` page count and slice bounds counted from the end; that integer case is not modelled.
- Text.Before: JavaScript compares strings by UTF-16 code unit and `localeCompare` by locale collation; both are modelled as code-point order. They agree on ISO dates of the form YYYY-MM-DD.
- Entries.SortByDate: POST and PUT accept any non-empty date, and on other dates the model's order can differ from `localeCompare` (it puts "B" before "a"; the locale puts "a" first). The model treats dates as ISO strings.
- Entries.ProjectName: lookups of project ids such as "constructor", which JavaScript's plain object resolves through its prototype, are not modelled. Any id outside the three catalogue ids gives "Unknown Project".
- Concurrency and request interleaving: each handler is one atomic step on the store value.
- Fractional hours and floating-point arithmetic, including the progress percentage in the list view.
- React rendering, effects, loading flags, dropdown open state, click-outside and Escape handling, and the project list fetched by the entry dialog.
- Text.ParseIntToString: holds for integers below 10^21 in magnitude. From there on JavaScript prints exponent form ("1e+21"), which `parseInt` reads back as 1; that form is not modelled.
- TableView.QueryRoundTrip: requires the page and the page size to be below 10^21 in magnitude, for the same reason. Integers the model allows but a JavaScript number cannot hold exactly (above 2^53) are not distinguished.
- Persistence of the session: `auth-context`, the status badge, the dashboard page and the header are not part of this model. The link from the sign-in form to the login route assumes the context forwards the typed address and password unchanged.

## Findings

| source | as written | input that shows it | evidently intended | confidence | as-written member | corrected member |
|---|---|---|---|---|---|---|
| app/api/timesheets/entries/route.ts:210 | PUT copies any truthy `hours` into the entry without the 1..24 check POST applies | a store holding one 4-hour entry `entry-1`, then PUT `{id: "entry-1", hours: 25}`: the reply is 200 and the entry now has 25 hours | every stored entry has 1 to 24 hours, as POST (route.ts:135-140) and the entry dialog (entry-modal.tsx:139) enforce; PUT should refuse out-of-range hours with 400 | medium, not executed | Entries.PutStoresOutOfRangeHours | Entries.PutChecked, Entries.PutCheckedKeepsValid |
| app/api/timesheets/entries/route.ts:80-86 | the day grouping keeps its buckets in a plain object `{}`, so `entriesByDate[date]` also finds inherited properties; for such a date no array is opened and `.push` throws | POST `{projectId: "proj-1", workType: "Development", description: "x", hours: 1, date: "constructor"}` is accepted; every later GET without `weekStart`/`weekEnd` answers 500 "Failed to fetch entries" | every accepted entry is listed under its date, as for any other date string | medium, not executed | Entries.GetAsWritten, Entries.InheritedDateBreaksListing | Entries.Get, Entries.OwnKeysListInheritedDate |
