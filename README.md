# Daily task tracker — a Dafny model of its core

The tracker is a small web application: an Express server over a SQL Server database
(users, tasks and their entries), a role-based authorization middleware, and React views
for daily task entry, a paginated dashboard, a per-task detail page with a progress bar,
a user-administration panel and performance charts. An older pair of routes keeps
username/password records in a JSON file.

This project models the decision logic of those parts and proves what it guarantees:

- **Server users** (`server_users.dfy`, module `ServerUsers`): registration (field
  check, duplicate email, hashed insert) and login (exactly one row with the email and a
  matching password), with the store failure as a parameter.
- **Server tasks** (`server_tasks.dfy`, module `ServerTasks`):
  - `POST /api/tasks` inserts a parent, then one child row per entry, and is not atomic.
  - `GET /api/tasks` groups joined rows into one record per task.
  - `GET /api/tasks/:id` returns a task or 404.
  - `PUT /api/tasks/:id` validates the hour value and the id (`isNaN`, `parseInt`), then reports 404 or 200.
- **Authorization** (`auth.dfy`, module `AuthMiddleware`): bearer-token extraction by
  `split(' ')`, verification, and the role check of `authorize(roles)`.
- **Legacy file routes** (`register.dfy`, module `LegacyRegister`).
- **Views**:
  - the daily form's entry rows (`daily_form.dfy`);
  - the dashboard's in-place date sort and pagination (`dashboard.dfy`);
  - the detail page's maps, submit loop and totals (`form_data_details.dfy`);
  - the user-panel handlers (`user_control.dfy`);
  - the chart shaping (`performance_visuals.dfy`).

`common.dfy` holds the shared `Option`, the day numbers used for dates (days since the
Unix epoch) and a JavaScript number that may be NaN.

The views' state updates are classes whose methods change their fields. Each method
states its whole new state. Loops in the source are `while` loops with invariants:
- the child inserts;
- the grouping `forEach`;
- the detail page's initial maps and its submit loop;
- the sort.

Password hashing, password comparison, token verification, the detail page's `parseFloat`
and the JavaScript string-to-number conversion are function parameters. A database failure is a
`bool` parameter, or the index of the statement that fails.

## Model

| member | source | states |
|---|---|---|
| ServerUsers.WithEmail | src/components/server.js:33-36 | the selected rows are exactly the users with that email |
| ServerUsers.Register | src/components/server.js:26-54 | 400 when a field is missing or empty, checked before any query; 500 on a store failure; 400 for a taken email; 201 exactly when all fields are present, the store works and the email is free; then exactly one row with the hashed password is appended |
| ServerUsers.RegisterKeepsEmailsUnique | src/components/server.js:33-48 | a registration never creates a second row with an existing email |
| ServerUsers.Login | src/components/server.js:57-79 | the user is returned exactly when one row has the email and the comparison accepts its hash; no row, two or more rows, or a wrong password give the same 401; a missing password against one row makes the comparison fail with 500; a store failure gives 500 |
| ServerUsers.RegisterThenLogin | src/components/server.js:26-79 | once registered, the same email and password log in as the new row (given that comparison accepts a password against its own hash) |
| ServerTasks.ChildRows | src/components/server.js:96-107 | one child row per submitted entry, in order, each pointing at the new parent and carrying that entry's fields |
| ServerTasks.CreateTask | src/components/server.js:82-114 | a failed parent insert changes nothing and gives 500; otherwise the parent is inserted; an absent entry list gives 500 after the parent insert; otherwise the entries before the failing statement are inserted in order, and the reply is 201 exactly when all of them are |
| ServerTasks.GroupRows | src/components/server.js:136-157 | the grouping loop computes the grouped list |
| ServerTasks.ListTasks | src/components/server.js:117-163 | 200 with the grouped rows, or 500 when the query fails |
| ServerTasks.FirstRow | src/components/server.js:138-146 | the index of the first row of a task id |
| ServerTasks.GroupKeys | src/components/server.js:137-147 | the grouped object has a key exactly for each task id among the rows |
| ServerTasks.GroupRecord | src/components/server.js:137-156 | each record carries its id, the header of its id's first row, and the entries of exactly its rows in row order |
| ServerTasks.GroupContents | src/components/server.js:137-156 | both of the above for every key |
| ServerTasks.ValuesFromOrdered | src/components/server.js:157 | `Object.values` over integer keys lists each record once, in ascending id order |
| ServerTasks.TotalEntriesOfGroup | src/components/server.js:137-156 | every joined row adds exactly one entry, so the entries of the reply number the rows |
| ServerTasks.GroupedListIds | src/components/server.js:137-157 | the reply has a record for exactly the task ids among the rows |
| ServerTasks.GroupedListRecords | src/components/server.js:137-157 | each record of the reply has its id's first-row header and exactly its rows' entries |
| ServerTasks.GroupedListProperties | src/components/server.js:120-158 | the reply is one record per distinct task id in ascending id order, with the first row's header and exactly its rows' entries in row order |
| ServerTasks.EntriesFor | src/components/server.js:174-177 | the entry rows selected are exactly those with that task id |
| ServerTasks.FindTask | src/components/server.js:170-179 | the first parent row with the id, or none when no row has it |
| ServerTasks.FetchTask | src/components/server.js:166-189 | 500 on a store failure; 404 exactly when no parent row has the id; otherwise 200 with that row and exactly its entries |
| ServerTasks.DigitRun | src/components/server.js:202 | the digits `parseInt` reads: the longest run of digits at the front |
| ServerTasks.ParseIntNumeral | src/components/server.js:202-207 | `parseInt` reads back the decimal numeral of any integer, also with trailing non-digit text |
| ServerTasks.CountWithId | src/components/server.js:215-218 | the update touches no row exactly when no entry has the id |
| ServerTasks.SetActualHour | src/components/server.js:215 | rows with the id get the new actual hour and nothing else changes |
| ServerTasks.UpdateTask | src/components/server.js:192-225 | checked in the source's order: an undefined or NaN-coercing hour gives 400, then an id without a leading integer gives 400, then a store failure, an id outside the 32-bit `sql.Int` range or an hour the `sql.Float` bind refuses (a boolean, or a string, array or object in which `parseFloat` finds no number) gives 500, then no matching row gives 404; otherwise 200 and only those rows' actual hour changes, to the number `parseFloat` reads; nothing changes on any other outcome |
| ServerTasks.OutOfRangeIdFails | src/components/server.js:202-223 | an id that parses but lies outside the `sql.Int` range is answered 500, never 404 |
| ServerTasks.BooleanHourFails | src/components/server.js:196-223 | a boolean hour passes the `isNaN` test but the float bind throws, so the reply is 500 and nothing changes |
| ServerTasks.Mantissa | src/components/server.js:214 | the digits-point-digits part of a decimal literal is a prefix, and it exists exactly when the text starts with a digit or with a point and a digit |
| ServerTasks.UnsignedLiteral | src/components/server.js:214 | the unsigned literal `parseFloat` reads is a prefix, and it exists exactly when the text starts with a digit, a point and a digit, or `Infinity` |
| ServerTasks.FloatPrefix | src/components/server.js:214 | what `parseFloat` reads is a prefix of the text after leading white space, and it exists (the bind does not throw) exactly when an unsigned literal starts after the optional sign |
| ServerTasks.FloatPrefixNumeral | src/components/server.js:214 | `parseFloat` reads the whole decimal numeral of any integer |
| ServerTasks.BlankHourFails | src/components/server.js:196-223 | a blank string or an array whose string form is blank (`[]`, `[""]`, `[[]]`) is never stored: 400 when `Number()` rejects it, otherwise 500 from the float bind |
| ServerTasks.ObjectHourFails | src/components/server.js:196-223 | an object hour is never stored and the reply is 400 or 500 |
| AuthMiddleware.Split | src/components/Middleware/auth.js:5 | `split(' ')` gives at least one piece and no piece contains the separator |
| AuthMiddleware.JoinSplit | src/components/Middleware/auth.js:5 | joining the pieces again gives back the header |
| AuthMiddleware.TokenOf | src/components/Middleware/auth.js:5-9 | a token exists exactly when the header has a non-empty second space-separated part, and it is that part |
| AuthMiddleware.BearerToken | src/components/Middleware/auth.js:5 | the `Bearer <token>` header the views send yields exactly that token |
| AuthMiddleware.Decide | src/components/Middleware/auth.js:3-27 | no token gives 401 "no token"; a token that fails verification gives 401 "Invalid token"; a role outside a present list gives 403; it allows exactly when the token verifies and the role check passes, and it carries the decoded claims |
| AuthMiddleware.NoRoleListAdmitsVerified | src/components/Middleware/auth.js:18 | without a role list any verified token passes; an empty list denies everyone |
| AuthMiddleware.Authorize | src/components/Middleware/auth.js:4-26 | calls next exactly when the decision allows, otherwise replies with its status and message; it assigns `req.user` for every verified token, before the role check |
| LegacyRegister.UserList.FromFile | src/components/register.js:6-12 | the list is the parsed file, or empty when the file cannot be read or parsed |
| LegacyRegister.FindByName | src/components/register.js:15 | the first record with the username, or none exactly when no record has it |
| LegacyRegister.FindMatch | src/components/register.js:43 | the first record equal to the credentials, or none exactly when there is none |
| LegacyRegister.UserList.Register | src/components/register.js:14-26 | a taken username gives 400 and leaves the list as it was; otherwise the record is appended and the reply is 200 |
| LegacyRegister.UserList.Login | src/components/register.js:42-48 | 200 exactly when some record has both the username and the password, otherwise 401 |
| LegacyRegister.RegisterKeepsNamesUnique | src/components/register.js:14-21 | registration keeps usernames unique |
| LegacyRegister.FindByNameOfAppend | src/components/register.js:15-21 | after a push, a name lookup finds the earlier match or the pushed record |
| LegacyRegister.RegisterThenLogin | src/components/register.js:21-48 | after a successful registration the same credentials match the new record |
| LegacyRegister.RegisterAndLogin | src/components/register.js:1-49 | the same round trip through both route methods: both replies are 200 |
| DailyForm.Set | src/components/DailyForm.js:29 | `entry[name] = value` changes the named field and no other |
| DailyForm.WithField | src/components/DailyForm.js:27-31 | field f of row i becomes v; other fields and other rows are kept, and so is the length |
| DailyForm.Appended | src/components/DailyForm.js:33-42 | one blank row is added at the end and the other rows are kept |
| DailyForm.Removed | src/components/DailyForm.js:44-48 | `splice(index, 1)` removes row i and keeps the order of the rest; an index past the end removes nothing |
| DailyForm.RowsNeverEmpty | src/components/DailyForm.js:123-127 | since add is offered only on the last row and delete only on the others, no sequence of actions empties a non-empty list |
| DailyForm.FromInitialNeverEmpty | src/components/DailyForm.js:14-21 | from the initial single blank row the list is never empty |
| DailyForm.Form.InputChange | src/components/DailyForm.js:27-31 | the rows become WithField of the old rows and the header is unchanged |
| DailyForm.Form.AddTask | src/components/DailyForm.js:33-42 | the rows become Appended of the old rows |
| DailyForm.Form.DeleteTask | src/components/DailyForm.js:44-48 | the rows become Removed of the old rows, and at least one row remains |
| DailyForm.Form.ChangeHeader | src/components/DailyForm.js:68-85 | only the edited header field changes |
| DailyForm.Form.Submit | src/components/DailyForm.js:50-57 | a missing stored list reads as empty; the saved list keeps the earlier records in order and ends with exactly this form |
| FormDataDetails.InitialHour | src/components/FormDataDetails.js:23 | `actualHour \|\| 0` |
| FormDataDetails.InitialDone | src/components/FormDataDetails.js:24 | `completed \|\| false` is true exactly when the flag is true |
| FormDataDetails.InitialMaps | src/components/FormDataDetails.js:20-25 | one key per entry index in both maps, holding its initial hour and flag |
| FormDataDetails.TaskDetails.Loaded | src/components/FormDataDetails.js:17-27 | the view after the fetch holds the entries and the initial maps |
| FormDataDetails.ClampHour | src/components/FormDataDetails.js:44 | `Math.max(0, parseFloat(v))`: NaN stays NaN, a negative value becomes 0, others are kept |
| FormDataDetails.TaskDetails.InputChange | src/components/FormDataDetails.js:36-50 | a checkbox sets only its index's flag; an enabled hour input sets only its index's clamped hour; a disabled input changes nothing |
| FormDataDetails.CompletionPercentage | src/components/FormDataDetails.js:79-86 | none exactly when planned hours total zero, otherwise percentage × planned = completed × 100 |
| FormDataDetails.CompletedWithinPlanned | src/components/FormDataDetails.js:79-85 | with non-negative planned hours, completed hours lie between 0 and the planned total |
| FormDataDetails.PercentageBounds | src/components/FormDataDetails.js:86 | the progress value lies in [0, 100] |
| FormDataDetails.AllDoneSum | src/components/FormDataDetails.js:80-85 | with every entry completed, completed hours equal planned hours |
| FormDataDetails.NoneDoneSum | src/components/FormDataDetails.js:80-85 | with no entry completed, completed hours are 0 |
| FormDataDetails.PercentageAllDone | src/components/FormDataDetails.js:86 | every entry completed gives exactly 100 |
| FormDataDetails.PercentageNoneDone | src/components/FormDataDetails.js:86 | no entry completed gives exactly 0 |
| FormDataDetails.Updates | src/components/FormDataDetails.js:55-62 | the requests for a prefix of the entries number at most its length |
| FormDataDetails.UpdatesCover | src/components/FormDataDetails.js:55-62 | with every hour defined there is one request per entry; with none defined no request is sent |
| FormDataDetails.UpdateOfEntry | src/components/FormDataDetails.js:55-61 | each entry with a defined hour gets a request with its id, hour and flag, placed right after the requests of the entries before it |
| FormDataDetails.UpdatesInEntryOrder | src/components/FormDataDetails.js:55-61 | of two entries with defined hours, the earlier one's request comes first |
| FormDataDetails.UpdateHasEntry | src/components/FormDataDetails.js:55-61 | every request belongs to an entry with a defined hour and carries its id, hour and flag |
| FormDataDetails.UpdatesPrefix | src/components/FormDataDetails.js:55-62 | the requests for a shorter prefix are a prefix of the requests for a longer one |
| FormDataDetails.TaskDetails.Submit | src/components/FormDataDetails.js:52-68 | the requests go out in entry order for entries with a defined hour; a failing request ends the loop with the error alert, after exactly the requests up to it; otherwise all are sent and the success alert is shown |
| UserControl.WithRole | src/components/userControl.js:51-53 | users with the id get the new role and nothing else; the other users and the length are unchanged |
| UserControl.WithClusterLead | src/components/userControl.js:128-132 | the same for the reporting lead |
| UserControl.FromForm | src/components/userControl.js:70 | the appended user is the form's fields, without an id or a deleted flag |
| UserControl.Panel.Mount | src/components/userControl.js:23-40 | the fetched list, or the "not Authorized" error with the list unchanged |
| UserControl.Panel.RoleChange | src/components/userControl.js:43-58 | on success the list becomes WithRole, so the changed users hold one of the roles the row's selector offers (lines 260-270); on failure only the error changes |
| UserControl.Panel.AddUser | src/components/userControl.js:61-87 | on success the form user is appended and the form is hidden and reset; a duplicate email only alerts; any other failure sets the error |
| UserControl.Panel.ToggleStatus | src/components/userControl.js:90-110 | the refetched list, or the toggle error with the list unchanged |
| UserControl.Panel.EditClusterLead | src/components/userControl.js:113-116 | opens that row's editor with its current lead |
| UserControl.Panel.SaveClusterLead | src/components/userControl.js:119-139 | on success the list becomes WithClusterLead and the editor closes; on failure only the error changes |
| UserControl.Panel.ToggleAddForm | src/components/userControl.js:144-146 | the form's visibility flips; the button exists only for a Manager (AddUserShown) |
| UserControl.Panel.ChangeNewUser | src/components/userControl.js:157-209 | only the edited form field changes; the role selector offers only the panel's roles, so the form's role stays one of them |
| UserControl.Panel.TypeClusterLead | src/components/userControl.js:240 | only the lead being edited changes |
| PerformanceVisuals.ProcessChartData | src/components/PerformanceVisuals.js:26-50 | labels and both datasets are index-aligned with the data; planned hours come first and actual hours second |
| PerformanceVisuals.Render | src/components/PerformanceVisuals.js:52-59 | a chart is drawn for a period exactly when its data has arrived, shaped by ProcessChartData |
| PerformanceVisuals.ShapingCommutesWithAppend | src/components/PerformanceVisuals.js:27-29 | shaping two runs of rows one after the other gives each run's labels and datasets appended |
| Dashboard.SortNewestFirst | src/components/Dashboard.js:17 | the array, sorted in place, is newest first and a permutation of what was fetched |
| Dashboard.InsertLast | src/components/Dashboard.js:17 | one step of the in-place sort: with the cards before i in order, the cards up to i end in order, and the array is a permutation of what it was |
| Dashboard.DashboardView.Load | src/components/Dashboard.js:13-25 | the list becomes the sorted fetched array |
| Dashboard.TotalPages | src/components/Dashboard.js:43 | `Math.ceil(length / n)`: the fewest pages of n that hold every card |
| Dashboard.PageButtons | src/components/Dashboard.js:69-77 | one button per page, labelled 1 to the number of pages |
| Dashboard.ButtonsArePages | src/components/Dashboard.js:69-77 | the buttons are exactly the page numbers 1 to the number of pages |
| Dashboard.PageIsWindow | src/components/Dashboard.js:40-42 | page p is the run of cards from index (p − 1)·n, n long, cut at the end |
| Dashboard.PageSizes | src/components/Dashboard.js:40-43 | a page holds at most n cards; pages before the last are full; the last is not empty; pages past the last are empty |
| Dashboard.PageOfIndex | src/components/Dashboard.js:40-42 | card i is card i mod n of page ⌊i / n⌋ + 1 |
| Dashboard.PagesPrefix | src/components/Dashboard.js:40-42 | pages 1 to k together are the first k·n cards |
| Dashboard.AllPagesShowAll | src/components/Dashboard.js:40-43 | reading all pages in button order shows every card once, in list order |
| Dashboard.DashboardView.PageChange | src/components/Dashboard.js:31-33 | a clicked button's number becomes the page, which then shows between 1 and n cards |
| Dashboard.DashboardView.TasksPerPageChange | src/components/Dashboard.js:35-38 | a new page size resets to page 1, which then shows the first n cards |

## Left out

- SQL itself is left out.
  - The tables are sequences.
  - The rows of the join are an input, with their order. They are not derived from the two tables, so the all-null entry that a task without entries gets is not proved.
  - Identity columns are counters.
  - The email match is exact (the database's collation may ignore case).
  - The connection pool and credentials are not modelled.
- bcrypt hashing and comparison, JWT signing and verification, the detail page's `parseFloat` and JavaScript's string-to-number conversion are parameters. The server's `parseFloat` is modelled by the literal it reads.
- The weekly and monthly statistics queries are not modelled. Only the view's shaping of their rows is.
- The cron job, mail sending and the notification routes are not modelled. The user-administration server routes are not modelled either: the panel's calls are success/failure inputs.
- File I/O in the legacy routes is not modelled. The list is read at construction and kept between requests, which is what writing the file and reading it back gives.
- HTTP, `localStorage`, navigation and React rendering are not modelled. The rendering rules the model needs are predicates: which buttons appear, and when the hour input is enabled. Dates are day numbers, with no time zones or formatting.
- Concurrency is not modelled: requests and awaits run one at a time.
- ServerTasks.FetchTask: the id is an integer. The driver's conversion of the URL string to `sql.Int` and its range check are not modelled.
- ServerTasks.UpdateTask: `parseInt` gives a double, which rounds integers beyond 2^53. The model keeps the exact integer. Any such id is outside the `sql.Int` range, so either way the reply is 500.
- ServerTasks.UpdateTask: the `completed` field of the body is sent but never read, so it is not modelled. A JSON array or object body value is given by its string form, which is what both `Number()` and `parseFloat` read.
- ServerTasks.IsWhitespace: it lists the common whitespace and line-terminator characters. Other Unicode space separators that `parseInt` and `parseFloat` also skip are not listed.
- ServerTasks.StoredHour: the stored number is the string-to-number parameter applied to the literal `parseFloat` reads (FloatPrefix). The model does not promise that the parameter reads every such literal. Infinities, whether `Infinity` or a literal whose exponent overflows, are outside `real`.
- Dashboard.SortNewestFirst: ties keep their order (JavaScript's sort is stable). This contract states sortedness and permutation, not stability.
- Dashboard.DashboardView.Load: a failed fetch only logs, so the list stays as it was. No separate member models it.
- FormDataDetails: number formatting of the percentage is not modelled, and neither is the "Loading..." screen before the fetch. Real numbers stand in for IEEE floats.
- PerformanceVisuals.Render: it takes the two data sets independently. The view sets both together after `Promise.all`, which is one of the cases covered.
- DailyForm.Form.InputChange: the source mutates an entry object that the old state shares, because the array copy is shallow. The model updates by value.
