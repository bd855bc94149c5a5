# Task board core in Dafny

This project models the pure logic inside a small Express/Mongoose task-board
backend, and proves properties of that model:

- **Calendar windows.** `getCurrentWeek` returns the Monday-to-Sunday week that
  contains a reference Date; Sunday counts as day 7. `getCurrentMonth` returns
  the first and last day of the reference month; the last day is asked for as
  "day 0 of the next month". Dates are civil `(year, month, day)` triples with a
  days-from-civil conversion (`Calendar`). The few ECMAScript Date operations the
  utilities use are in `JsDate`: `getDay`, `setDate`, the three-argument
  constructor, and the MakeDay abstract operation of ECMA-262 (section 21.4, Date
  objects) with its month carry and day-0 rule. The time of day is
  carried along as an opaque number of milliseconds.
- **The task schema.** `TaskSchema.MakeTask(fields, now)` is the validating
  constructor Mongoose runs when a task document is built:
  - `title`, `priority` and `owner` are required;
  - `priority` and `category` must come from their enumerations;
  - when absent, `category` becomes `to-do`, `member` null, `createdAt` now, and
    each checklist entry's `completed` false.
  Mongoose reports at most one error per path, so a required check comes before
  the enumeration check on the same path, and every failing path is reported.
- **The task routes** (`TaskRoutes`):
  - the checklist text is split on commas and each piece trimmed, exactly as
    `split(",")` and `String.prototype.trim` do;
  - `POST /new` turns the request body into a task and appends it to the store;
  - `GET /user/:userid` lists the tasks assigned to the user, then the tasks the
    user owns. The store is an in-memory sequence of tasks in stored order.

Modules, one per file: `Wrappers` (Option, Result), `Calendar`, `JsDate`,
`CurrentWeek`, `CurrentMonth`, `TaskSchema`, `TaskRoutes`.

## Model

| member | source | states |
|---|---|---|
| Calendar.FromDays | utils/getCurrentWeek.js:10-11 | every day number, however far a `setDate` offset moves it, names a valid civil date whose day number is that number |
| Calendar.FromDaysToDays | utils/getCurrentWeek.js:10-11 | converting a valid date to its day number and back gives the same date |
| Calendar.ToDaysInjective | utils/getCurrentWeek.js:10-11 | two valid dates have the same day number exactly when they are the same date |
| Calendar.ToDaysOrder | utils/getCurrentWeek.js:10-11 | calendar order (year, then month, then day) agrees with day-number order, in both directions |
| Calendar.AddDays | utils/getCurrentWeek.js:10-11 | moving a date by k days gives a valid date exactly k day numbers later, across month and year ends |
| Calendar.WeekdayShift | utils/getCurrentWeek.js:6 | the weekday k days later is the weekday plus k, modulo 7 |
| Calendar.KnownWeekdays | utils/getCurrentWeek.js:6 | the weekday numbering matches getDay: 1970-01-01 and 2024-02-15 are Thursdays (4), 2000-01-01 is a Saturday (6) |
| JsDate.MakeDay | utils/getCurrentMonth.js:3 | a 0-based month and a day of month inside that month give the day number of exactly that civil date |
| JsDate.MakeDayZeroIsLastDay | utils/getCurrentMonth.js:5 | day 0 of the month after a given month, December included, is the last day of the given month |
| JsDate.SetDate | utils/getCurrentWeek.js:10-11 | `setDate(d)` moves the date by `d` minus the current day of month and keeps the time of day |
| JsDate.AtMakeDayZero | utils/getCurrentMonth.js:5 | a Date built for day 0 of the following month falls on the last day of the month |
| JsDate.GetDay | utils/getCurrentWeek.js:6 | `getDay` is a weekday number in 0..6, on the numbering `Calendar.KnownWeekdays` anchors (0 is Sunday) |
| JsDate.ConstructorYear | utils/getCurrentMonth.js:3 | the year the three-argument Date constructor uses: 1900 + y for y in 0..99, y itself otherwise |
| JsDate.NewDate | utils/getCurrentMonth.js:3 | `new Date(y, m, d)` is at midnight and, for an in-range month and day, on that date of the constructor's year (1900 + y for y in 0..99) |
| CurrentWeek.WeekdayFromMonday | utils/getCurrentWeek.js:6-8 | `days` lies in 1..7 and agrees with getDay modulo 7, so Sunday (0) becomes 7 and the other days are unchanged |
| CurrentWeek.GetCurrentWeek | utils/getCurrentWeek.js:1-17 | start is `days - 1` days before the reference and end `7 - days` days after; start is a Monday and end a Sunday; start <= reference <= end; end is start + 6; both keep the reference's time of day; each bound is the reference moved by that many days |
| CurrentWeek.StartIsWeekMonday | utils/getCurrentWeek.js:10 | the start date depends only on the week index of the reference: it is the Monday of that week |
| CurrentWeek.SameWeekSameBounds | utils/getCurrentWeek.js:8-11 | two references get the same start date, and the same end date, exactly when they lie in the same Monday-to-Sunday week |
| CurrentWeek.WindowIsTheWeek | utils/getCurrentWeek.js:10-11 | a date lies between the bounds exactly when it is in the reference's week |
| CurrentMonth.GetCurrentMonthAsWritten | utils/getCurrentMonth.js:1-11 | the bounds as the source builds them are at midnight, on day 1 and on the last day of the reference month, in the year the constructor reads |
| CurrentMonth.TwoDigitYearCounterexample | utils/getCurrentMonth.js:3-5 | for a reference in years 0..99 both bounds fall 1900 years later and differ from the corrected bounds |
| CurrentMonth.GetCurrentMonth | utils/getCurrentMonth.js:1-11 | start is day 1 and end the last day of the reference's own year and month, both at midnight, and start <= reference day <= end |
| CurrentMonth.AsWrittenAgreesOutsideTwoDigitYears | utils/getCurrentMonth.js:3-5 | outside years 0..99 the source's bounds equal the corrected ones |
| CurrentMonth.MonthEnds | utils/getCurrentMonth.js:5 | February ends on the 29th in 2024 and 2000 and on the 28th in 2023 and 1900; December ends on the 31st of the same year |
| TaskSchema.PriorityLabel | schemas/task.schema.js:20 | every priority's label is one of the three enumerated values |
| TaskSchema.CategoryLabel | schemas/task.schema.js:43 | every category's label is one of the four enumerated values |
| TaskSchema.ParsePriority | schemas/task.schema.js:17-21 | a priority text is accepted exactly when it is `high`, `moderate` or `low`, and it names the priority it was read as |
| TaskSchema.ParseCategory | schemas/task.schema.js:41-45 | a category text is accepted exactly when it is `backlog`, `to-do`, `in-progress` or `done`, and it names the category it was read as |
| TaskSchema.LabelsRoundTrip | schemas/task.schema.js:17-45 | reading back the label of a priority or a category gives that value |
| TaskSchema.MakeChecklistItem | schemas/task.schema.js:4-10 | an entry keeps its content; `completed` is true only when supplied as true (default false) |
| TaskSchema.MakeChecklist | schemas/task.schema.js:40 | the checklist keeps its length and order, each entry built with its default |
| TaskSchema.MakeTask | schemas/task.schema.js:12-49 | accepted iff title and priority are present and non-empty, priority and any supplied category are enumerated, and owner is present; on rejection, exactly the failing paths are reported (required before enum); on acceptance the supplied values are kept and the defaults are `to-do`, null member, `now` and `completed` false |
| TaskSchema.MakeTaskFieldsOf | schemas/task.schema.js:12-49 | every task with a non-empty title is rebuilt unchanged from its own fields, whatever the clock |
| TaskRoutes.TrimStart | routes/task.js:18 | the result is a suffix of the text; every dropped character is whitespace; the result does not start with whitespace |
| TaskRoutes.TrimEnd | routes/task.js:18 | the result is a prefix of the text; every dropped character is whitespace; the result does not end with whitespace |
| TaskRoutes.Trim | routes/task.js:18 | a trimmed item neither starts nor ends with whitespace |
| TaskRoutes.TrimCutsOnlyEdges | routes/task.js:18 | trimming keeps a contiguous middle of the text and drops only whitespace, only at the two ends |
| TaskRoutes.TrimKeepsClean | routes/task.js:18 | text with no whitespace at its edges is unchanged |
| TaskRoutes.TrimPadded | routes/task.js:18 | any whitespace padding around a clean core is removed, so `" b "` trims to `"b"` |
| TaskRoutes.TrimIdempotent | routes/task.js:18 | trimming twice is trimming once |
| TaskRoutes.SplitCommas | routes/task.js:18 | splitting gives at least one piece and no piece holds a comma |
| TaskRoutes.SplitCommasCount | routes/task.js:18 | there is one piece more than the text has commas, empty pieces included |
| TaskRoutes.JoinSplitCommas | routes/task.js:18 | joining the pieces with commas gives back the text, so the pieces keep their order and drop nothing |
| TaskRoutes.SplitJoinCommas | routes/task.js:18 | splitting comma-free pieces joined by commas gives back those pieces, empty ones included |
| TaskRoutes.SplitChecklist | routes/task.js:18 | one item per comma-separated piece, item i being piece i trimmed, so no item has edge whitespace or a comma |
| TaskRoutes.SplitChecklistOfJoin | routes/task.js:18 | for comma-free pieces joined by commas the items are the pieces trimmed, in order: `"a, b , c"` gives three trimmed items and `"a,,b"` keeps the empty middle one |
| TaskRoutes.SplitChecklistEmpty | routes/task.js:18 | the empty text gives one empty item |
| TaskRoutes.ParseIdField | routes/task.js:21-23 | an id parses exactly when it is present and the id parser accepts it |
| TaskRoutes.NewTaskFields | routes/task.js:24-30 | the object the route builds carries the body's title and priority, the parsed owner and assignee and one content-only entry per split item; category, member, createdAt and duedate are left unset for the schema |
| TaskRoutes.CreateTask | routes/task.js:15-30 | a missing checklist fails first, then an unparsable owner id, then an unparsable assignee id; otherwise the schema decides: it accepts iff title and priority pass, and reports a missing title or priority as required; the task has the parsed owner and assignee, the body's title and priority, the split items each with `completed` false, category `to-do`, null member, no due date and `now` as creation time |
| TaskRoutes.PostNewTask | routes/task.js:24-31 | on success the store gains exactly the built task at its end; on failure the error is the builder's |
| TaskRoutes.Filter | routes/task.js:39-40 | the kept elements are exactly the elements satisfying the condition |
| TaskRoutes.FilterCount | routes/task.js:39-40 | every occurrence of a kept element is kept, and no occurrence of a dropped one |
| TaskRoutes.FilterAppend | routes/task.js:39-40 | filtering distributes over concatenation, so stored order is kept |
| TaskRoutes.UserTasks | routes/task.js:36-41 | a task is listed exactly when it is stored and is assigned to or owned by the user |
| TaskRoutes.UserTasksCount | routes/task.js:39-41 | a task is listed as many times as it is stored if assigned, plus as many again if owned, so a task both assigned and owned appears twice |
| TaskRoutes.UserTasksOrder | routes/task.js:41 | the list splits into a prefix of all the assigned tasks followed by a suffix of owned tasks |
| TaskRoutes.Truthy | routes/task.js:42 | every array is truthy, whatever its length, and undefined, null, false, 0 and the empty string are falsy |
| TaskRoutes.ListUserTasks | routes/task.js:36-48 | a `userid` that does not cast to an id makes the query fail; otherwise the reply is the listing of that id, possibly empty; `No tasks found` is never sent |
| TaskRoutes.UserTasksEmpty | routes/task.js:39-48 | the list is empty exactly when no stored task is assigned to or owned by the user |
| TaskRoutes.CreatedTaskIsListed | routes/task.js:24-41 | after a successful `POST /new`, the new task is listed for its owner and for its assignee |

## Left out

- Storage, HTTP and the server: `index.js`, `routes/user.js` and `middleware/auth.js` are not part of this model. That covers password hashing, token checks and database connections. Storage is an in-memory sequence of tasks. `save` appends to it, and `where(...).equals(...)` is a filter in stored order; the database's natural order is taken to be insertion order.
- `GET /` in routes/task.js:7-12 returns every record as it is stored. There is nothing to prove about it.
- `Types.ObjectId.createFromHexString` (routes/task.js:21, 23) lives in a library that is not part of this model. It becomes the parameter `parseId`. A missing id fails like a malformed one.
- `CreateTask` is modelled as a result value. In the source, a missing checklist, a bad id or a rejected document each throw inside an async handler, and no response is sent; that HTTP behaviour is not modelled. `console.log` at routes/task.js:19 is left out.
- TaskRoutes.CreateTask: its checklist clause rests on an assumption about the library. routes/task.js:27 passes plain strings where schemas/task.schema.js:40 expects entry documents. None of the modelled files settles how such a string is cast: it may become an entry with that content, an entry with no content, or a cast error on `checklist`. The model assumes each string becomes an entry whose `content` is the string (TaskRoutes.NewTaskFields), so the content clause of CreateTask holds only under that assumption.
- Document `_id` values (task and checklist entries) and the `__v` version key are left out. They are generated by the library and no property depends on them.
- `ref: "User"` is left out. Ids are not checked against existing users.
- Time zones, daylight saving time, the millisecond range of a Date, and the invalid Date are left out. A Date is its local civil date plus a time of day. Only the operations the utilities call are modelled.
- The default argument `new Date()` reads the clock. It is the caller's argument here, as `now` is for `createdAt`.
- The implicit global `days` (utils/getCurrentWeek.js:8) is a local value in the model.
- The input Date is never mutated: the model works on immutable values, so this holds by construction and is not a separate lemma.
- Ownership: routes/task.js:16-28 takes `owner` from the request body's `ownerId`. The task router is mounted without any authentication middleware (index.js:16), so no authenticated user is involved.
- Listing scope: routes/task.js:39-41 matches on assignee and owner only; `member` is not consulted.
- The cast of the `userid` path parameter (routes/task.js:37, 39-40) is done by the library and becomes the parameter `castId` of TaskRoutes.ListUserTasks. A failed cast is the `CastFailed` reply; in the source the query rejects and the handler sends no response.
- Access control, category changes, checklist toggling, board-member updates and analytics counts do not appear in the modelled files. They are not modelled.

## Findings

| source | as written | input that shows it | evidently intended | confidence | as-written member | corrected member |
|---|---|---|---|---|---|---|
| utils/getCurrentMonth.js:3-5 | `new Date(currDate.getFullYear(), currDate.getMonth(), 1)`, and the same with `getMonth() + 1, 0`; the Date constructor (section 21.4.2.1 of ECMA-262) reads years 0..99 as 1900..1999 | a reference in any month of year 50: both bounds come out in 1950 | the first and the last day of the reference's own month and year | not executed | CurrentMonth.TwoDigitYearCounterexample | CurrentMonth.GetCurrentMonth |
