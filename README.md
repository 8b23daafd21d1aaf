# Task manager: listing, pagination and display helpers

A model of the deterministic logic of a small Express task manager: the
display helpers of `utils/helpers.js` (absent-date formatting, text
truncation, priority styling, the two due-date predicates and the pagination
descriptor) and the parts of `controllers/taskController.js` that do not
touch the document store (reading list parameters with their defaults,
building the filter, sort, skip and page count, normalising form fields on
create and update, and toggling a task's completion).

Files and modules:

- `wrappers.dfy` (`Wrappers`): `Option`, standing for JavaScript's
  `undefined`/`null`.
- `numbers.dfy` (`JsNumbers`): JavaScript's `parseInt` with no radix
  (leading white space, sign, `0x` prefix, longest digit run, NaN as `None`),
  the idiom `parseInt(x) || d`, and `String(n)` for integers. Both source
  files lean on these, so the round trip between them is proved here.
- `helpers.dfy` (`Helpers`): the helpers. A `Date` is an `Instant`: its
  local calendar day plus the milliseconds since local midnight; "now" is a
  parameter. `GeneratePagination` is a method that fills the window of page
  numbers with a loop, proved against the function `PageWindow`.
- `task_controller.dfy` (`TaskController`): the handlers' pure parts.
  `BuildFilter` follows the source's conditional key assignments; the task
  that `toggleComplete` mutates is the class `TaskRecord`.

How the two files meet: the controller passes its integer `page` to
`generatePagination`, which parses it again with `parseInt(x) || 1`.
`GetAllTasks` proves that this second parse gives the same page back
(`ParseIntOrOfIntToString`), and `PageUrlRoundTrip` proves that following a
`?page=` link lands on the page it names, except that `?page=0` (the
"previous" link of page 1) lands on page 1.

Behaviour of the code worth noting:

- A `priority` filter key is added only for a present, NON-EMPTY
  `filterPriority` (the code tests truthiness), not for every present one.
- `page` and `limit` are not guarded against negative values: `?page=-1`
  gives a negative skip (`NegativePageGivesNegativeSkip`), and a negative
  `limit` gives a page count of zero or less (`TotalPages`).
- `sortBy=__proto__` leaves the sort object empty (the inherited setter
  ignores the number assigned to it), so the store gets no sort (`SortFor`).
- The page links carry only `page`: they are `/tasks?page=<n>` and drop
  `limit`, `sortBy`, `sortOrder`, `filterCompleted` and `filterPriority`, so
  following one reaches a page of the unfiltered, default-sorted listing with
  limit 10 (`PageUrl`, `GetAllTasks`).
- `truncateText` with a negative length returns "..." for any non-empty
  string, because `substring` clamps the length to 0.

## Model

| member | source | states |
|---|---|---|
| `JsNumbers.TrimStart` | utils/helpers.js:97 | parseInt drops only white space and line terminators from the front, and what is left does not begin with one |
| `JsNumbers.TrimStartIsSuffix` | utils/helpers.js:97 | what trimming leaves is a suffix of the input |
| `JsNumbers.TrimStartOfSpace` | utils/helpers.js:97 | trimming white space followed by text gives the same result as trimming the text alone |
| `JsNumbers.DigitPrefix` | utils/helpers.js:97 | parseInt reads the longest prefix of digits in the radix: all digits, and the next character is not one |
| `JsNumbers.ParseInt` | utils/helpers.js:97 | parseInt gives a negative number only when the trimmed text starts with a minus sign |
| `JsNumbers.ParseMagnitude` | utils/helpers.js:97 | the unsigned part of parseInt: a number is read only from text that begins with a decimal digit; text beginning with a digit and no 0x/0X prefix always gives a number; after a 0x/0X prefix a number exists exactly when a hexadecimal digit follows, otherwise NaN |
| `JsNumbers.ParseIntSkipsSpace` | utils/helpers.js:97 | leading white space does not change what parseInt returns |
| `JsNumbers.ParseIntOr` | controllers/taskController.js:8-9 | parseInt(x) with fallback d is the parsed integer when there is one and it is non-zero, otherwise d (absent, NaN and 0 all fall back); it is never 0 when d is not 0 |
| `JsNumbers.NatToString` | utils/helpers.js:118-119 | a natural number prints as decimal digits with no leading zero, one digit exactly when it is below 10 |
| `JsNumbers.IntToString` | utils/helpers.js:118-119 | an integer prints as a minus sign exactly when it is negative, followed by at least one decimal digit, every character after the first being a digit |
| `JsNumbers.DigitsValueOfNatToString` | utils/helpers.js:118-119 | the printed digits of n denote n |
| `JsNumbers.DigitPrefixOfDigits` | utils/helpers.js:97 | the digit run parseInt reads from digits followed by a non-digit is exactly those digits |
| `JsNumbers.ParseMagnitudeOfNatToString` | utils/helpers.js:97 | the printed digits of n are read as a decimal (not hexadecimal) number n, even when text follows them |
| `JsNumbers.ParseIntOfIntToString` | utils/helpers.js:97 | parseInt of String(n) is n, also when non-digit text other than an "x" follows |
| `JsNumbers.ParseIntOfNegative` | utils/helpers.js:97 | for negative n, the leading minus sign of String(n) is read as the sign and the digits as -n |
| `JsNumbers.ParseIntOfNonNegative` | utils/helpers.js:97 | for n >= 0, String(n) starts with a digit, so nothing is trimmed and the digits are read as n |
| `JsNumbers.ParseIntOrOfIntToString` | utils/helpers.js:97 | parseInt(String(n)) with fallback d is n for every non-zero n |
| `Helpers.AtMidnight` | utils/helpers.js:65-66 | setHours(0,0,0,0) keeps the calendar day and sets the time of day to zero |
| `Helpers.DayNumberOrder` | utils/helpers.js:68 | on real dates, comparing midnight time values is comparing days by year, then month, then day |
| `Helpers.IsPastDue` | utils/helpers.js:58-69 | false for an absent date; otherwise the due date's and today's time values at midnight compared with <, so a past-due date never falls on today (see IsPastDueIsDayBefore) |
| `Helpers.IsDueToday` | utils/helpers.js:76-87 | false for an absent date; otherwise day of the month, month and year of the due date equal today's, so it holds only on today's calendar day (see IsDueTodayIsSameDay) |
| `Helpers.IsPastDueIsDayBefore` | utils/helpers.js:58-69 | a due date is past due exactly when its calendar day is before today's, whatever the times of day |
| `Helpers.IsDueTodayIsSameDay` | utils/helpers.js:76-87 | a due date is due today exactly when its calendar day is today's |
| `Helpers.PastDueAndDueTodayExclusive` | utils/helpers.js:58-87 | no date, present or absent, is both past due and due today; an absent one is neither |
| `Helpers.DueDateTrichotomy` | utils/helpers.js:58-87 | every real due date is exactly one of past due, due today, or due on a later day |
| `Helpers.FormatDate` | utils/helpers.js:11-22 | an absent date formats as the empty string; a present one as the locale formatter renders it |
| `Helpers.TruncateText` | utils/helpers.js:30-33 | an empty text or one of at most `length` characters is returned as is; a longer one becomes its first max(length,0) characters followed by "...", so its length is max(length,0)+3 |
| `Helpers.TruncateTextIdempotent` | utils/helpers.js:30-33 | truncating an already truncated text changes nothing |
| `Helpers.TruncateTextBound` | utils/helpers.js:30-33 | for a length of at least 0 the result has at most length+3 characters |
| `Helpers.PriorityClass` | utils/helpers.js:40-51 | high gives danger, medium warning, low info, and every other string, and an absent priority, secondary |
| `Helpers.PriorityClassDistinguishesPriorities` | utils/helpers.js:40-51 | the mapping is total onto four classes, secondary exactly for unknown or absent priorities, and the three known priorities get different classes |
| `Helpers.PageRange` | utils/helpers.js:113-115 | counting up from lo to hi gives hi-lo+1 numbers, the k-th being lo+k, and nothing when lo > hi |
| `Helpers.PageWindow` | utils/helpers.js:110-115 | the window is the contiguous ascending run from max(1,cur-2) to min(total,cur+2), empty exactly when start > end and whenever total <= 0, at most 5 pages, all in [1,total] and in [cur-2,cur+2] |
| `Helpers.CurrentPageInWindow` | utils/helpers.js:110-115 | the current page is in its window exactly when it lies between 1 and totalPages |
| `Helpers.PageWindowComplete` | utils/helpers.js:110-115 | every page in [1,total] within two of the current page is in the window |
| `Helpers.PageUrl` | utils/helpers.js:118-119 | a page link is the base URL, then "?page=", then String(n) |
| `Helpers.PageUrlRoundTrip` | utils/helpers.js:97-119 | reading the page parameter of a link to page n with parseInt(x) with fallback 1 gives n, or 1 for the link to page 0 |
| `Helpers.GeneratePagination` | utils/helpers.js:96-122 | the current page is parseInt(currentPage) with fallback 1 and never 0; hasNext iff current < totalPages, hasPrev iff current > 1; next and previous are current plus and minus one; the loop fills the pages of PageWindow; the links point at the next and previous pages |
| `TaskController.StringOr` | controllers/taskController.js:10-11 | a string parameter falls back to its default exactly when absent or empty |
| `TaskController.FilterForUnique` | controllers/taskController.js:16-19 | the filter description leaves exactly one filter |
| `TaskController.BuildFilter` | controllers/taskController.js:15-19 | completed is true exactly for "true", false exactly for "false", otherwise absent; priority is present exactly for a present non-empty value and is that value; no other keys |
| `TaskController.SortFor` | controllers/taskController.js:25-26 | the sort has the one key sortBy, with direction 1 exactly for "asc" and -1 for anything else; for sortBy "__proto__" it is the empty sort object |
| `TaskController.Skip` | controllers/taskController.js:22 | for page and limit of at least 1, skip is a non-negative multiple of limit and skip/limit+1 is the page; page 1 skips nothing |
| `TaskController.NegativePageGivesNegativeSkip` | controllers/taskController.js:8-22 | the query value "-1" passes the page default and gives a negative skip |
| `TaskController.TotalPages` | controllers/taskController.js:36 | Math.ceil(total/limit): for a positive limit (r-1)*limit < total <= r*limit; for a negative limit r*limit <= total < (r-1)*limit; no tasks gives 0 pages |
| `TaskController.TotalPagesCoversTasks` | controllers/taskController.js:36 | for limit >= 1 the pages hold every task, the last page is not empty, and there are no pages exactly when there are no tasks |
| `TaskController.SecondPageOfTwentyFiveTasks` | controllers/taskController.js:8-39 | 25 tasks with page "2" and limit "10": skip 10, 3 pages, window [1,2,3] |
| `TaskController.GetAllTasks` | controllers/taskController.js:4-58 | page defaults to 1 and limit to 10, sortBy to createdAt and sortOrder to desc; the store request carries BuildFilter's filter, SortFor's sort, skip (page-1)*limit and the limit; the pagination's current page equals the controller's page, its totalPages is ceil(count/limit), hasNext and hasPrev say whether a later or an earlier page exists, next and previous are the current page plus and minus one, and its links point to /tasks; the raw filters are echoed |
| `TaskController.NormalizeDueDate` | controllers/taskController.js:76 | an absent or empty due date becomes null; any other value is passed through unchanged |
| `TaskController.NormalizeDueDateIdempotent` | controllers/taskController.js:76 | normalising a normalised due date changes nothing |
| `TaskController.IsChecked` | controllers/taskController.js:123 | the checkbox is checked exactly when the field is the string "on" |
| `TaskController.CreateTask` | controllers/taskController.js:69-83 | title, description and priority as sent, due date normalised, completed left unset, redirect to /tasks |
| `TaskController.UpdateTask` | controllers/taskController.js:120-137 | the same fields, completed true exactly for "on", redirect to /tasks/<id> |
| `TaskController.CreateAndUpdateAgree` | controllers/taskController.js:69-137 | create and update store the same fields for the same body, except completed |
| `TaskController.TaskRecord.Toggle` | controllers/taskController.js:157 | completed becomes its negation and no other field may change |
| `TaskController.RedirectTarget` | controllers/taskController.js:161 | the value of req.get('Referer') (the Referrer header, else the Referer header) when present and non-empty, otherwise /tasks |
| `TaskController.ToggleComplete` | controllers/taskController.js:150-166 | a missing task gives the not-found response for the request URL; otherwise completed is flipped, the other fields are unchanged, and the response redirects to RedirectTarget |
| `TaskController.ToggleTwiceRestores` | controllers/taskController.js:157 | toggling the same task twice in sequence restores every field |

## Left out

- The document store: `find`/`sort`/`skip`/`limit`, `countDocuments`, `findById`, `findByIdAndUpdate`, `findByIdAndDelete` and `save` belong to the storage library. The number of matching tasks is a parameter of `GetAllTasks`; the tasks returned and the page size are not modelled. `deleteTask`, `getTask`, `renderEditForm` and `renderCreateForm` consist only of store calls and rendering and are not modelled.
- The task schema (models/Task.js is not part of this model): its default `completed = false` on create and its casting of the due-date string to a Date. `CreateTask` therefore leaves `completed` unset.
- `async`/`await`, `next(error)` propagation, `res.render`, `res.redirect` and `res.status`: HTTP and rendering plumbing. Responses are the values `Redirect` and `NotFound`.
- The read-modify-write race between two concurrent toggles: toggling is one sequential step here.
- `FormatDate`: the locale formatting of `toLocaleDateString` and its options are a foreign library, passed in as the function `format`.
- The clock, time zones and daylight saving: "now" is a parameter, and `DayNumber`/`TimeValue` are order-preserving stand-ins for the Date's time value, not the real count of milliseconds since the epoch. Invalid Date values (from unparseable strings) are not modelled; the due-date lemmas assume real dates. Each of `isPastDue` and `isDueToday` calls `new Date()` itself, while the model gives both one shared `now`; so `PastDueAndDueTodayExclusive` holds for a single "today", and two calls made either side of midnight could both be true.
- `ParseInt`: JavaScript numbers are floating point; the model's integers are unbounded, so precision loss above 2^53 and the exponent notation `String` uses from 1e21 on are not modelled. Query parameters given twice (arrays) are not modelled.
- `TruncateText`: an absent (`undefined`/`null`) string is not modelled, only strings; the default argument `length = 100` is not modelled as a default, so callers pass the length. Lengths count Dafny characters, where JavaScript counts UTF-16 code units.
- public/js/main.js (browser event handlers and due-date highlighting), middleware/index.js (logging, view locals, error responders) and app.js (bootstrap and routing): I/O and framework wiring.
