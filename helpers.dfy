/** The display helpers of utils/helpers.js: date formatting for absent
    dates, text truncation, the priority-to-style mapping, the two due-date
    predicates and the pagination descriptor. */
module Helpers {
  import opened Wrappers
  import opened JsNumbers

  function Max(a: int, b: int): int { if a >= b then a else b }
  function Min(a: int, b: int): int { if a <= b then a else b }

  // ---------------------------------------------------------------------
  // Dates

  /** A calendar day in local time, as `getFullYear()`, `getMonth()` (taken
      here as 1..12) and `getDate()` report it. */
  datatype Day = Day(year: int, month: int, day: int)

  /** A JavaScript `Date`: its local calendar day and the milliseconds
      elapsed since that day's local midnight. */
  datatype Instant = Instant(date: Day, millis: int)

  const MillisPerDay: int := 86_400_000

  predicate ValidDay(d: Day) {
    1 <= d.month <= 12 && 1 <= d.day <= 31
  }

  predicate ValidInstant(t: Instant) {
    ValidDay(t.date) && 0 <= t.millis < MillisPerDay
  }

  /** A number that orders days as their time values do: later days get
      larger numbers. It stands in for the count of days since the epoch. */
  function DayNumber(d: Day): int {
    (d.year * 12 + (d.month - 1)) * 31 + (d.day - 1)
  }

  /** Stand-in for `Date#valueOf`, the number that `<` compares on two dates. */
  function TimeValue(t: Instant): int {
    DayNumber(t.date) * MillisPerDay + t.millis
  }

  /** `setHours(0, 0, 0, 0)`: the same day at local midnight. */
  function AtMidnight(t: Instant): (m: Instant)
    ensures m.date == t.date && m.millis == 0
  {
    t.(millis := 0)
  }

  /** Calendar order of days: by year, then month, then day of the month. */
  predicate DayBefore(a: Day, b: Day) {
    a.year < b.year ||
    (a.year == b.year && (a.month < b.month || (a.month == b.month && a.day < b.day)))
  }

  /** `isPastDue(date)`: false for an absent date; otherwise both the due
      date and `now` are moved to midnight and their time values compared. */
  function IsPastDue(due: Option<Instant>, now: Instant): (r: bool)
    ensures due.None? ==> !r
    ensures r ==> due.Some? && due.value.date != now.date
  {
    match due
    case None => false
    case Some(d) => TimeValue(AtMidnight(d)) < TimeValue(AtMidnight(now))
  }

  /** `isDueToday(date)`: false for an absent date; otherwise day of the
      month, month and year of the due date all equal those of `now`. */
  function IsDueToday(due: Option<Instant>, now: Instant): (r: bool)
    ensures due.None? ==> !r
    ensures r ==> due.Some? && due.value.date == now.date
  {
    match due
    case None => false
    case Some(d) =>
      d.date.day == now.date.day && d.date.month == now.date.month && d.date.year == now.date.year
  }

  /** For real dates, resetting the time of day makes `isPastDue` the strict
      calendar order on days, whatever the two times of day were. */
  lemma IsPastDueIsDayBefore(d: Instant, now: Instant)
    requires ValidInstant(d) && ValidInstant(now)
    ensures IsPastDue(Some(d), now) <==> DayBefore(d.date, now.date)
  {
    DayNumberOrder(d.date, now.date);
  }

  lemma DayNumberOrder(a: Day, b: Day)
    requires ValidDay(a) && ValidDay(b)
    ensures DayNumber(a) < DayNumber(b) <==> DayBefore(a, b)
  {
  }

  /** `isDueToday` holds exactly when the two calendar days coincide. */
  lemma IsDueTodayIsSameDay(d: Instant, now: Instant)
    ensures IsDueToday(Some(d), now) <==> d.date == now.date
  {
  }

  /** A due date is never both past due and due today, and an absent one is neither. */
  lemma PastDueAndDueTodayExclusive(due: Option<Instant>, now: Instant)
    ensures !(IsPastDue(due, now) && IsDueToday(due, now))
    ensures due.None? ==> !IsPastDue(due, now) && !IsDueToday(due, now)
  {
  }

  /** Every real due date is exactly one of: past due, due today, or due on
      a later day. */
  lemma DueDateTrichotomy(d: Instant, now: Instant)
    requires ValidInstant(d) && ValidInstant(now)
    ensures IsPastDue(Some(d), now) || IsDueToday(Some(d), now) || DayBefore(now.date, d.date)
    ensures !(IsPastDue(Some(d), now) && DayBefore(now.date, d.date))
    ensures !(IsDueToday(Some(d), now) && DayBefore(now.date, d.date))
  {
    IsPastDueIsDayBefore(d, now);
  }

  /** `formatDate(date, options)`: the empty string for an absent date;
      otherwise whatever the locale formatter `format` (standing for
      `toLocaleDateString('en-US', ...)` with the merged options) yields. */
  function FormatDate(date: Option<Instant>, format: Instant -> string): (r: string)
    ensures date.None? ==> r == ""
    ensures date.Some? ==> r == format(date.value)
  {
    match date
    case None => ""
    case Some(d) => format(d)
  }

  // ---------------------------------------------------------------------
  // Text

  /** `truncateText(str, length)`: an empty string, or one of at most
      `length` characters, comes back as it is; a longer one is cut to its
      first `length` characters (none when `length` is negative, as
      `substring` clamps) and "..." is appended. */
  function TruncateText(s: string, length: int): (r: string)
    ensures s == [] || |s| <= length ==> r == s
    ensures s != [] && |s| > length ==>
      |r| == Max(length, 0) + 3 && r[..Max(length, 0)] == s[..Max(length, 0)] && r[Max(length, 0)..] == "..."
  {
    if s == [] || |s| <= length then s else s[..Max(length, 0)] + "..."
  }

  /** Truncating an already truncated text changes nothing more. */
  lemma TruncateTextIdempotent(s: string, length: int)
    ensures TruncateText(TruncateText(s, length), length) == TruncateText(s, length)
  {
    var r := TruncateText(s, length);
    if r != s {
      var n := Max(length, 0);
      assert r[..n] + "..." == r;
    }
  }

  /** A text is never longer than `length` + 3 after truncation. */
  lemma TruncateTextBound(s: string, length: int)
    requires length >= 0
    ensures |TruncateText(s, length)| <= length + 3
  {
  }

  // ---------------------------------------------------------------------
  // Priority

  const KnownPriorities: set<string> := {"high", "medium", "low"}

  /** `getPriorityClass(priority)`: the Bootstrap colour class of a priority;
      an absent priority (`undefined`) falls to the default like any other value. */
  function PriorityClass(priority: Option<string>): (c: string)
    ensures priority == Some("high") ==> c == "danger"
    ensures priority == Some("medium") ==> c == "warning"
    ensures priority == Some("low") ==> c == "info"
    ensures priority.None? || priority.value !in KnownPriorities ==> c == "secondary"
  {
    match priority
    case Some("high") => "danger"
    case Some("medium") => "warning"
    case Some("low") => "info"
    case _ => "secondary"
  }

  /** The three known priorities get three different classes, none of them
      the fallback, and every other value, absent included, gets the fallback. */
  lemma PriorityClassDistinguishesPriorities(p: Option<string>, q: Option<string>)
    ensures PriorityClass(p) in {"danger", "warning", "info", "secondary"}
    ensures PriorityClass(p) == "secondary" <==> p.None? || p.value !in KnownPriorities
    ensures p.Some? && p.value in KnownPriorities && PriorityClass(p) == PriorityClass(q) ==> p == q
  {
  }

  // ---------------------------------------------------------------------
  // Pagination

  /** The pagination descriptor handed to the list view. */
  datatype Pagination = Pagination(
    currentPage: int,
    totalPages: int,
    hasNext: bool,
    hasPrev: bool,
    nextPage: int,
    prevPage: int,
    pages: seq<int>,
    nextUrl: string,
    prevUrl: string)

  /** The ascending run of integers from `lo` to `hi`, in the order a loop
      counting up from `lo` appends them; empty when `lo > hi`. */
  function PageRange(lo: int, hi: int): (r: seq<int>)
    decreases hi - lo + 1
    ensures |r| == if lo <= hi then hi - lo + 1 else 0
    ensures forall k :: 0 <= k < |r| ==> r[k] == lo + k
  {
    if hi < lo then [] else PageRange(lo, hi - 1) + [hi]
  }

  /** The page numbers shown around `current`: from `max(1, current - 2)`
      to `min(totalPages, current + 2)`. */
  function PageWindow(current: int, totalPages: int): (pages: seq<int>)
    ensures |pages| <= 5
    ensures |pages| == if Max(1, current - 2) <= Min(totalPages, current + 2)
                       then Min(totalPages, current + 2) - Max(1, current - 2) + 1 else 0
    ensures forall k :: 0 <= k < |pages| ==> pages[k] == Max(1, current - 2) + k
    ensures forall k :: 0 <= k < |pages| ==>
      1 <= pages[k] <= totalPages && current - 2 <= pages[k] <= current + 2
    ensures Max(1, current - 2) > Min(totalPages, current + 2) <==> pages == []
    ensures totalPages <= 0 ==> pages == []
  {
    PageRange(Max(1, current - 2), Min(totalPages, current + 2))
  }

  /** The current page is listed in its own window exactly when it is one of the pages. */
  lemma CurrentPageInWindow(current: int, totalPages: int)
    ensures current in PageWindow(current, totalPages) <==> 1 <= current <= totalPages
  {
    var pages := PageWindow(current, totalPages);
    if 1 <= current <= totalPages {
      assert pages[current - Max(1, current - 2)] == current;
    }
  }

  /** Every page from 1 to totalPages that lies within two of `current`
      is in the window, so the window has no gaps. */
  lemma PageWindowComplete(current: int, totalPages: int, n: int)
    requires 1 <= n <= totalPages && current - 2 <= n <= current + 2
    ensures n in PageWindow(current, totalPages)
  {
    var pages := PageWindow(current, totalPages);
    assert pages[n - Max(1, current - 2)] == n;
  }

  /** `?page=` link text: `${baseUrl}?page=${n}`. */
  function PageUrl(baseUrl: string, n: int): (url: string)
    ensures |url| == |baseUrl| + 6 + |IntToString(n)|
    ensures url[..|baseUrl|] == baseUrl && url[|baseUrl|..|baseUrl| + 6] == "?page="
    ensures url[|baseUrl| + 6..] == IntToString(n)
  {
    baseUrl + "?page=" + IntToString(n)
  }

  /** Following a page link and reading its `page` parameter with
      `parseInt(x) || 1` lands on that page, except that the link to page 0
      (the "previous" link of page 1) lands on page 1. */
  lemma {:induction false} PageUrlRoundTrip(baseUrl: string, n: int)
    ensures ParseIntOr(Some(PageUrl(baseUrl, n)[|baseUrl| + 6..]), 1) == if n != 0 then n else 1
  {
    ParseIntOfIntToString(n, []);
    assert IntToString(n) + [] == IntToString(n);
  }

  /** `generatePagination(currentPage, totalPages, baseUrl)`. `currentPage`
      is the text `parseInt` sees (`String(currentPage)`); it is read with
      `parseInt(x) || 1`, and the window of pages is filled by a loop. */
  method GeneratePagination(currentPage: string, totalPages: int, baseUrl: string) returns (p: Pagination)
    ensures p.currentPage == ParseIntOr(Some(currentPage), 1) && p.currentPage != 0
    ensures p.totalPages == totalPages
    ensures p.hasNext <==> p.currentPage < totalPages
    ensures p.hasPrev <==> p.currentPage > 1
    ensures p.nextPage == p.currentPage + 1 && p.prevPage == p.currentPage - 1
    ensures p.pages == PageWindow(p.currentPage, totalPages)
    ensures p.nextUrl == PageUrl(baseUrl, p.nextPage) && p.prevUrl == PageUrl(baseUrl, p.prevPage)
  {
    var current := ParseIntOr(Some(currentPage), 1);
    var startPage := Max(1, current - 2);
    var endPage := Min(totalPages, current + 2);
    var pages: seq<int> := [];
    var i := startPage;
    while i <= endPage
      invariant startPage <= i <= Max(startPage, endPage + 1)
      invariant pages == PageRange(startPage, i - 1)
    {
      pages := pages + [i];
      i := i + 1;
    }
    assert pages == PageRange(startPage, endPage) by {
      if startPage > endPage {
        assert pages == [] == PageRange(startPage, endPage);
      }
    }
    p := Pagination(current, totalPages, current < totalPages, current > 1,
                    current + 1, current - 1, pages,
                    PageUrl(baseUrl, current + 1), PageUrl(baseUrl, current - 1));
  }
}
