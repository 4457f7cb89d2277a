/** The admin submissions list: the filter parameters built from the page's
    drop-downs, the rows fetched with them, and the client-side search that
    narrows those rows by employee name, employee ID or department. */
module Submissions {
  import opened Util
  import opened Types
  import opened Api

  /** `field?.toLowerCase().includes(query)`: an absent field never
      matches. */
  predicate FieldHit(f: Field, lowercaseQuery: string)
  {
    f.Present? && Includes(ToLower(f.text), lowercaseQuery)
  }

  /** A row is a hit when its employee name, employee ID or department
      contains the query, ignoring ASCII letter case. */
  predicate SearchHit(row: Submission, query: string)
  {
    LowercaseHit(row, ToLower(query))
  }

  predicate LowercaseHit(row: Submission, q: string)
  {
    FieldHit(row.employeeName, q) || FieldHit(row.employeeId, q) || FieldHit(row.department, q)
  }

  /** The row test `data.filter` is given, for an already lower-cased query. */
  function KeepHits(lowercaseQuery: string): Submission -> bool
  {
    row => LowercaseHit(row, lowercaseQuery)
  }

  /** `applySearchFilter`: an empty query keeps every row; otherwise the
      hits, in their original order. */
  function ApplySearchFilter(data: seq<Submission>, query: string): (r: seq<Submission>)
    ensures query == "" ==> r == data
    ensures forall row :: row in r <==> row in data && (query == "" || SearchHit(row, query))
    ensures IsSubsequence(r, data)
    ensures forall row :: Count(r, row) == if query == "" || SearchHit(row, query) then Count(data, row) else 0
  {
    if query == "" then
      assert IsSubsequence(data, data) by {
        var idx: seq<nat> := seq(|data|, i requires 0 <= i < |data| => i);
        assert forall i :: 0 <= i < |idx| ==> idx[i] < |data| && data[idx[i]] == data[i];
      }
      data
    else
      FilterCount(data, KeepHits(ToLower(query)));
      Filter(data, KeepHits(ToLower(query)))
  }

  /** Queries that differ only in ASCII letter case find the same rows. */
  lemma SearchIgnoresCase(data: seq<Submission>, q1: string, q2: string)
    requires ToLower(q1) == ToLower(q2)
    ensures ApplySearchFilter(data, q1) == ApplySearchFilter(data, q2)
  {
    assert |q1| == |ToLower(q1)| == |q2|;
  }

  /** The page state the search touches: every fetched row, the rows shown,
      the search text and the load error. */
  datatype PageState = PageState(
    allSubmissions: seq<Submission>,
    submissions: seq<Submission>,
    searchQuery: string,
    error: string)

  /** The rows shown are the search applied to every fetched row. */
  predicate ShowsSearch(s: PageState)
  {
    s.submissions == ApplySearchFilter(s.allSubmissions, s.searchQuery)
  }

  /** `handleSearchChange`: the new text is stored and the search is rerun
      on every fetched row, not on the rows currently shown. */
  function HandleSearchChange(s: PageState, value: string): (r: PageState)
    ensures ShowsSearch(r)
    ensures r.searchQuery == value
    ensures r.allSubmissions == s.allSubmissions && r.error == s.error
  {
    s.(searchQuery := value, submissions := ApplySearchFilter(s.allSubmissions, value))
  }

  /** Successive searches do not compound: the last one alone decides what
      is shown, even when an earlier one hid rows the last one finds. */
  lemma SearchesDoNotCompound(s: PageState, first: string, second: string)
    ensures HandleSearchChange(HandleSearchChange(s, first), second) == HandleSearchChange(s, second)
  {
  }

  /** Clearing the search shows every fetched row again. */
  lemma ClearingShowsAll(s: PageState, query: string)
    ensures HandleSearchChange(HandleSearchChange(s, query), "").submissions == s.allSubmissions
  {
  }

  /** The drop-downs' values: department, status and date range, where
      "all" means no constraint. The dates the range names (today, a week
      ago and a month ago as day strings) are inputs. */
  datatype Selection = Selection(department: string, status: string, dateRange: string)

  datatype Dates = Dates(today: string, weekAgo: string, monthAgo: string)

  /** The filter object the page builds: department and status are sent
      unless "all"; "today", "week" and "month" set both date bounds, and
      any other range sets none. */
  function BuildFilters(sel: Selection, dates: Dates): (p: FilterParams)
    ensures p.department.Absent? <==> sel.department == "all"
    ensures p.department.Present? ==> p.department.text == sel.department
    ensures p.status.Absent? <==> sel.status == "all"
    ensures p.status.Present? ==> p.status.text == sel.status
    ensures p.startDate.Present? <==> sel.dateRange in {"today", "week", "month"}
    ensures p.endDate == (if p.startDate.Present? then Present(dates.today) else Absent)
  {
    var department := if sel.department != "all" then Present(sel.department) else Absent;
    var status := if sel.status != "all" then Present(sel.status) else Absent;
    var start :=
      if sel.dateRange == "today" then Present(dates.today)
      else if sel.dateRange == "week" then Present(dates.weekAgo)
      else if sel.dateRange == "month" then Present(dates.monthAgo)
      else Absent;
    FilterParams(department, status, start, if start.Present? then Present(dates.today) else Absent)
  }

  const LOAD_FAILED: string := "Failed to load submissions. Please try again later."

  /** `loadSubmissions`: on success the fetched rows replace every row and
      the current search is applied to them; on failure an error is shown
      and the rows stay as they were. */
  function LoadSubmissions(s: PageState, sel: Selection, dates: Dates, reply: Reply<seq<Submission>>): (r: PageState)
    ensures r.searchQuery == s.searchQuery
    ensures reply.Error? ==> r == s.(error := LOAD_FAILED)
    ensures reply.Data? ==> r.error == "" && ShowsSearch(r)
    ensures reply.Data? ==> forall row :: row in r.allSubmissions <==>
      row in reply.data && Matches(BuildFilters(sel, dates), row)
  {
    match GetFilteredSubmissions(BuildFilters(sel, dates), reply)
    case Failure(_) => s.(error := LOAD_FAILED)
    case Success(data) => s.(error := "", allSubmissions := data, submissions := ApplySearchFilter(data, s.searchQuery))
  }

  /** Every row shown after a load was fetched, meets the drop-down filters
      and is a hit for the current search. */
  lemma ShownRowsMatch(s: PageState, sel: Selection, dates: Dates, reply: Reply<seq<Submission>>, row: Submission)
    requires reply.Data?
    requires row in LoadSubmissions(s, sel, dates, reply).submissions
    ensures row in reply.data
    ensures Matches(BuildFilters(sel, dates), row)
    ensures s.searchQuery == "" || SearchHit(row, s.searchQuery)
  {
  }

  /** With every drop-down on "all", a load lists every row. */
  lemma AllSelectionsKeepAll(s: PageState, dates: Dates, rows: seq<Submission>)
    ensures LoadSubmissions(s, Selection("all", "all", "all"), dates, Data(rows)).allSubmissions == rows
  {
    NoParamsKeepsAll(rows);
  }
}
