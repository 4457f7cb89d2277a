/** The row-level computations of the data-access layer. The hosted table is
    an in-memory sequence of records, and each query's answer (rows, a count
    or an error) is a parameter. What the layer computes before sending or
    after receiving rows is modelled: the insert payload, the filter the
    query builder encodes, the dashboard arithmetic, and the group-by counts
    for departments, questions and days. */
module Api {
  import opened Util
  import opened Types
  import opened GroupBy

  /** The answer to one query: its data, or an error with a message. */
  datatype Reply<+T> = Data(data: T) | Error(message: string)

  // ---------------------------------------------------------------------------
  // submitChecklist

  const NO_SIGNATURE: string := "No signature provided"

  /** The normalised insert payload: status and completion are forced, an
      empty signature is replaced, empty comments become null, and only the
      listed columns are sent. */
  function FormatSubmission(d: Submission): (p: Submission)
    ensures p.status == Present(StatusText(Complete))
    ensures p.completionPercentage == Some(100.0)
    ensures Filled(p.signature)
    ensures Filled(d.signature) ==> p.signature == d.signature
    ensures !Filled(d.signature) ==> p.signature == Present(NO_SIGNATURE)
    ensures p.comments.Present? <==> Filled(d.comments)
    ensures p.comments.Present? ==> p.comments == d.comments
    ensures p.id == Absent && p.responses == None && p.createdAt == Absent && p.updatedAt == Absent
    ensures forall k | k != Signature :: FieldOf(p, k) == FieldOf(d, k)
    ensures p.submissionDate == d.submissionDate && p.q6 == d.q6
  {
    Submission(
      id := Absent,
      employeeName := d.employeeName,
      employeeId := d.employeeId,
      department := d.department,
      startDate := d.startDate,
      submissionDate := d.submissionDate,
      signature := Present(TextOr(d.signature, NO_SIGNATURE)),
      signatureDate := d.signatureDate,
      status := Present(StatusText(Complete)),
      completionPercentage := Some(100.0),
      comments := if Filled(d.comments) then d.comments else Absent,
      responses := None,
      q1 := d.q1, q2 := d.q2, q3 := d.q3, q4 := d.q4, q5 := d.q5,
      q6 := d.q6,
      q7 := d.q7, q8 := d.q8, q9 := d.q9, q10 := d.q10, q11 := d.q11, q12 := d.q12,
      createdAt := Absent,
      updatedAt := Absent)
  }

  /** Normalising a conforming record gives a conforming record, and
      normalising twice changes nothing more. */
  lemma FormatKeepsConformance(d: Submission)
    ensures Conforms(d) ==> Conforms(FormatSubmission(d))
    ensures FormatSubmission(FormatSubmission(d)) == FormatSubmission(d)
  {
    StatusRoundTrip(Complete);
  }

  /** `submitChecklist`: the store's answer to the insert is a parameter.
      The payload always carries a signature, so the only failure is the
      store's own error. */
  function SubmitChecklist(d: Submission, reply: Reply<seq<Submission>>): (r: Result<seq<Submission>, string>)
    ensures r.Failure? <==> reply.Error?
    ensures r.Failure? ==> r.error == reply.message
    ensures r.Success? ==> r.value == reply.data
  {
    var payload := FormatSubmission(d);
    if !Filled(payload.signature) then Failure("Signature is required")
    else
      match reply
      case Error(message) => Failure(message)
      case Data(rows) => Success(rows)
  }

  // ---------------------------------------------------------------------------
  // getFilteredSubmissions

  datatype FilterParams = FilterParams(department: Field, status: Field, startDate: Field, endDate: Field)

  /** A department or status parameter constrains the rows unless it is
      absent, empty or "all". */
  predicate Constrains(f: Field)
  {
    Filled(f) && f.text != "all"
  }

  /** The condition the query builder encodes; the date bounds are inclusive
      and a row without a submission date fails any bound. */
  predicate Matches(p: FilterParams, row: Submission)
  {
    && (Constrains(p.department) ==> row.department == p.department)
    && (Constrains(p.status) ==> row.status == p.status)
    && (Filled(p.startDate) ==>
          row.submissionDate.Present? && LexLe(p.startDate.text, row.submissionDate.text))
    && (Filled(p.endDate) ==>
          row.submissionDate.Present? && LexLe(row.submissionDate.text, p.endDate.text))
  }

  /** `getFilteredSubmissions` over the rows of the table, in their order. */
  function GetFilteredSubmissions(p: FilterParams, reply: Reply<seq<Submission>>): (r: Result<seq<Submission>, string>)
    ensures r.Failure? <==> reply.Error?
    ensures r.Failure? ==> r.error == reply.message
    ensures r.Success? ==> forall row :: row in r.value <==> row in reply.data && Matches(p, row)
    ensures r.Success? ==> IsSubsequence(r.value, reply.data)
    ensures r.Success? ==> forall row :: Count(r.value, row) == if Matches(p, row) then Count(reply.data, row) else 0
  {
    match reply
    case Error(message) => Failure(message)
    case Data(rows) =>
      FilterCount(rows, row => Matches(p, row));
      Success(Filter(rows, row => Matches(p, row)))
  }

  /** "all", "" and an absent parameter all leave department and status
      unconstrained. */
  lemma AllMeansAnything(p: FilterParams, row: Submission, f: Field)
    requires f in {Absent, Present(""), Present("all")}
    ensures Matches(p.(department := f), row) <==> Matches(p.(department := Absent), row)
    ensures Matches(p.(status := f), row) <==> Matches(p.(status := Absent), row)
  {
  }

  /** With no parameters every row is listed. */
  lemma NoParamsKeepsAll(rows: seq<Submission>)
    ensures GetFilteredSubmissions(FilterParams(Absent, Absent, Absent, Absent), Data(rows)) == Success(rows)
  {
  }

  /** Both date bounds are inclusive: a row dated exactly on the bounds is
      listed. */
  lemma BoundsInclusive(row: Submission, date: string)
    requires row.submissionDate == Present(date) && date != ""
    ensures Matches(FilterParams(Absent, Absent, Present(date), Present(date)), row)
  {
    LexLeReflexive(date);
  }

  // ---------------------------------------------------------------------------
  // getDashboardStats

  /** `getDashboardStats`. The four queries answer, in order, the total
      count, the count of complete rows, the count of pending rows and the
      elapsed whole days of each complete row; a count may be null. The
      first failing query's message is reported. */
  function GetDashboardStats(total: Reply<Option<nat>>, complete: Reply<Option<nat>>,
                             pending: Reply<Option<nat>>, days: Reply<seq<nat>>): (r: Result<DashboardStats, string>)
    ensures r.Failure? <==> total.Error? || complete.Error? || pending.Error? || days.Error?
    ensures total.Error? ==> r == Failure(total.message)
    ensures total.Data? && complete.Error? ==> r == Failure(complete.message)
    ensures total.Data? && complete.Data? && pending.Error? ==> r == Failure(pending.message)
    ensures total.Data? && complete.Data? && pending.Data? && days.Error? ==> r == Failure(days.message)
    ensures r.Success? ==> r.value.totalSubmissions == total.data.GetOr(0)
    ensures r.Success? ==> r.value.pendingSubmissions == pending.data.GetOr(0)
    ensures r.Success? && total.data.GetOr(0) == 0 ==> r.value.completionRate == 0.0
    ensures r.Success? && total.data.GetOr(0) > 0 ==>
      r.value.completionRate * total.data.GetOr(0) as real == complete.data.GetOr(0) as real * 100.0
    ensures r.Success? && |days.data| == 0 ==> r.value.avgCompletionTime == 0.0
    ensures r.Success? ==> r.value.avgCompletionTime * |days.data| as real == Sum(days.data) as real
  {
    if total.Error? then Failure(total.message)
    else if complete.Error? then Failure(complete.message)
    else if pending.Error? then Failure(pending.message)
    else if days.Error? then Failure(days.message)
    else
      var n := total.data.GetOr(0);
      var rate := if n > 0 then complete.data.GetOr(0) as real / n as real * 100.0 else 0.0;
      var avg := if |days.data| > 0 then Sum(days.data) as real / |days.data| as real else 0.0;
      Success(DashboardStats(n, rate, avg, pending.data.GetOr(0)))
  }

  /** The status column of each row. */
  function Statuses(rows: seq<Submission>): (st: seq<Field>)
    ensures |st| == |rows|
    ensures forall i | 0 <= i < |rows| :: st[i] == rows[i].status
  {
    seq(|rows|, i requires 0 <= i < |rows| => rows[i].status)
  }

  /** A share of a positive total, as a percentage, lies in [0, 100] and is
      100 exactly when the share is the whole. */
  lemma PercentBounds(part: nat, whole: nat)
    requires 0 < part <= whole || (part == 0 && whole > 0)
    ensures 0.0 <= part as real / whole as real * 100.0 <= 100.0
    ensures part as real / whole as real * 100.0 == 100.0 <==> part == whole
  {
    var q := part as real / whole as real;
    assert q * whole as real == part as real;
    if part < whole {
      assert q < 1.0;
    }
  }

  lemma AllStatuses(rows: seq<Submission>, v: Field)
    ensures (forall y | y in Statuses(rows) :: y == v) <==> (forall row | row in rows :: row.status == v)
  {
    var st := Statuses(rows);
    forall row | row in rows ensures row.status in st {
      var i :| 0 <= i < |rows| && rows[i] == row;
      assert st[i] == row.status;
    }
  }

  /** When the counts are taken from one table, the completion rate is a
      percentage, and it is 100 exactly when the table is non-empty and every
      row is complete. */
  lemma RateFromRows(rows: seq<Submission>, days: seq<nat>)
    ensures var complete := Count(Statuses(rows), Present("complete"));
      var pending := Count(Statuses(rows), Present("pending"));
      var r := GetDashboardStats(Data(Some(|rows|)), Data(Some(complete)), Data(Some(pending)), Data(days)).value;
      && 0.0 <= r.completionRate <= 100.0
      && (r.completionRate == 100.0 <==> |rows| > 0 && forall row | row in rows :: row.status == Present("complete"))
  {
    var st := Statuses(rows);
    var complete := Count(st, Present("complete"));
    CountAll(st, Present("complete"));
    AllStatuses(rows, Present("complete"));
    if |rows| > 0 {
      PercentBounds(complete, |rows|);
    }
  }

  // ---------------------------------------------------------------------------
  // getDepartmentBreakdown

  /** The property name a department value becomes; a null department is
      stored under "null". */
  function DeptKey(f: Field): string
  {
    match f
    case Present(t) => t
    case Absent => "null"
  }

  function DeptKeys(rows: seq<Submission>): (ks: seq<string>)
    ensures |ks| == |rows|
    ensures forall i | 0 <= i < |rows| :: ks[i] == DeptKey(rows[i].department)
  {
    seq(|rows|, i requires 0 <= i < |rows| => DeptKey(rows[i].department))
  }

  /** The entries of a department counter, in insertion order. */
  function Breakdowns(c: Counter): (r: seq<DepartmentBreakdown>)
    requires WellFormed(c)
    ensures |r| == |c.order|
    ensures forall i | 0 <= i < |r| :: r[i] == DepartmentBreakdown(c.order[i], CountsOf(c)[i])
  {
    seq(|c.order|, i requires 0 <= i < |c.order| => DepartmentBreakdown(c.order[i], c.counts[c.order[i]]))
  }

  /** `getDepartmentBreakdown`: one entry per distinct department, in order
      of first appearance, with the number of rows in it. */
  function GetDepartmentBreakdown(reply: Reply<seq<Submission>>): (r: Result<seq<DepartmentBreakdown>, string>)
    ensures r.Failure? <==> reply.Error?
    ensures r.Failure? ==> r.error == reply.message
    ensures r.Success? ==> |r.value| == |FirstOccurrences(DeptKeys(reply.data))|
    ensures r.Success? ==> forall i | 0 <= i < |r.value| ::
      && r.value[i].department == FirstOccurrences(DeptKeys(reply.data))[i]
      && r.value[i].count == Count(DeptKeys(reply.data), r.value[i].department)
  {
    match reply
    case Error(message) => Failure(message)
    case Data(rows) => Success(Breakdowns(CountKeys(DeptKeys(rows))))
  }

  /** No department is listed twice, and each listed one has a row. */
  lemma DepartmentsDistinct(rows: seq<Submission>)
    ensures var r := GetDepartmentBreakdown(Data(rows)).value;
      && (forall i, j | 0 <= i < j < |r| :: r[i].department != r[j].department)
      && (forall i | 0 <= i < |r| :: r[i].count >= 1)
  {
    var keys := DeptKeys(rows);
    var r := GetDepartmentBreakdown(Data(rows)).value;
    forall i | 0 <= i < |r| ensures r[i].count >= 1 {
      assert r[i].department in FirstOccurrences(keys);
    }
  }

  /** The department of every row is listed. */
  lemma DepartmentListed(rows: seq<Submission>, row: Submission)
    requires row in rows
    ensures var r := GetDepartmentBreakdown(Data(rows)).value;
      exists i :: 0 <= i < |r| && r[i].department == DeptKey(row.department)
  {
    var keys := DeptKeys(rows);
    var r := GetDepartmentBreakdown(Data(rows)).value;
    var j :| 0 <= j < |rows| && rows[j] == row;
    assert keys[j] in FirstOccurrences(keys);
    var i :| 0 <= i < |r| && FirstOccurrences(keys)[i] == keys[j];
    assert r[i].department == DeptKey(row.department);
  }

  /** The department counts add up to the number of rows. */
  lemma DepartmentCountsSum(rows: seq<Submission>)
    ensures Sum(CountColumn(GetDepartmentBreakdown(Data(rows)).value, (b: DepartmentBreakdown) => b.count)) == |rows|
  {
    var c := CountKeys(DeptKeys(rows));
    CountKeysTotal(DeptKeys(rows));
    assert CountColumn(Breakdowns(c), (b: DepartmentBreakdown) => b.count) == CountsOf(c);
  }

  // ---------------------------------------------------------------------------
  // getTrendData

  /** Rows on or after the start of the window, as the query selects them. */
  predicate InWindow(windowStart: string, row: Submission)
  {
    row.submissionDate.Present? && LexLe(windowStart, row.submissionDate.text)
  }

  /** `submission_date.split('T')[0]`. */
  function DayOf(row: Submission): string
    requires row.submissionDate.Present?
  {
    BeforeFirst(row.submissionDate.text, 'T')
  }

  function DayKeys(rows: seq<Submission>): (ks: seq<string>)
    requires forall row | row in rows :: row.submissionDate.Present?
    ensures |ks| == |rows|
    ensures forall i | 0 <= i < |rows| :: ks[i] == DayOf(rows[i])
  {
    seq(|rows|, i requires 0 <= i < |rows| => DayOf(rows[i]))
  }

  /** The rows the trend query selects. */
  function Window(windowStart: string, rows: seq<Submission>): (w: seq<Submission>)
    ensures forall row :: row in w <==> row in rows && InWindow(windowStart, row)
    ensures IsSubsequence(w, rows)
    ensures forall row :: Count(w, row) == if InWindow(windowStart, row) then Count(rows, row) else 0
  {
    FilterCount(rows, row => InWindow(windowStart, row));
    Filter(rows, row => InWindow(windowStart, row))
  }

  /** The entries of a day counter, in insertion order. */
  function Trends(c: Counter): (r: seq<TrendData>)
    requires WellFormed(c)
    ensures |r| == |c.order|
    ensures forall i | 0 <= i < |r| :: r[i] == TrendData(c.order[i], CountsOf(c)[i])
  {
    seq(|c.order|, i requires 0 <= i < |c.order| => TrendData(c.order[i], c.counts[c.order[i]]))
  }

  /** `getTrendData`: the window start is a parameter (its calendar
      arithmetic is not modelled) and is the day, `YYYY-MM-DD`, that the
      store compares the date column against after casting the query's
      timestamp to a date; rows in the window are counted per day, in
      order of first appearance. */
  function GetTrendData(windowStart: string, reply: Reply<seq<Submission>>): (r: Result<seq<TrendData>, string>)
    ensures r.Failure? <==> reply.Error?
    ensures r.Failure? ==> r.error == reply.message
    ensures r.Success? ==> |r.value| == |FirstOccurrences(DayKeys(Window(windowStart, reply.data)))|
    ensures r.Success? ==> forall i | 0 <= i < |r.value| ::
      && r.value[i].date == FirstOccurrences(DayKeys(Window(windowStart, reply.data)))[i]
      && r.value[i].count == Count(DayKeys(Window(windowStart, reply.data)), r.value[i].date)
  {
    match reply
    case Error(message) => Failure(message)
    case Data(rows) => Success(Trends(CountKeys(DayKeys(Window(windowStart, rows)))))
  }

  /** The days listed are distinct, carry no time part, and each has a row. */
  lemma TrendDaysDistinct(windowStart: string, rows: seq<Submission>)
    ensures var r := GetTrendData(windowStart, Data(rows)).value;
      && (forall i, j | 0 <= i < j < |r| :: r[i].date != r[j].date)
      && (forall i | 0 <= i < |r| :: 'T' !in r[i].date && r[i].count >= 1)
  {
    var keys := DayKeys(Window(windowStart, rows));
    var r := GetTrendData(windowStart, Data(rows)).value;
    forall i | 0 <= i < |r| ensures 'T' !in r[i].date && r[i].count >= 1 {
      assert r[i].date in keys;
    }
  }

  /** The day of every row in the window is listed. */
  lemma TrendDayListed(windowStart: string, rows: seq<Submission>, row: Submission)
    requires row in rows && InWindow(windowStart, row)
    ensures var r := GetTrendData(windowStart, Data(rows)).value;
      exists i :: 0 <= i < |r| && r[i].date == DayOf(row)
  {
    var w := Window(windowStart, rows);
    var keys := DayKeys(w);
    var r := GetTrendData(windowStart, Data(rows)).value;
    var j :| 0 <= j < |w| && w[j] == row;
    assert keys[j] in FirstOccurrences(keys);
    var i :| 0 <= i < |r| && FirstOccurrences(keys)[i] == keys[j];
    assert r[i].date == DayOf(row);
  }

  /** The day counts add up to the number of rows in the window. */
  lemma TrendCountsSum(windowStart: string, rows: seq<Submission>)
    ensures Sum(CountColumn(GetTrendData(windowStart, Data(rows)).value, (t: TrendData) => t.count)) == |Window(windowStart, rows)|
  {
    var keys := DayKeys(Window(windowStart, rows));
    var c := CountKeys(keys);
    CountKeysTotal(keys);
    assert CountColumn(Trends(c), (t: TrendData) => t.count) == CountsOf(c);
  }

  // ---------------------------------------------------------------------------
  // getQuestionAnalysis

  /** The answers to question `i`, one per row. */
  function Answers(rows: seq<Submission>, i: nat): (a: seq<Field>)
    requires IsSingleChoice(i)
    ensures |a| == |rows|
    ensures forall j | 0 <= j < |rows| :: a[j] == Answer(rows[j], i)
  {
    seq(|rows|, j requires 0 <= j < |rows| => Answer(rows[j], i))
  }

  /** The entry for question `i`: yes and no counts, and for question 10 the
      count of the opt-out answer. */
  function Analyze(rows: seq<Submission>, i: nat): QuestionAnalysis
    requires IsSingleChoice(i)
  {
    var a := Answers(rows, i);
    QuestionAnalysis(
      "Question " + NatText(i),
      Count(a, Present("Yes")),
      Count(a, Present("No")),
      if i == 10 then Some(Count(a, Present(OPT_OUT))) else None)
  }

  /** The counts of one entry never exceed the number of rows, and account
      for every row when all rows conform to the typed record. */
  lemma AnalysisTotals(rows: seq<Submission>, i: nat)
    requires IsSingleChoice(i)
    ensures var q := Analyze(rows, i);
      q.yesCount + q.noCount + q.otherCount.GetOr(0) <= |rows|
    ensures (forall row | row in rows :: Conforms(row)) ==>
      var q := Analyze(rows, i);
      q.yesCount + q.noCount + q.otherCount.GetOr(0) == |rows|
  {
    var a := Answers(rows, i);
    var yes, no, opt := Present("Yes"), Present("No"), Present(OPT_OUT);
    CountThree(a, yes, no, opt);
    if forall row | row in rows :: Conforms(row) {
      forall y | y in a ensures y == yes || y == no || (i == 10 && y == opt) {
        var j :| 0 <= j < |a| && a[j] == y;
        ConformingAnswers(rows[j], i);
      }
    }
  }

  /** `getQuestionAnalysis`: one entry per single-choice question, in
      increasing question number; q6 is skipped. */
  method GetQuestionAnalysis(reply: Reply<seq<Submission>>) returns (r: Result<seq<QuestionAnalysis>, string>)
    ensures r.Failure? <==> reply.Error?
    ensures r.Failure? ==> r.error == reply.message
    ensures r.Success? ==> |r.value| == 11
    ensures r.Success? ==> forall j | 0 <= j < 11 :: r.value[j] == Analyze(reply.data, SINGLE_CHOICE[j])
    ensures r.Success? ==> forall j | 0 <= j < 11 ::
      && r.value[j].question == "Question " + NatText(SINGLE_CHOICE[j])
      && (r.value[j].otherCount.Some? <==> SINGLE_CHOICE[j] == 10)
  {
    if reply.Error? {
      return Failure(reply.message);
    }
    var rows := reply.data;
    var analysis: seq<QuestionAnalysis> := [];
    var i := 1;
    while i <= 12
      invariant 1 <= i <= 13
      invariant |analysis| == if i <= 6 then i - 1 else i - 2
      invariant forall j | 0 <= j < |analysis| :: analysis[j] == Analyze(rows, SINGLE_CHOICE[j])
    {
      if i != 6 {
        assert SINGLE_CHOICE[|analysis|] == i;
        analysis := analysis + [Analyze(rows, i)];
      }
      i := i + 1;
    }
    return Success(analysis);
  }
}
