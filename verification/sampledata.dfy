/** The demonstration data of the admin dashboard. Every `Math.random` draw
    is a parameter in the range the generator draws it from, and the clock
    is a day number with the two date renderings the generator uses. */
module SampleData {
  import opened Util
  import opened Types
  import opened Validation
  import opened Mappers
  import opened GroupBy

  // ---------------------------------------------------------------------------
  // Fixed figures

  /** `generateSampleStats`. */
  function GenerateSampleStats(): DashboardStats
  {
    DashboardStats(157, 82.5, 3.2, 12)
  }

  /** The five department names the generators use, in order. */
  function DepartmentName(k: nat): string
    requires k < 5
  {
    match k
    case 0 => "IT Support"
    case 1 => "Customer Service"
    case 2 => "Sales"
    case 3 => "HR"
    case 4 => "Development"
  }

  const SAMPLE_DEPARTMENTS: set<string> := {"IT Support", "Customer Service", "Sales", "HR", "Development"}

  /** `generateSampleDepartmentData`. */
  function GenerateSampleDepartmentData(): (r: seq<DepartmentBreakdown>)
    ensures |r| == 5
    ensures forall k | 0 <= k < 5 :: r[k].department == DepartmentName(k)
  {
    [DepartmentBreakdown("IT Support", 42), DepartmentBreakdown("Customer Service", 35),
     DepartmentBreakdown("Sales", 28), DepartmentBreakdown("HR", 15),
     DepartmentBreakdown("Development", 37)]
  }

  const SAMPLE_YES: seq<nat> := [142, 138, 125, 145, 130, 120, 135, 140, 128, 115, 132, 136]
  const SAMPLE_NO: seq<nat> := [15, 19, 32, 12, 27, 37, 22, 17, 29, 42, 25, 21]

  /** `generateSampleQuestionData`: twelve entries "Question 1" to
      "Question 12"; only Question 10 carries an other count (zero). */
  function GenerateSampleQuestionData(): (r: seq<QuestionAnalysis>)
    ensures |r| == 12
    ensures forall k | 0 <= k < 12 :: r[k].question == "Question " + NatText(k + 1)
    ensures forall k | 0 <= k < 12 :: r[k].otherCount.Some? <==> k == 9
  {
    seq(12, k requires 0 <= k < 12 =>
      QuestionAnalysis("Question " + NatText(k + 1), SAMPLE_YES[k], SAMPLE_NO[k], if k == 9 then Some(0) else None))
  }

  /** The fixed figures agree with each other: the department counts add up
      to the 157 submissions of the statistics, every question was answered
      yes or no by exactly those 157, and the breakdown lists the five
      departments the record generator draws from. */
  lemma SampleFiguresAgree()
    ensures Sum(CountColumn(GenerateSampleDepartmentData(), (b: DepartmentBreakdown) => b.count)) == GenerateSampleStats().totalSubmissions
    ensures forall k | 0 <= k < 12 ::
      GenerateSampleQuestionData()[k].yesCount + GenerateSampleQuestionData()[k].noCount == GenerateSampleStats().totalSubmissions
    ensures (set b | b in GenerateSampleDepartmentData() :: b.department) == SAMPLE_DEPARTMENTS
  {
    var r := GenerateSampleDepartmentData();
    var cs := CountColumn(r, (b: DepartmentBreakdown) => b.count);
    assert cs == [42, 35, 28, 15, 37];
    assert Sum(cs[..1]) == 42 by { assert cs[..1][..0] == []; }
    assert Sum(cs[..2]) == 77 by { assert cs[..2][..1] == cs[..1]; }
    assert Sum(cs[..3]) == 105 by { assert cs[..3][..2] == cs[..2]; }
    assert Sum(cs[..4]) == 120 by { assert cs[..4][..3] == cs[..3]; }
    assert Sum(cs) == 157 by { assert cs[..4] == cs[..4]; }
    forall k | 0 <= k < 12
      ensures SAMPLE_YES[k] + SAMPLE_NO[k] == 157
    {
    }
    assert forall b | b in r :: b.department in SAMPLE_DEPARTMENTS;
    assert r[0].department == "IT Support" && r[1].department == "Customer Service";
    assert r[2].department == "Sales" && r[3].department == "HR" && r[4].department == "Development";
  }

  // ---------------------------------------------------------------------------
  // Trend data

  /** The clock: today's day number, how a day is written as `YYYY-MM-DD`,
      and the full timestamp of a day at the current time of day. */
  datatype Calendar = Calendar(today: int, dayText: int -> string, stamp: int -> string)

  /** `generateSampleTrendData`: one entry per day from 30 days ago to today,
      oldest first, with the drawn count (`Math.floor(Math.random() * 9)`). */
  method GenerateSampleTrendData(cal: Calendar, counts: seq<nat>) returns (data: seq<TrendData>)
    requires |counts| == 31 && forall k | 0 <= k < 31 :: counts[k] < 9
    ensures |data| == 31
    ensures forall k | 0 <= k < 31 :: data[k].date == cal.dayText(cal.today - 30 + k)
    ensures forall k | 0 <= k < 31 :: data[k].count == counts[k] <= 8
    ensures data[30].date == cal.dayText(cal.today)
  {
    data := [];
    var i := 30;
    while i >= 0
      invariant -1 <= i <= 30
      invariant |data| == 30 - i
      invariant forall k | 0 <= k < |data| :: data[k] == TrendData(cal.dayText(cal.today - 30 + k), counts[k])
    {
      data := data + [TrendData(cal.dayText(cal.today - i), counts[30 - i])];
      i := i - 1;
    }
  }

  // ---------------------------------------------------------------------------
  // Submissions

  /** The three statuses in the order the generator indexes them. */
  function StatusAt(k: nat): Status
    requires k < 3
  {
    match k
    case 0 => Complete
    case 1 => Incomplete
    case 2 => Pending
  }

  /** The random draws behind one record: how many days before today it
      started (`floor(random * 60)`), how many days later it was submitted
      (`floor(random * 5)`), the status and department indices, the
      percentage draw of the status's branch, the eleven yes-or-no answers
      (`random > 0.2`), whether it has a comment, and the twelve flags. */
  datatype Draw = Draw(
    startBack: nat,
    delay: nat,
    statusIndex: nat,
    percentDraw: nat,
    departmentIndex: nat,
    yes: seq<bool>,
    hasComment: bool,
    flags: seq<bool>)

  /** Each draw lies in the range it is drawn from: a pending record draws
      `floor(random * 41)`, an incomplete one `floor(random * 50)`, and a
      complete one draws no percentage. */
  predicate InRange(d: Draw)
  {
    && d.startBack < 60 && d.delay < 5
    && d.statusIndex < 3 && d.departmentIndex < 5
    && |d.yes| == 11 && |d.flags| == 12
    && (d.statusIndex == 2 ==> d.percentDraw < 41)
    && (d.statusIndex == 1 ==> d.percentDraw < 50)
  }

  /** The stored completion percentage: 100 when complete, 50 to 90 when
      pending, 0 to 49 when incomplete. */
  function Percent(d: Draw): (p: nat)
    requires InRange(d)
    ensures StatusAt(d.statusIndex) == Complete ==> p == 100
    ensures StatusAt(d.statusIndex) == Pending ==> 50 <= p <= 90
    ensures StatusAt(d.statusIndex) == Incomplete ==> p <= 49
  {
    match StatusAt(d.statusIndex)
    case Complete => 100
    case Pending => d.percentDraw + 50
    case Incomplete => d.percentDraw
  }

  function YesNoOf(b: bool): Field
  {
    Present(if b then "Yes" else "No")
  }

  const SAMPLE_COMMENT: string := "Sample comment for this submission."
  const SAMPLE_Q6: seq<string> := ["Option 1", "Option 2", "Option 3"]

  function StartDay(d: Draw, cal: Calendar): int
  {
    cal.today - d.startBack
  }

  function SubmitDay(d: Draw, cal: Calendar): int
  {
    StartDay(d, cal) + d.delay
  }

  /** Record number `i` of `generateSampleSubmissions`. */
  function SampleSubmission(i: nat, d: Draw, cal: Calendar): Submission
    requires InRange(d)
  {
    var f := d.flags;
    var a := d.yes;
    Submission(
      Present("sample-" + NatText(i)),
      Present("Employee " + NatText(i)),
      Present("EMP-" + NatText(1000 + i)),
      Present(DepartmentName(d.departmentIndex)),
      Present(cal.dayText(StartDay(d, cal))),
      Present(cal.dayText(SubmitDay(d, cal))),
      Present("Employee " + NatText(i)),
      Present(cal.dayText(SubmitDay(d, cal))),
      Present(StatusText(StatusAt(d.statusIndex))),
      Some(Percent(d) as real),
      if d.hasComment then Present(SAMPLE_COMMENT) else Absent,
      Some(Responses(Some(f[0]), Some(f[1]), Some(f[2]), Some(f[3]), Some(f[4]), Some(f[5]),
                     Some(f[6]), Some(f[7]), Some(f[8]), Some(f[9]), Some(f[10]), Some(f[11]))),
      YesNoOf(a[0]), YesNoOf(a[1]), YesNoOf(a[2]), YesNoOf(a[3]), YesNoOf(a[4]),
      Some(SAMPLE_Q6),
      YesNoOf(a[5]), YesNoOf(a[6]), YesNoOf(a[7]), YesNoOf(a[8]), YesNoOf(a[9]), YesNoOf(a[10]),
      Present(cal.stamp(SubmitDay(d, cal))),
      Present(cal.stamp(SubmitDay(d, cal))))
  }

  /** A record's stored percentage classifies back to its own status. */
  lemma StatusMatchesPercent(i: nat, d: Draw, cal: Calendar)
    requires InRange(d)
    ensures var r := SampleSubmission(i, d, cal);
      && ParseStatus(r.status.text) == Some(DetermineSubmissionStatus(r.completionPercentage.value))
  {
  }

  /** Every record has the shape the typed interface demands: its answers
      are Yes or No (question 10 never gets the opt-out answer), q6 holds
      three options, and its department is one of the five. */
  lemma SampleConforms(i: nat, d: Draw, cal: Calendar)
    requires InRange(d)
    ensures var r := SampleSubmission(i, d, cal);
      && Conforms(r)
      && (forall q | IsSingleChoice(q) :: Answer(r, q).text in {"Yes", "No"})
      && r.q6 == Some(SAMPLE_Q6) && |r.q6.value| == 3
      && r.department.text in SAMPLE_DEPARTMENTS
  {
  }

  /** A record is signed on the day it is submitted, 0 to 4 days after a
      start within the last 60 days. */
  lemma SampleDates(i: nat, d: Draw, cal: Calendar)
    requires InRange(d)
    ensures var r := SampleSubmission(i, d, cal);
      && r.signatureDate == r.submissionDate
      && r.startDate == Present(cal.dayText(StartDay(d, cal)))
      && r.submissionDate == Present(cal.dayText(SubmitDay(d, cal)))
      && cal.today - 59 <= StartDay(d, cal) <= cal.today
      && 0 <= SubmitDay(d, cal) - StartDay(d, cal) <= 4
  {
  }

  /** A record is dated after today exactly when its delay exceeds how far
      back it started, and never more than four days ahead. */
  lemma SubmittedInFuture(d: Draw, cal: Calendar)
    requires InRange(d)
    ensures SubmitDay(d, cal) > cal.today <==> d.delay > d.startBack
    ensures SubmitDay(d, cal) <= cal.today + 4
  {
  }

  /** When the clock writes every day as a non-empty date, the six identity
      and signature fields are filled. */
  lemma SampleIdentityFilled(i: nat, d: Draw, cal: Calendar)
    requires InRange(d)
    requires cal.dayText(StartDay(d, cal)) != "" && cal.dayText(SubmitDay(d, cal)) != ""
    ensures forall k | k in REQUIRED :: Filled(FieldOf(SampleSubmission(i, d, cal), k))
  {
    assert ("Employee " + NatText(i))[0] == 'E';
    assert ("EMP-" + NatText(1000 + i))[0] == 'E';
  }

  /** Every answer is filled and q6 has three entries. */
  lemma SampleAnswersFilled(i: nat, d: Draw, cal: Calendar)
    requires InRange(d)
    ensures forall q | IsSingleChoice(q) :: Filled(Answer(SampleSubmission(i, d, cal), q))
    ensures Q6Satisfied(SampleSubmission(i, d, cal))
  {
  }

  /** Then every record passes the form validator and the completion
      calculator scores it 100, although only complete records store 100. */
  lemma SampleValid(i: nat, d: Draw, cal: Calendar)
    requires InRange(d)
    requires cal.dayText(StartDay(d, cal)) != "" && cal.dayText(SubmitDay(d, cal)) != ""
    ensures ValidateChecklistForm(SampleSubmission(i, d, cal)).isValid
    ensures CalculateCompletionPercentage(Some(SampleSubmission(i, d, cal))) == 100.0
    ensures SampleSubmission(i, d, cal).completionPercentage == Some(100.0) <==> StatusAt(d.statusIndex) == Complete
  {
    var r := SampleSubmission(i, d, cal);
    SampleIdentityFilled(i, d, cal);
    SampleAnswersFilled(i, d, cal);
    ValidIff(r);
    CountedIffValidated(r);
  }

  /** Prefixed numbers are equal only for equal numbers. */
  lemma PrefixedNumbersDiffer(prefix: string, a: nat, b: nat)
    requires a != b
    ensures prefix + NatText(a) != prefix + NatText(b)
  {
    if prefix + NatText(a) == prefix + NatText(b) {
      assert NatText(a) == (prefix + NatText(a))[|prefix|..];
      assert NatText(b) == (prefix + NatText(b))[|prefix|..];
      NatTextInjective(a, b);
    }
  }

  /** Record `i` is numbered `i` in its id and `1000 + i` in its employee
      id, so records with different numbers never share either. */
  lemma SampleIds(i: nat, j: nat, di: Draw, dj: Draw, cal: Calendar)
    requires InRange(di) && InRange(dj)
    ensures SampleSubmission(i, di, cal).id == Present("sample-" + NatText(i))
    ensures SampleSubmission(i, di, cal).employeeId == Present("EMP-" + NatText(1000 + i))
    ensures i != j ==> SampleSubmission(i, di, cal).id != SampleSubmission(j, dj, cal).id
    ensures i != j ==> SampleSubmission(i, di, cal).employeeId != SampleSubmission(j, dj, cal).employeeId
  {
    if i != j {
      PrefixedNumbersDiffer("sample-", i, j);
      PrefixedNumbersDiffer("EMP-", 1000 + i, 1000 + j);
    }
  }

  /** Records built with consecutive numbers from 1 have numbered ids. */
  lemma NumberedIds(r: seq<Submission>, draws: seq<Draw>, cal: Calendar)
    requires |r| == |draws| && forall k | 0 <= k < |draws| :: InRange(draws[k])
    requires forall k | 0 <= k < |r| :: r[k] == SampleSubmission(k + 1, draws[k], cal)
    ensures forall k | 0 <= k < |r| ::
      r[k].id == Present("sample-" + NatText(k + 1)) && r[k].employeeId == Present("EMP-" + NatText(1000 + k + 1))
  {
    forall k | 0 <= k < |r|
      ensures r[k].id == Present("sample-" + NatText(k + 1)) && r[k].employeeId == Present("EMP-" + NatText(1000 + k + 1))
    {
      SampleIds(k + 1, k + 1, draws[k], draws[k], cal);
    }
  }

  /** Numbered ids are unique. */
  lemma NumberedIdsUnique(r: seq<Submission>)
    requires forall k | 0 <= k < |r| ::
      r[k].id == Present("sample-" + NatText(k + 1)) && r[k].employeeId == Present("EMP-" + NatText(1000 + k + 1))
    ensures forall j, k | 0 <= j < k < |r| :: r[j].id != r[k].id && r[j].employeeId != r[k].employeeId
  {
    forall j, k | 0 <= j < k < |r|
      ensures r[j].id != r[k].id && r[j].employeeId != r[k].employeeId
    {
      PrefixedNumbersDiffer("sample-", j + 1, k + 1);
      PrefixedNumbersDiffer("EMP-", 1000 + j + 1, 1000 + k + 1);
    }
  }

  /** `generateSampleSubmissions(count)`: records 1 to `count`, each built
      from its own draws, with unique ids and employee ids. */
  method GenerateSampleSubmissions(draws: seq<Draw>, cal: Calendar, count: nat := 20) returns (r: seq<Submission>)
    requires |draws| == count && forall k | 0 <= k < count :: InRange(draws[k])
    ensures |r| == count
    ensures forall k | 0 <= k < count :: r[k] == SampleSubmission(k + 1, draws[k], cal)
    ensures forall j, k | 0 <= j < k < count :: r[j].id != r[k].id && r[j].employeeId != r[k].employeeId
  {
    r := [];
    var i := 1;
    while i <= count
      invariant 1 <= i <= count + 1
      invariant |r| == i - 1
      invariant forall k | 0 <= k < |r| :: r[k] == SampleSubmission(k + 1, draws[k], cal)
    {
      r := r + [SampleSubmission(i, draws[i - 1], cal)];
      i := i + 1;
    }
    NumberedIds(r, draws, cal);
    NumberedIdsUnique(r);
  }
}
