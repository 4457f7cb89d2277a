/** The submission record and the aggregate records of the checklist
    application. Every string-valued field of a submission is either absent
    (JavaScript `undefined`) or a string, so the truthiness tests the
    application performs (`!field`) become the explicit predicate `Filled`.
    The closed answer sets of the typed interface are datatypes with a text
    form and a parser; `Conforms` states what the typed interface demands of
    a full record. */
module Types {
  import opened Util

  /** An optional string field: `undefined` or a string. */
  datatype Field = Absent | Present(text: string)

  /** JavaScript truthiness of a `string | undefined`: neither undefined nor "". */
  predicate Filled(f: Field)
  {
    f.Present? && f.text != ""
  }

  /** `field || ''`. */
  function TextOr(f: Field, default: string): (t: string)
    ensures Filled(f) ==> t == f.text
    ensures !Filled(f) ==> t == default
  {
    if Filled(f) then f.text else default
  }

  // ---------------------------------------------------------------------------
  // Closed answer sets

  datatype Status = Complete | Incomplete | Pending

  function StatusText(s: Status): string
  {
    match s
    case Complete => "complete"
    case Incomplete => "incomplete"
    case Pending => "pending"
  }

  function ParseStatus(t: string): (r: Option<Status>)
    ensures r.Some? <==> t in {"complete", "incomplete", "pending"}
    ensures r.Some? ==> StatusText(r.value) == t
  {
    if t == "complete" then Some(Complete)
    else if t == "incomplete" then Some(Incomplete)
    else if t == "pending" then Some(Pending)
    else None
  }

  /** The status labels are exactly three, and text form and parser are inverse. */
  lemma StatusRoundTrip(s: Status)
    ensures ParseStatus(StatusText(s)) == Some(s)
  {
  }

  datatype YesNo = Yes | No

  function YesNoText(a: YesNo): string
  {
    match a
    case Yes => "Yes"
    case No => "No"
  }

  function ParseYesNo(t: string): (r: Option<YesNo>)
    ensures r.Some? <==> t == "Yes" || t == "No"
    ensures r.Some? ==> YesNoText(r.value) == t
  {
    if t == "Yes" then Some(Yes) else if t == "No" then Some(No) else None
  }

  lemma YesNoRoundTrip(a: YesNo)
    ensures ParseYesNo(YesNoText(a)) == Some(a)
  {
  }

  /** The third answer of question 10. */
  const OPT_OUT: string := "Choose not to use personal device for work purposes"

  datatype DeviceAnswer = DeviceYes | DeviceNo | OptOut

  function DeviceText(a: DeviceAnswer): string
  {
    match a
    case DeviceYes => "Yes"
    case DeviceNo => "No"
    case OptOut => OPT_OUT
  }

  function ParseDevice(t: string): (r: Option<DeviceAnswer>)
    ensures r.Some? <==> t == "Yes" || t == "No" || t == OPT_OUT
    ensures r.Some? ==> DeviceText(r.value) == t
  {
    if t == "Yes" then Some(DeviceYes)
    else if t == "No" then Some(DeviceNo)
    else if t == OPT_OUT then Some(OptOut)
    else None
  }

  lemma DeviceRoundTrip(a: DeviceAnswer)
    ensures ParseDevice(DeviceText(a)) == Some(a)
  {
  }

  // ---------------------------------------------------------------------------
  // Records

  /** The named topic flags derived from the answers; each is optional. */
  datatype Responses = Responses(
    companyHandbook: Option<bool>,
    teamIntroduction: Option<bool>,
    orientationSession: Option<bool>,
    taxForms: Option<bool>,
    benefitsEnrollment: Option<bool>,
    directDeposit: Option<bool>,
    equipmentReceived: Option<bool>,
    emailSetup: Option<bool>,
    softwareAccess: Option<bool>,
    complianceTraining: Option<bool>,
    jobDescriptionReview: Option<bool>,
    managerCheckin: Option<bool>)

  /** One checklist record, complete or in progress. */
  datatype Submission = Submission(
    id: Field,
    employeeName: Field,
    employeeId: Field,
    department: Field,
    startDate: Field,
    submissionDate: Field,
    signature: Field,
    signatureDate: Field,
    status: Field,
    completionPercentage: Option<real>,
    comments: Field,
    responses: Option<Responses>,
    q1: Field, q2: Field, q3: Field, q4: Field, q5: Field,
    q6: Option<seq<string>>,
    q7: Field, q8: Field, q9: Field, q10: Field, q11: Field, q12: Field,
    createdAt: Field,
    updatedAt: Field)

  /** A record with every field absent (`{}` as a partial submission). */
  function EmptyDraft(): Submission
  {
    Submission(Absent, Absent, Absent, Absent, Absent, Absent, Absent, Absent, Absent, None,
               Absent, None, Absent, Absent, Absent, Absent, Absent, None,
               Absent, Absent, Absent, Absent, Absent, Absent, Absent, Absent)
  }

  /** The numbers of the eleven single-choice questions, in order. */
  const SINGLE_CHOICE: seq<nat> := [1, 2, 3, 4, 5, 7, 8, 9, 10, 11, 12]

  predicate IsSingleChoice(i: nat)
  {
    1 <= i <= 12 && i != 6
  }

  /** The answer to single-choice question `i` (`record['q' + i]`). */
  function Answer(d: Submission, i: nat): Field
    requires IsSingleChoice(i)
  {
    match i
    case 1 => d.q1
    case 2 => d.q2
    case 3 => d.q3
    case 4 => d.q4
    case 5 => d.q5
    case 7 => d.q7
    case 8 => d.q8
    case 9 => d.q9
    case 10 => d.q10
    case 11 => d.q11
    case 12 => d.q12
  }

  /** The property names the validator and the completion calculator
      consult: the six identity and signature fields and the questions. */
  datatype FieldKey =
    | EmployeeName | EmployeeId | Department | StartDate | Signature | SignatureDate
    | Question(number: nat)

  /** The property name of a key (`'q' + i` for question `i`). */
  function KeyName(k: FieldKey): string
  {
    match k
    case EmployeeName => "employee_name"
    case EmployeeId => "employee_id"
    case Department => "department"
    case StartDate => "start_date"
    case Signature => "signature"
    case SignatureDate => "signature_date"
    case Question(i) => "q" + NatText(i)
  }

  /** Distinct keys have distinct property names. */
  lemma KeyNameInjective(a: FieldKey, b: FieldKey)
    ensures KeyName(a) == KeyName(b) ==> a == b
  {
    if a.Question? && b.Question? {
      if KeyName(a) == KeyName(b) {
        assert NatText(a.number) == KeyName(a)[1..];
        assert NatText(b.number) == KeyName(b)[1..];
        NatTextInjective(a.number, b.number);
      }
    } else if a.Question? {
      assert KeyName(a)[0] == 'q' != KeyName(b)[0];
    } else if b.Question? {
      assert KeyName(b)[0] == 'q' != KeyName(a)[0];
    }
  }

  /** The string field a key names (`record[key]`); q6 is not a string field
      and reads as absent here. */
  function FieldOf(d: Submission, k: FieldKey): Field
  {
    match k
    case EmployeeName => d.employeeName
    case EmployeeId => d.employeeId
    case Department => d.department
    case StartDate => d.startDate
    case Signature => d.signature
    case SignatureDate => d.signatureDate
    case Question(i) => if IsSingleChoice(i) then Answer(d, i) else Absent
  }

  /** The multi-select answer has at least three entries
      (`(q6?.length || 0) >= 3`, equivalently `!(!q6 || q6.length < 3)`). */
  predicate Q6Satisfied(d: Submission)
  {
    d.q6.Some? && |d.q6.value| >= 3
  }

  predicate YesNoField(f: Field)
  {
    f.Present? && ParseYesNo(f.text).Some?
  }

  /** What the typed interface demands of a full record: the required string
      fields are present, status and the answers come from their closed sets,
      a completion percentage and a q6 list exist. The identifier, comments,
      responses and the two timestamps are optional, and q6 has no length
      bound. */
  predicate Conforms(d: Submission)
  {
    && d.employeeName.Present?
    && d.employeeId.Present?
    && d.department.Present?
    && d.startDate.Present?
    && d.submissionDate.Present?
    && d.signature.Present?
    && d.signatureDate.Present?
    && d.status.Present? && ParseStatus(d.status.text).Some?
    && d.completionPercentage.Some?
    && YesNoField(d.q1) && YesNoField(d.q2) && YesNoField(d.q3)
    && YesNoField(d.q4) && YesNoField(d.q5)
    && d.q6.Some?
    && YesNoField(d.q7) && YesNoField(d.q8) && YesNoField(d.q9)
    && d.q10.Present? && ParseDevice(d.q10.text).Some?
    && YesNoField(d.q11) && YesNoField(d.q12)
  }

  /** A conforming record's single-choice answers come from their closed
      sets: Yes or No, and for question 10 also the opt-out text. */
  lemma ConformingAnswers(d: Submission, i: nat)
    requires Conforms(d)
    requires IsSingleChoice(i)
    ensures Answer(d, i).Present?
    ensures i != 10 ==> Answer(d, i).text in {"Yes", "No"}
    ensures i == 10 ==> Answer(d, i).text in {"Yes", "No", OPT_OUT}
  {
  }

  /** Dropping or replacing the optional parts of a record, or giving q6
      any length, keeps it conforming. */
  lemma OptionalParts(d: Submission, q6: seq<string>, flags: Option<Responses>)
    requires Conforms(d)
    ensures Conforms(d.(id := Absent, comments := Absent, responses := flags,
                        createdAt := Absent, updatedAt := Absent, q6 := Some(q6)))
  {
  }

  // ---------------------------------------------------------------------------
  // Aggregates (only `otherCount` is optional)

  datatype DashboardStats = DashboardStats(
    totalSubmissions: nat,
    completionRate: real,
    avgCompletionTime: real,
    pendingSubmissions: nat)

  datatype DepartmentBreakdown = DepartmentBreakdown(department: string, count: nat)

  datatype QuestionAnalysis = QuestionAnalysis(
    question: string,
    yesCount: nat,
    noCount: nat,
    otherCount: Option<nat>)

  datatype TrendData = TrendData(date: string, count: nat)
}
