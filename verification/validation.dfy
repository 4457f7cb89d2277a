/** Form validation and the status classifier. The validator collects one
    message per missing required field, one per unanswered single-choice
    question and one for a multi-select answer with fewer than three
    entries; the form is valid exactly when nothing was collected. Error
    maps are keyed by `FieldKey`; `KeyName` gives the property name the
    application uses as the key. */
module Validation {
  import opened Util
  import opened Types

  datatype ValidationResult = ValidationResult(isValid: bool, errors: map<FieldKey, string>)

  /** The six identity and signature fields, in the order they are checked. */
  const REQUIRED: seq<FieldKey> :=
    [EmployeeName, EmployeeId, Department, StartDate, Signature, SignatureDate]

  /** The eleven single-choice questions, in the order they are checked. */
  const QUESTIONS: seq<FieldKey> :=
    [Question(1), Question(2), Question(3), Question(4), Question(5), Question(7),
     Question(8), Question(9), Question(10), Question(11), Question(12)]

  const Q6: FieldKey := Question(6)

  /** The label a required field's message uses. */
  function Label(k: FieldKey): string
  {
    match k
    case EmployeeName => "Employee Name"
    case EmployeeId => "Employee ID"
    case Department => "Department"
    case StartDate => "Start Date"
    case Signature => "Signature"
    case SignatureDate => "Signature Date"
    case Question(i) => "Question " + NatText(i)
  }

  /** The message recorded for a missing field. */
  function Message(k: FieldKey): string
  {
    match k
    case Question(i) =>
      if i == 6 then "Please select at least 3 options"
      else "Question " + NatText(i) + " must be answered"
    case _ => Label(k) + " is required"
  }

  /** One pass of the validator: every key of `keys` whose field is not
      filled gets its message in `acc`. */
  function CheckFilled(d: Submission, keys: seq<FieldKey>, acc: map<FieldKey, string>): (m: map<FieldKey, string>)
    ensures forall k :: k in m <==> k in acc || (k in keys && !Filled(FieldOf(d, k)))
    ensures forall k | k in m :: m[k] == (if k in keys && !Filled(FieldOf(d, k)) then Message(k) else acc[k])
  {
    map k | k in acc.Keys + (set k | k in keys && !Filled(FieldOf(d, k))) :: if k in keys && !Filled(FieldOf(d, k)) then Message(k) else acc[k]
  }

  /** The error map `validateChecklistForm` builds: the required-field pass,
      the question pass (q1 to q12 without q6) and the q6 rule. */
  function CollectErrors(d: Submission): map<FieldKey, string>
  {
    var required := CheckFilled(d, REQUIRED, map[]);
    var answered := CheckFilled(d, QUESTIONS, required);
    if !Q6Satisfied(d) then answered[Q6 := Message(Q6)] else answered
  }

  lemma RequiredEntry(d: Submission, k: FieldKey)
    requires k in REQUIRED
    ensures k in CollectErrors(d) <==> !Filled(FieldOf(d, k))
    ensures k in CollectErrors(d) ==> CollectErrors(d)[k] == Message(k)
  {
    assert !k.Question?;
    assert k !in QUESTIONS;
  }

  lemma QuestionEntry(d: Submission, i: nat)
    requires IsSingleChoice(i)
    ensures Question(i) in CollectErrors(d) <==> !Filled(Answer(d, i))
    ensures Question(i) in CollectErrors(d) ==> CollectErrors(d)[Question(i)] == Message(Question(i))
  {
    assert Question(i) in QUESTIONS;
    assert Question(i) !in REQUIRED;
  }

  lemma Q6Entry(d: Submission)
    ensures Q6 in CollectErrors(d) <==> !Q6Satisfied(d)
    ensures Q6 in CollectErrors(d) ==> CollectErrors(d)[Q6] == Message(Q6)
  {
    assert Q6 !in QUESTIONS && Q6 !in REQUIRED;
  }

  lemma KnownEntry(d: Submission, k: FieldKey)
    requires k in CollectErrors(d)
    ensures k in REQUIRED || k == Q6 || (k.Question? && IsSingleChoice(k.number))
  {
  }

  /** `validateChecklistForm`. */
  function ValidateChecklistForm(d: Submission): (r: ValidationResult)
    ensures r.isValid <==> r.errors == map[]
    ensures forall k | k in REQUIRED ::
      && (k in r.errors <==> !Filled(FieldOf(d, k)))
      && (k in r.errors ==> r.errors[k] == Message(k))
    ensures forall i | IsSingleChoice(i) ::
      && (Question(i) in r.errors <==> !Filled(Answer(d, i)))
      && (Question(i) in r.errors ==> r.errors[Question(i)] == Message(Question(i)))
    ensures Q6 in r.errors <==> !Q6Satisfied(d)
    ensures Q6 in r.errors ==> r.errors[Q6] == Message(Q6)
    ensures forall k | k in r.errors :: k in REQUIRED || k == Q6 || (k.Question? && IsSingleChoice(k.number))
  {
    var errors := CollectErrors(d);
    forall k | k in REQUIRED
      ensures k in errors <==> !Filled(FieldOf(d, k))
      ensures k in errors ==> errors[k] == Message(k)
    {
      RequiredEntry(d, k);
    }
    forall i | IsSingleChoice(i)
      ensures Question(i) in errors <==> !Filled(Answer(d, i))
      ensures Question(i) in errors ==> errors[Question(i)] == Message(Question(i))
    {
      QuestionEntry(d, i);
    }
    Q6Entry(d);
    forall k | k in errors
      ensures k in REQUIRED || k == Q6 || (k.Question? && IsSingleChoice(k.number))
    {
      KnownEntry(d, k);
    }
    ValidationResult(|errors| == 0, errors)
  }

  /** A form is valid exactly when the six identity and signature fields and
      the eleven single-choice answers are all filled and q6 has at least
      three entries. */
  lemma ValidIff(d: Submission)
    ensures ValidateChecklistForm(d).isValid <==>
      && (forall k | k in REQUIRED :: Filled(FieldOf(d, k)))
      && (forall i | IsSingleChoice(i) :: Filled(Answer(d, i)))
      && Q6Satisfied(d)
  {
    var r := ValidateChecklistForm(d);
    if !r.isValid {
      var k :| k in r.errors;
    }
  }

  /** Every key the validator can report, ordered by `Rank`. */
  const ALL_KEYS: seq<FieldKey> := REQUIRED + seq(12, i requires 0 <= i < 12 => Question(i + 1))

  /** A numbering of the keys, used to show that `ALL_KEYS` has no repeats. */
  function Rank(k: FieldKey): nat
  {
    match k
    case EmployeeName => 0
    case EmployeeId => 1
    case Department => 2
    case StartDate => 3
    case Signature => 4
    case SignatureDate => 5
    case Question(i) => 6 + i
  }

  lemma {:induction false} SortedKeysCount(xs: seq<FieldKey>)
    requires forall i | 0 <= i < |xs| - 1 :: Rank(xs[i]) < Rank(xs[i + 1])
    ensures |set k | k in xs| == |xs|
    ensures forall k | k in xs :: Rank(xs[0]) <= Rank(k)
  {
    if |xs| > 0 {
      var tail := xs[1..];
      SortedKeysCount(tail);
      assert xs[0] !in tail;
      assert (set k | k in xs) == {xs[0]} + (set k | k in tail);
    }
  }

  lemma AllKeysCount()
    ensures |set k | k in ALL_KEYS| == 18
  {
    SortedKeysCount(ALL_KEYS);
  }

  /** A form with nothing filled in reports every key it can report. */
  lemma NothingFilledErrors(d: Submission)
    requires forall k | k in REQUIRED :: !Filled(FieldOf(d, k))
    requires forall i | IsSingleChoice(i) :: !Filled(Answer(d, i))
    requires !Q6Satisfied(d)
    ensures ValidateChecklistForm(d).errors.Keys == set k | k in ALL_KEYS
  {
    ReportsAll(ValidateChecklistForm(d).errors);
  }

  /** A map holding every required key, every single-choice question and
      q6, and nothing else, has exactly the keys of `ALL_KEYS`. */
  lemma ReportsAll(errors: map<FieldKey, string>)
    requires forall k | k in REQUIRED :: k in errors
    requires forall i | IsSingleChoice(i) :: Question(i) in errors
    requires Q6 in errors
    requires forall k | k in errors :: k in REQUIRED || k == Q6 || (k.Question? && IsSingleChoice(k.number))
    ensures errors.Keys == set k | k in ALL_KEYS
  {
    forall k | k in errors ensures k in ALL_KEYS {
      match k
      case Question(i) => assert ALL_KEYS[5 + i] == k;
      case _ => assert k in REQUIRED;
    }
    forall j | 0 <= j < |ALL_KEYS| ensures ALL_KEYS[j] in errors {
      if j < 6 {
        assert ALL_KEYS[j] == REQUIRED[j];
      } else {
        assert ALL_KEYS[j] == Question(j - 5);
      }
    }
  }

  /** An entirely empty form collects exactly 18 messages, under 18 distinct
      property names: 6 required fields, 11 questions and q6. */
  lemma EmptyFormErrors()
    ensures !ValidateChecklistForm(EmptyDraft()).isValid
    ensures |ValidateChecklistForm(EmptyDraft()).errors| == 18
    ensures |set k | k in ValidateChecklistForm(EmptyDraft()).errors :: KeyName(k)| == 18
  {
    var d := EmptyDraft();
    NothingFilledErrors(d);
    AllKeysCount();
    var r := ValidateChecklistForm(d);
    forall a, b | a in r.errors && b in r.errors && KeyName(a) == KeyName(b)
      ensures a == b
    {
      KeyNameInjective(a, b);
    }
    InjectiveImageSize(r.errors.Keys);
  }

  lemma InjectiveImageSize(s: set<FieldKey>)
    requires forall a, b | a in s && b in s && KeyName(a) == KeyName(b) :: a == b
    ensures |set k | k in s :: KeyName(k)| == |s|
  {
    if s != {} {
      var x :| x in s;
      InjectiveImageSize(s - {x});
      assert (set k | k in s :: KeyName(k)) == (set k | k in s - {x} :: KeyName(k)) + {KeyName(x)};
    }
  }

  // ---------------------------------------------------------------------------

  /** `determineSubmissionStatus`: a total three-way classifier of any
      numeric percentage. */
  function DetermineSubmissionStatus(completionPercentage: real): (s: Status)
    ensures s == Complete <==> completionPercentage == 100.0
    ensures s == Pending <==> completionPercentage >= 50.0 && completionPercentage != 100.0
    ensures s == Incomplete <==> completionPercentage < 50.0
  {
    if completionPercentage == 100.0 then Complete
    else if completionPercentage >= 50.0 then Pending
    else Incomplete
  }
}
