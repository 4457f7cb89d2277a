/** The two derived-field calculators: the named topic flags computed from
    the single-choice answers, and the completion percentage. */
module Mappers {
  import opened Util
  import opened Types
  import opened Validation

  // ---------------------------------------------------------------------------
  // Topic flags

  /** The question each topic flag is read from, in the order the flags are
      declared; question 12 feeds the last two flags. */
  const FLAG_SOURCE: seq<nat> := [1, 2, 3, 4, 5, 7, 8, 9, 10, 11, 12, 12]

  /** The `j`-th topic flag of a responses record, in declaration order. */
  function FlagAt(r: Responses, j: nat): Option<bool>
    requires j < 12
  {
    match j
    case 0 => r.companyHandbook
    case 1 => r.teamIntroduction
    case 2 => r.orientationSession
    case 3 => r.taxForms
    case 4 => r.benefitsEnrollment
    case 5 => r.directDeposit
    case 6 => r.equipmentReceived
    case 7 => r.emailSetup
    case 8 => r.softwareAccess
    case 9 => r.complianceTraining
    case 10 => r.jobDescriptionReview
    case 11 => r.managerCheckin
  }

  /** `answer === 'Yes'`: an absent answer is not "Yes". */
  predicate IsYes(f: Field)
  {
    f == Present("Yes")
  }

  /** `mapSubmissionResponses`: a missing record comes back missing; otherwise
      a copy of the record whose responses are replaced by the twelve flags,
      each true exactly when its source answer is "Yes". */
  function MapSubmissionResponses(s: Option<Submission>): (r: Option<Submission>)
    ensures s.None? <==> r.None?
    ensures s.Some? ==> r.value.responses.Some?
    ensures s.Some? ==> r.value == s.value.(responses := r.value.responses)
  {
    match s
    case None => None
    case Some(d) =>
      var flags := Responses(
        companyHandbook := Some(IsYes(d.q1)),
        teamIntroduction := Some(IsYes(d.q2)),
        orientationSession := Some(IsYes(d.q3)),
        taxForms := Some(IsYes(d.q4)),
        benefitsEnrollment := Some(IsYes(d.q5)),
        directDeposit := Some(IsYes(d.q7)),
        equipmentReceived := Some(IsYes(d.q8)),
        emailSetup := Some(IsYes(d.q9)),
        softwareAccess := Some(IsYes(d.q10)),
        complianceTraining := Some(IsYes(d.q11)),
        jobDescriptionReview := Some(IsYes(d.q12)),
        managerCheckin := Some(IsYes(d.q12)));
      Some(d.(responses := Some(flags)))
  }

  /** Each flag is set, and is true exactly when the answer to the question
      the table names for it is "Yes". */
  lemma FlagsFollowTable(d: Submission, j: nat)
    requires j < 12
    ensures FlagAt(MapSubmissionResponses(Some(d)).value.responses.value, j)
         == Some(IsYes(Answer(d, FLAG_SOURCE[j])))
  {
  }

  /** The two flags read from question 12 always agree. */
  lemma Question12Twins(d: Submission)
    ensures var r := MapSubmissionResponses(Some(d)).value.responses.value;
      r.jobDescriptionReview == r.managerCheckin
  {
    var r := MapSubmissionResponses(Some(d)).value.responses.value;
    assert FlagAt(r, 10) == FlagAt(r, 11);
  }

  /** The multi-select answer and any previous flags play no part: records
      that differ only there get the same flags. */
  lemma FlagsIgnoreQ6(d: Submission, q6: Option<seq<string>>, old_flags: Option<Responses>)
    ensures MapSubmissionResponses(Some(d.(q6 := q6, responses := old_flags))).value.responses
         == MapSubmissionResponses(Some(d)).value.responses
  {
  }

  /** Opting out of using a personal device counts as not having software
      access. */
  lemma OptOutNoSoftwareAccess(d: Submission)
    requires d.q10 == Present(OPT_OUT)
    ensures MapSubmissionResponses(Some(d)).value.responses.value.softwareAccess == Some(false)
  {
    var r := MapSubmissionResponses(Some(d)).value.responses.value;
    assert FlagAt(r, 8) == Some(IsYes(Answer(d, 10)));
  }

  /** On a conforming record a false flag means the answer was "No", or for
      question 10 possibly the opt-out. */
  lemma FalseFlagMeansNo(d: Submission, j: nat)
    requires Conforms(d)
    requires j < 12
    requires FlagAt(MapSubmissionResponses(Some(d)).value.responses.value, j) == Some(false)
    ensures FLAG_SOURCE[j] != 10 ==> Answer(d, FLAG_SOURCE[j]) == Present("No")
    ensures FLAG_SOURCE[j] == 10 ==> Answer(d, 10) in {Present("No"), Present(OPT_OUT)}
  {
    FlagsFollowTable(d, j);
    ConformingAnswers(d, FLAG_SOURCE[j]);
  }

  // ---------------------------------------------------------------------------
  // Completion percentage

  /** The seventeen fields the completion calculator counts, in its order:
      the four identity fields, the eleven single-choice questions and the
      two signature fields. q6 and comments are not among them. */
  const COMPLETION_FIELDS: seq<FieldKey> :=
    [EmployeeName, EmployeeId, Department, StartDate] + QUESTIONS + [Signature, SignatureDate]

  /** `keys.filter(k => record[k] !== undefined && record[k] !== '')`. */
  function FilledKeys(d: Submission, keys: seq<FieldKey>): (r: seq<FieldKey>)
    ensures forall k :: k in r <==> k in keys && Filled(FieldOf(d, k))
    ensures |r| <= |keys|
    ensures |r| == |keys| <==> forall k | k in keys :: Filled(FieldOf(d, k))
  {
    if |keys| == 0 then []
    else
      var rest := FilledKeys(d, keys[1..]);
      assert forall k :: k in keys <==> k == keys[0] || k in keys[1..];
      if Filled(FieldOf(d, keys[0])) then [keys[0]] + rest else rest
  }

  /** JavaScript's `Math.round`: the nearest integer, halves rounded up. */
  function JsRound(x: real): (n: int)
    ensures n as real - 0.5 <= x < n as real + 0.5
  {
    (x + 0.5).Floor
  }

  /** `calculateCompletionPercentage`, in exact arithmetic: the rounded share
      of filled fields, reduced by a tenth when q6 has fewer than three
      entries. A missing record scores 0. */
  function CalculateCompletionPercentage(s: Option<Submission>): (p: real)
    ensures s.None? ==> p == 0.0
    ensures 0.0 <= p <= 100.0
    ensures p == 100.0 <==>
      s.Some? && Q6Satisfied(s.value) && forall k | k in COMPLETION_FIELDS :: Filled(FieldOf(s.value, k))
  {
    match s
    case None => 0.0
    case Some(d) =>
      var filled := |FilledKeys(d, COMPLETION_FIELDS)|;
      var share := JsRound(filled as real / |COMPLETION_FIELDS| as real * 100.0);
      ShareBounds(filled);
      share as real * (if Q6Satisfied(d) then 1.0 else 0.9)
  }

  /** The rounded share of `filled` out of 17 lies in [0, 100] and reaches
      100 only when all 17 are filled. */
  lemma ShareBounds(filled: nat)
    requires filled <= 17
    ensures var share := JsRound(filled as real / 17.0 * 100.0);
      && 0 <= share <= 100
      && (share == 100 <==> filled == 17)
  {
    var x := filled as real / 17.0 * 100.0;
    assert x == filled as real * (100.0 / 17.0);
    if filled < 17 {
      assert x <= 16.0 * (100.0 / 17.0);
    }
  }

  /** Every counted field filled but a short q6: the score is 90. */
  lemma ShortQ6Scores90(d: Submission)
    requires forall k | k in COMPLETION_FIELDS :: Filled(FieldOf(d, k))
    requires !Q6Satisfied(d)
    ensures CalculateCompletionPercentage(Some(d)) == 90.0
  {
    var filled := FilledKeys(d, COMPLETION_FIELDS);
    assert |filled| == 17;
  }

  /** Sixteen of seventeen fields and a short q6 give 94 × 0.9 = 84.6, which
      is not a whole number. */
  lemma NonIntegerScore(d: Submission)
    requires |FilledKeys(d, COMPLETION_FIELDS)| == 16
    requires !Q6Satisfied(d)
    ensures CalculateCompletionPercentage(Some(d)) == 84.6
    ensures CalculateCompletionPercentage(Some(d)).Floor as real != CalculateCompletionPercentage(Some(d))
  {
    assert JsRound(16.0 / 17.0 * 100.0) == 94;
  }

  /** The counted fields are exactly the validator's required fields and
      single-choice questions. */
  lemma CompletionFieldsAreValidated(k: FieldKey)
    ensures k in COMPLETION_FIELDS <==> k in REQUIRED || k in QUESTIONS
  {
  }

  /** Every counted field is filled exactly when every field the validator
      checks, apart from q6, is filled. */
  lemma CountedIffValidated(d: Submission)
    ensures (forall k | k in COMPLETION_FIELDS :: Filled(FieldOf(d, k))) <==>
      && (forall k | k in REQUIRED :: Filled(FieldOf(d, k)))
      && (forall i | IsSingleChoice(i) :: Filled(Answer(d, i)))
  {
    if forall k | k in COMPLETION_FIELDS :: Filled(FieldOf(d, k)) {
      forall i | IsSingleChoice(i) ensures Filled(Answer(d, i)) {
        assert Question(i) in QUESTIONS;
        assert Question(i) in COMPLETION_FIELDS;
      }
    }
    if (forall k | k in REQUIRED :: Filled(FieldOf(d, k)))
      && (forall i | IsSingleChoice(i) :: Filled(Answer(d, i)))
    {
      forall k | k in COMPLETION_FIELDS ensures Filled(FieldOf(d, k)) {
        CompletionFieldsAreValidated(k);
        if k in QUESTIONS {
          assert k.Question? && IsSingleChoice(k.number);
        }
      }
    }
  }

  /** The validator accepts a record exactly when its completion score is
      100, and the status classifier then says complete. */
  lemma ValidIffFullScore(d: Submission)
    ensures ValidateChecklistForm(d).isValid <==> CalculateCompletionPercentage(Some(d)) == 100.0
    ensures ValidateChecklistForm(d).isValid <==>
      DetermineSubmissionStatus(CalculateCompletionPercentage(Some(d))) == Complete
  {
    ValidIff(d);
    CountedIffValidated(d);
  }
}
