/** The employee-facing checklist form: its initial state, the q6
    multi-select toggle with its running count message, the submit handler
    that builds the insert payload, and the reset for a new form. The
    signature pad, the clock and the store's answer are inputs. */
module ChecklistForm {
  import opened Util
  import opened Types
  import opened Validation
  import opened Mappers
  import opened GroupBy
  import opened Api

  /** The form's state: the partial record being filled in, the q6 message,
      the submission error and the two progress flags. */
  datatype FormView = FormView(
    formData: Submission,
    q6Error: string,
    error: string,
    isSubmitting: bool,
    isSubmitted: bool)

  /** The record a fresh form starts from: empty identity fields, no
      single-choice answers, an empty q6 list, status "incomplete" at 0
      percent, empty comments and today's date as signature date. */
  function BlankForm(today: string): (d: Submission)
    ensures d.q6 == Some([])
    ensures forall i | IsSingleChoice(i) :: Answer(d, i) == Absent
    ensures d.status == Present(StatusText(Incomplete)) && d.completionPercentage == Some(0.0)
    ensures d.employeeName == d.employeeId == d.department == d.startDate == d.comments == Present("")
    ensures d.signatureDate == Present(today) && d.signature == Absent && d.submissionDate == Absent
  {
    EmptyDraft().(
      employeeName := Present(""),
      employeeId := Present(""),
      department := Present(""),
      startDate := Present(""),
      q6 := Some([]),
      status := Present(StatusText(Incomplete)),
      completionPercentage := Some(0.0),
      comments := Present(""),
      signatureDate := Present(today))
  }

  function InitialView(today: string): FormView
  {
    FormView(BlankForm(today), "", "", false, false)
  }

  /** A blank form is not valid: only its signature date is filled. */
  lemma BlankFormInvalid(today: string)
    ensures !ValidateChecklistForm(BlankForm(today)).isValid
    ensures Q6 in ValidateChecklistForm(BlankForm(today)).errors
  {
  }

  // ---------------------------------------------------------------------------
  // The q6 toggle

  /** The message shown while fewer than three q6 options are selected. */
  function Q6CountMessage(count: int): string
  {
    "Please select at least 3 options (" + IntText(count) + "/3 selected)"
  }

  /** `handleCheckboxChange`: for q6, checking appends the option and
      unchecking removes every occurrence of it; the message is computed
      from the list's length before the change, plus or minus one. Other
      names change nothing. */
  function HandleCheckboxChange(v: FormView, name: string, value: string, checked: bool): (r: FormView)
    ensures name != "q6" ==> r == v
    ensures name == "q6" ==> r.formData == v.formData.(q6 := r.formData.q6)
    ensures name == "q6" && checked ==> r.formData.q6 == Some(v.formData.q6.GetOr([]) + [value])
    ensures name == "q6" && !checked ==> r.formData.q6 == Some(RemoveAll(v.formData.q6.GetOr([]), value))
    ensures name == "q6" ==> r.error == v.error && r.isSubmitting == v.isSubmitting && r.isSubmitted == v.isSubmitted
    ensures name == "q6" ==>
      var count := |v.formData.q6.GetOr([])| + (if checked then 1 else -1);
      r.q6Error == (if count >= 3 then "" else Q6CountMessage(count))
  {
    if name != "q6" then v
    else
      var current := v.formData.q6.GetOr([]);
      var next := if checked then current + [value] else RemoveAll(current, value);
      var count := |current| + (if checked then 1 else -1);
      v.(formData := v.formData.(q6 := Some(next)),
         q6Error := if count >= 3 then "" else Q6CountMessage(count))
  }

  /** Removing an option from a list without repeats removes exactly one
      entry when it is there, and keeps the list without repeats. */
  lemma {:induction false} RemoveFromDistinct(s: seq<string>, x: string)
    requires Distinct(s)
    ensures Distinct(RemoveAll(s, x))
    ensures |RemoveAll(s, x)| == if x in s then |s| - 1 else |s|
  {
    if |s| > 0 {
      var init, last := s[..|s| - 1], s[|s| - 1];
      assert s == init + [last];
      assert Distinct(init);
      assert last !in init;
      RemoveFromDistinct(init, x);
      var rest := RemoveAll(init, x);
      assert forall y | y in rest :: y in multiset(init);
      assert last !in rest;
      assert x in s <==> x in init || x == last;
    }
  }

  /** As the page uses it (checking only unselected options and unchecking
      only selected ones), q6 keeps no repeats, the count in the message is
      the list's new length, and the message is empty exactly when the
      validator's q6 rule holds. */
  lemma ToggleCountIsLength(v: FormView, value: string, checked: bool)
    requires Distinct(v.formData.q6.GetOr([]))
    requires checked ==> value !in v.formData.q6.GetOr([])
    requires !checked ==> value in v.formData.q6.GetOr([])
    ensures var r := HandleCheckboxChange(v, "q6", value, checked);
      && Distinct(r.formData.q6.value)
      && |r.formData.q6.value| == |v.formData.q6.GetOr([])| + (if checked then 1 else -1)
      && (r.q6Error == "" <==> Q6Satisfied(r.formData))
  {
    var current := v.formData.q6.GetOr([]);
    var r := HandleCheckboxChange(v, "q6", value, checked);
    if checked {
      assert Distinct(current + [value]) by {
        forall i, j | 0 <= i < j < |current + [value]| ensures (current + [value])[i] != (current + [value])[j] {
          if j == |current| {
            assert (current + [value])[i] == current[i];
          }
        }
      }
    } else {
      RemoveFromDistinct(current, value);
    }
    var count := |current| + (if checked then 1 else -1);
    if count < 3 {
      assert Q6CountMessage(count)[0] == 'P';
    }
  }

  /** Unchecking an option nobody selected still lowers the count in the
      message: from an empty list it reads "(-1/3 selected)". */
  lemma UncheckFromEmpty(v: FormView, value: string)
    requires v.formData.q6 == Some([])
    ensures HandleCheckboxChange(v, "q6", value, false).q6Error == Q6CountMessage(-1)
    ensures HandleCheckboxChange(v, "q6", value, false).formData.q6 == Some([])
  {
  }

  // ---------------------------------------------------------------------------
  // Submitting

  /** The signature pad: missing, or present with its emptiness and the
      image it would export. */
  datatype Pad = NoPad | SignaturePad(isEmpty: bool, dataUrl: string)

  /** The outcome of a submit: the new view, and the payload handed to the
      data layer if one was built. */
  datatype SubmitOutcome = SubmitOutcome(view: FormView, payload: Option<Submission>)

  const SIGN_PLEASE: string := "Please sign the form"
  const SUBMIT_FAILED: string := "An error occurred while submitting the checklist."

  /** The payload: the form's fields with the drawn signature (empty without
      a pad), status "complete", completion 100 and the current time as
      submission date. */
  function Payload(d: Submission, signatureValue: string, now: string): (p: Submission)
    ensures p.status == Present(StatusText(Complete)) && p.completionPercentage == Some(100.0)
    ensures p.signature == Present(signatureValue) && p.submissionDate == Present(now)
    ensures forall k | k != Signature :: FieldOf(p, k) == FieldOf(d, k)
    ensures p.q6 == d.q6 && p.comments == d.comments
  {
    d.(signature := Present(signatureValue),
       status := Present(StatusText(Complete)),
       completionPercentage := Some(100.0),
       submissionDate := Present(now))
  }

  /** `handleSubmit`: an empty pad stops the submit with a message and
      nothing is sent; otherwise the payload goes to `submitChecklist`, whose
      failure message (or a fixed one when it is empty) is shown. */
  function HandleSubmit(v: FormView, pad: Pad, now: string, reply: Reply<seq<Submission>>): (o: SubmitOutcome)
    ensures !o.view.isSubmitting
    ensures o.view.formData == v.formData && o.view.q6Error == v.q6Error
    ensures pad.SignaturePad? && pad.isEmpty ==>
      o.payload.None? && o.view.error == SIGN_PLEASE && o.view.isSubmitted == v.isSubmitted
    ensures !(pad.SignaturePad? && pad.isEmpty) ==>
      o.payload == Some(Payload(v.formData, if pad.SignaturePad? then pad.dataUrl else "", now))
    ensures !(pad.SignaturePad? && pad.isEmpty) ==>
      (reply.Data? ==> o.view.isSubmitted && o.view.error == "") &&
      (reply.Error? ==> o.view.isSubmitted == v.isSubmitted) &&
      (reply.Error? ==> o.view.error == if reply.message != "" then reply.message else SUBMIT_FAILED)
  {
    if pad.SignaturePad? && pad.isEmpty then
      SubmitOutcome(v.(error := SIGN_PLEASE, isSubmitting := false), None)
    else
      var payload := Payload(v.formData, if pad.SignaturePad? then pad.dataUrl else "", now);
      match SubmitChecklist(payload, reply)
      case Success(_) =>
        SubmitOutcome(v.(error := "", isSubmitting := false, isSubmitted := true), Some(payload))
      case Failure(message) =>
        var shown := if message != "" then message else SUBMIT_FAILED;
        SubmitOutcome(v.(error := shown, isSubmitting := false), Some(payload))
  }

  /** The form's own completion calculator ignores the form. */
  function FormCompletion(v: FormView): (p: real)
    ensures p == 100.0
  {
    100.0
  }

  /** The submit does not validate: a blank form with a drawn signature is
      stored as "complete" at 100 percent although the validator rejects it
      and the record-based completion score is below 100. */
  lemma SubmitDoesNotValidate(today: string, image: string, now: string)
    requires image != ""
    ensures var o := HandleSubmit(InitialView(today), SignaturePad(false, image), now, Data([]));
      && o.view.isSubmitted
      && o.payload.Some?
      && o.payload.value.status == Present(StatusText(Complete))
      && FormCompletion(o.view) == 100.0
      && !ValidateChecklistForm(o.payload.value).isValid
      && CalculateCompletionPercentage(o.payload) < 100.0
  {
    var p := Payload(BlankForm(today), image, now);
    assert !Q6Satisfied(p);
  }

  /** The row the store receives keeps the drawn signature, or records that
      none was given when there is no pad. */
  lemma StoredSignature(v: FormView, pad: Pad, now: string, reply: Reply<seq<Submission>>)
    requires !(pad.SignaturePad? && pad.isEmpty)
    ensures var p := HandleSubmit(v, pad, now, reply).payload.value;
      && (pad.SignaturePad? && pad.dataUrl != "" ==> FormatSubmission(p).signature == Present(pad.dataUrl))
      && (pad.NoPad? ==> FormatSubmission(p).signature == Present(NO_SIGNATURE))
  {
  }

  // ---------------------------------------------------------------------------
  // A new form

  /** `handleNewForm`: a blank record, no messages and the thank-you view
      closed. */
  function HandleNewForm(v: FormView, today: string): (r: FormView)
    ensures r.formData == BlankForm(today)
    ensures r.q6Error == "" && r.error == "" && !r.isSubmitted
    ensures r.isSubmitting == v.isSubmitting
  {
    v.(formData := BlankForm(today), isSubmitted := false, error := "", q6Error := "")
  }

  /** After a successful submit, a new form is the initial form again. */
  lemma NewFormAfterSubmit(today: string, v: FormView, pad: Pad, now: string, rows: seq<Submission>)
    ensures HandleNewForm(HandleSubmit(v, pad, now, Data(rows)).view, today) == InitialView(today)
  {
  }
}
