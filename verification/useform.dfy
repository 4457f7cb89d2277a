/** The generic form-state hook: field values, error messages and touched
    marks, with one transition per handler. Each handler is applied to the
    state of the render it was created in, one event at a time. */
module UseForm {
  import opened Util

  /** A form value: input text, a checkbox's checked state, or the list a
      multi-select checkbox group builds. */
  datatype FormValue = Text(text: string) | Flag(checked: bool) | List(items: seq<string>)

  datatype FormState = FormState(
    values: map<string, FormValue>,
    errors: map<string, string>,
    touched: map<string, bool>,
    initial: map<string, FormValue>)

  /** The hook's first state. */
  function Init(initialValues: map<string, FormValue>): (s: FormState)
    ensures s.values == initialValues && s.initial == initialValues
    ensures s.errors == map[] && s.touched == map[]
  {
    FormState(initialValues, map[], map[], initialValues)
  }

  /** Touched marks are only ever set to true. */
  predicate TouchedMarksTrue(s: FormState)
  {
    forall k | k in s.touched :: s.touched[k]
  }

  /** The bookkeeping both change handlers share: a non-empty error under
      `name` is deleted (an empty one is falsy and stays), and `name` is
      marked touched. */
  function ClearAndTouch(s: FormState, name: string): (r: FormState)
    ensures r.values == s.values && r.initial == s.initial
    ensures name in s.errors && s.errors[name] != "" ==> name !in r.errors
    ensures !(name in s.errors && s.errors[name] != "") ==> r.errors == s.errors
    ensures forall k | k != name :: (k in r.errors <==> k in s.errors)
    ensures forall k | k != name && k in r.errors :: r.errors[k] == s.errors[k]
    ensures name in r.touched && r.touched[name]
    ensures forall k | k != name :: (k in r.touched <==> k in s.touched)
    ensures forall k | k != name && k in r.touched :: r.touched[k] == s.touched[k]
  {
    var errors := if name in s.errors && s.errors[name] != "" then s.errors - {name} else s.errors;
    var touched := if !(name in s.touched && s.touched[name]) then s.touched[name := true] else s.touched;
    s.(errors := errors, touched := touched)
  }

  /** `handleChange`: a checkbox stores its checked state, any other input
      its text. */
  function HandleChange(s: FormState, name: string, value: string, inputType: string, checked: bool): (r: FormState)
    ensures name in r.values
    ensures inputType == "checkbox" ==> r.values[name] == Flag(checked)
    ensures inputType != "checkbox" ==> r.values[name] == Text(value)
    ensures forall k | k != name :: (k in r.values <==> k in s.values)
    ensures forall k | k != name && k in r.values :: r.values[k] == s.values[k]
    ensures r == ClearAndTouch(s, name).(values := r.values)
  {
    var v := if inputType == "checkbox" then Flag(checked) else Text(value);
    ClearAndTouch(s.(values := s.values[name := v]), name)
  }

  /** The list under `name`, or the empty list when the value there is not
      an array. */
  function CurrentArray(values: map<string, FormValue>, name: string): seq<string>
  {
    if name in values && values[name].List? then values[name].items else []
  }

  /** `handleCheckboxArrayChange`: checking appends `value` to the list,
      unchecking removes every occurrence of it and keeps the rest in
      order. */
  function HandleCheckboxArrayChange(s: FormState, name: string, value: string, checked: bool): (r: FormState)
    ensures name in r.values && r.values[name].List?
    ensures checked ==> r.values[name].items == CurrentArray(s.values, name) + [value]
    ensures !checked ==> value !in r.values[name].items
    ensures !checked ==> multiset(r.values[name].items) == multiset(CurrentArray(s.values, name))[value := 0]
    ensures !checked ==> IsSubsequence(r.values[name].items, CurrentArray(s.values, name))
    ensures forall k | k != name :: (k in r.values <==> k in s.values)
    ensures forall k | k != name && k in r.values :: r.values[k] == s.values[k]
    ensures r == ClearAndTouch(s, name).(values := r.values)
  {
    var current := CurrentArray(s.values, name);
    var next := if checked then current + [value] else RemoveAll(current, value);
    ClearAndTouch(s.(values := s.values[name := List(next)]), name)
  }

  /** `setFormErrors`: the error map is replaced wholesale. */
  function SetFormErrors(s: FormState, newErrors: map<string, string>): (r: FormState)
    ensures r.errors == newErrors
    ensures r.values == s.values && r.touched == s.touched && r.initial == s.initial
  {
    s.(errors := newErrors)
  }

  /** `resetForm`: back to the initial values with no errors and nothing
      touched. */
  function ResetForm(s: FormState): (r: FormState)
    ensures r == Init(s.initial)
  {
    FormState(s.initial, map[], map[], s.initial)
  }

  // ---------------------------------------------------------------------------
  // Properties across handlers

  /** Checking a value the list does not hold and then unchecking it leaves
      the list as it was. */
  lemma CheckThenUncheck(s: FormState, name: string, value: string)
    requires value !in CurrentArray(s.values, name)
    ensures var r := HandleCheckboxArrayChange(HandleCheckboxArrayChange(s, name, value, true), name, value, false);
      r.values[name] == List(CurrentArray(s.values, name))
  {
    RemoveAllAfterAppend(CurrentArray(s.values, name), value);
  }

  /** Unchecking twice is the same as unchecking once. */
  lemma UncheckIdempotent(s: FormState, name: string, value: string)
    ensures var once := HandleCheckboxArrayChange(s, name, value, false);
      HandleCheckboxArrayChange(once, name, value, false).values == once.values
  {
    var items := RemoveAll(CurrentArray(s.values, name), value);
    ArrayChangeValues(s, name, value, false);
    var once := HandleCheckboxArrayChange(s, name, value, false);
    assert CurrentArray(once.values, name) == items;
    RemoveAllAbsent(items, value);
    ArrayChangeValues(once, name, value, false);
  }

  /** What the array handler does to the values: only `name` changes. */
  lemma ArrayChangeValues(s: FormState, name: string, value: string, checked: bool)
    ensures var current := CurrentArray(s.values, name);
      HandleCheckboxArrayChange(s, name, value, checked).values
        == s.values[name := List(if checked then current + [value] else RemoveAll(current, value))]
  {
  }

  /** No handler sets a touched mark to false, and the change handlers
      never add an error. */
  lemma HandlersKeepInvariants(s: FormState, name: string, value: string, inputType: string, checked: bool)
    requires TouchedMarksTrue(s)
    ensures TouchedMarksTrue(HandleChange(s, name, value, inputType, checked))
    ensures TouchedMarksTrue(HandleCheckboxArrayChange(s, name, value, checked))
    ensures TouchedMarksTrue(ResetForm(s))
    ensures HandleChange(s, name, value, inputType, checked).errors.Keys <= s.errors.Keys
    ensures HandleCheckboxArrayChange(s, name, value, checked).errors.Keys <= s.errors.Keys
  {
  }

  /** Whatever the handlers did, a reset forgets it: resetting after a
      change gives the same state as resetting before it. */
  lemma ResetForgetsChanges(s: FormState, name: string, value: string, inputType: string, checked: bool, errors: map<string, string>)
    ensures ResetForm(HandleChange(s, name, value, inputType, checked)) == ResetForm(s)
    ensures ResetForm(HandleCheckboxArrayChange(s, name, value, checked)) == ResetForm(s)
    ensures ResetForm(SetFormErrors(s, errors)) == ResetForm(s)
    ensures ResetForm(ResetForm(s)) == ResetForm(s)
  {
  }
}
