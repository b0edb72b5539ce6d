/** The slice of a Formik form's state that the components read and write:
    field values, errors, touched fields, the free-form `status`, the submit
    counter and the submitting flag, together with the helpers a submit
    handler receives (`setSubmitting`, `setStatus`, `resetForm`, ...). */
module Formik {
  import opened Common
  import opened Json

  /** The status the submit handlers set on success; `Persist` drops the draft on it. */
  const Submitted: string := "submitted"
  /** The status the submit handlers set on failure. */
  const Failed: string := "error"

  datatype FormState = FormState(
    values: map<string, Json>,
    errors: map<string, string>,
    touched: set<string>,
    status: Option<string>,   // `undefined` until a handler sets one
    submitCount: nat,
    isSubmitting: bool)

  /** The state `resetForm()` returns to: the initial values and nothing else. */
  function Initial(values: map<string, Json>): (s: FormState)
    ensures s.values == values && s.status.None? && s.submitCount == 0 && !s.isSubmitting
    ensures s.errors == map[] && s.touched == {}
  {
    FormState(values, map[], {}, None, 0, false)
  }

  /** A string field as a validation schema receives it: Formik hands an empty string
      over as `undefined`. */
  function Prepared(s: string): (r: Option<string>)
    ensures r.None? <==> s == []
    ensures r.Some? ==> r.value == s
  {
    if s == [] then None else Some(s)
  }

  /** A mounted `<Formik>`: its current state and the values it was initialised with. */
  class Form {
    var state: FormState
    const initialValues: map<string, Json>

    constructor (initialValues: map<string, Json>)
      ensures this.initialValues == initialValues
      ensures state == Initial(initialValues)
    {
      this.initialValues := initialValues;
      state := Initial(initialValues);
    }

    /** `dirty`: the values differ from the initial ones. */
    predicate Dirty()
      reads this
    {
      state.values != initialValues
    }

    method SetSubmitting(b: bool)
      modifies this
      ensures state == old(state).(isSubmitting := b)
    {
      state := state.(isSubmitting := b);
    }

    method SetStatus(s: string)
      modifies this
      ensures state == old(state).(status := Some(s))
    {
      state := state.(status := Some(s));
    }

    method ResetForm()
      modifies this
      ensures state == Initial(initialValues)
    {
      state := Initial(initialValues);
    }

    method SetFormikState(s: FormState)
      modifies this
      ensures state == s
    {
      state := s;
    }

    method SetFieldValue(field: string, v: Json)
      modifies this
      ensures state == old(state).(values := old(state).values[field := v])
    {
      state := state.(values := state.values[field := v]);
    }
  }
}
