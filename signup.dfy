/** The sign-up form: the checks its schema makes (an optional name, a
    required e-mail, a password typed twice), the payload sent to the
    `signup` mutation, and what the submit handler does to the form, the
    toasts and the navigation. */
module Signup {
  import opened Common
  import opened Formik
  import opened Toasts
  import PersistForm

  const EmailRequired: string := "E-mail обязателен!"
  const EmailInvalid: string := "E-mail некорректен!"
  const PasswordRequired: string := "Пароль обязателен"
  /** The confirmation's message ends with `!`, the password's does not. */
  const ConfirmRequired: string := "Пароль обязателен!"
  const Mismatch: string := "Пароли не совпадают!"
  const Welcome: string := "Успешно зарегестрировались!"
  /** The key `<Persist name='signup-form' />` keeps the draft under. */
  const DraftKey: string := "signup-form"

  /** The form's values; the name may be `undefined`, as its type allows. */
  datatype SignupValues = SignupValues(name: Option<string>, email: string, password: string, confirm: string)

  datatype Field = Name | Email | Password | Confirm

  /** A schema issue: the field it is reported on and its message. */
  datatype Issue = Issue(path: Field, message: string)

  // ---------------------------------------------------------------------
  // The schema

  /** The issues the schema reports, in the order it checks: the fields in
      declaration order, then the two password rules, first on `confirm` and
      then on `password`. A missing required field ends the object check, so
      the rules run only when the e-mail and both passwords are present. The
      name is optional and never reported. */
  function Validate(v: SignupValues, isEmail: string -> bool): seq<Issue> {
    var email, password, confirm := Prepared(v.email), Prepared(v.password), Prepared(v.confirm);
    var emailIssues :=
      if email.None? then [Issue(Email, EmailRequired)]
      else if isEmail(email.value) then [] else [Issue(Email, EmailInvalid)];
    var passwordIssues := if password.None? then [Issue(Password, PasswordRequired)] else [];
    var confirmIssues := if confirm.None? then [Issue(Confirm, ConfirmRequired)] else [];
    var fieldIssues := emailIssues + passwordIssues + confirmIssues;
    if email.None? || password.None? || confirm.None? then fieldIssues
    else if password.value == confirm.value then fieldIssues
    else fieldIssues + [Issue(Confirm, Mismatch), Issue(Password, Mismatch)]
  }

  /** What a valid sign-up is, field by field. */
  predicate ValidSignup(v: SignupValues, isEmail: string -> bool) {
    && v.email != [] && isEmail(v.email)
    && v.password != [] && v.confirm != []
    && v.password == v.confirm
  }

  /** The schema reports nothing exactly for a valid sign-up. */
  lemma ValidateIff(v: SignupValues, isEmail: string -> bool)
    ensures Validate(v, isEmail) == [] <==> ValidSignup(v, isEmail)
  {
  }

  /** The mismatch is reported on `confirm` exactly when the e-mail and both
      passwords are given and the passwords differ, and then on `password` too,
      as the last two issues. */
  lemma MismatchOnBoth(v: SignupValues, isEmail: string -> bool)
    ensures var differ := v.email != [] && v.password != [] && v.confirm != [] && v.password != v.confirm;
      && (Issue(Confirm, Mismatch) in Validate(v, isEmail) <==> differ)
      && (Issue(Password, Mismatch) in Validate(v, isEmail) <==> differ)
    ensures var r := Validate(v, isEmail);
      v.email != [] && v.password != [] && v.confirm != [] && v.password != v.confirm ==>
        |r| >= 2 && r[|r| - 2] == Issue(Confirm, Mismatch) && r[|r| - 1] == Issue(Password, Mismatch)
  {
    var r := Validate(v, isEmail);
    if !(v.email != [] && v.password != [] && v.confirm != [] && v.password != v.confirm) {
      forall i | 0 <= i < |r|
        ensures r[i].message != Mismatch
      {
      }
    }
  }

  /** The name is never reported, whatever it holds. */
  lemma NameNeverReported(v: SignupValues, isEmail: string -> bool)
    ensures forall i :: 0 <= i < |Validate(v, isEmail)| ==> Validate(v, isEmail)[i].path != Name
    ensures forall n :: Validate(v.(name := n), isEmail) == Validate(v, isEmail)
  {
  }

  /** A missing e-mail is reported as required, and is never also reported as malformed. */
  lemma MissingEmailRequired(v: SignupValues, isEmail: string -> bool)
    requires v.email == []
    ensures Validate(v, isEmail)[0] == Issue(Email, EmailRequired)
    ensures Issue(Email, EmailInvalid) !in Validate(v, isEmail)
  {
    var r := Validate(v, isEmail);
    forall i | 0 <= i < |r|
      ensures r[i] != Issue(Email, EmailInvalid)
    {
    }
  }

  // ---------------------------------------------------------------------
  // The payload

  /** The mutation's `signupInput`. */
  datatype SignupInput = SignupInput(email: string, name: string, password: string)

  /** The payload built from the submitted values. */
  function Payload(v: SignupValues): (r: SignupInput)
    ensures r.email == v.email && r.password == v.password
    ensures v.name.None? ==> r.name == ""
    ensures v.name.Some? ==> r.name == v.name.value
  {
    SignupInput(v.email, match v.name case Some(n) => n case None => "", v.password)
  }

  /** The confirmation is never sent, and an absent name is sent as an empty one. */
  lemma PayloadDropsConfirm(v: SignupValues, confirm: string)
    ensures Payload(v.(confirm := confirm)) == Payload(v)
    ensures Payload(v.(name := None)) == Payload(v.(name := Some("")))
  {
  }

  /** A valid sign-up sends a well-formed e-mail and the password typed twice. */
  lemma PayloadOfValid(v: SignupValues, isEmail: string -> bool)
    requires Validate(v, isEmail) == []
    ensures Payload(v).email != [] && isEmail(Payload(v).email)
    ensures Payload(v).password != [] && Payload(v).password == v.confirm
  {
    ValidateIff(v, isEmail);
  }

  // ---------------------------------------------------------------------
  // Submitting

  /** The sign-up page: its Formik form, whether the form ref is attached,
      the toast id ref, and what was sent, shown and navigated to. */
  class SignupPage {
    const form: Form
    /** `formRef.current !== null`. */
    var attached: bool
    var toastId: Option<nat>
    /** The descriptions of the toasts shown, in order. */
    var toasts: seq<string>
    /** The ids of the toasts closed, in order. */
    var closedToasts: seq<nat>
    /** The payloads sent to the mutation, in order. */
    var sent: seq<SignupInput>
    /** The paths navigated to, in order. */
    var navigations: seq<string>
    /** How many times the current user was fetched again. */
    var refetches: nat

    constructor (form: Form, attached: bool)
      ensures this.form == form && this.attached == attached && toastId.None?
      ensures toasts == [] && closedToasts == [] && sent == [] && navigations == [] && refetches == 0
    {
      this.form := form;
      this.attached := attached;
      toastId := None;
      toasts := [];
      closedToasts := [];
      sent := [];
      navigations := [];
      refetches := 0;
    }

    /** The mount effect: a signed-in user is sent to `/`. */
    method DidMount(signedIn: bool)
      modifies this
      ensures navigations == old(navigations) + (if signedIn then ["/"] else [])
      ensures sent == old(sent) && toasts == old(toasts) && toastId == old(toastId)
      ensures closedToasts == old(closedToasts) && refetches == old(refetches) && attached == old(attached)
    {
      if signedIn {
        navigations := navigations + ["/"];
      }
    }

    /** Closes the current toast when its id is truthy, then shows a new one
        and keeps its id. */
    method ReplaceToast(description: string, newId: nat)
      modifies this
      ensures closedToasts == old(closedToasts) + (if Truthy(old(toastId)) then [old(toastId).value] else [])
      ensures toasts == old(toasts) + [description] && toastId == Some(newId)
      ensures sent == old(sent) && navigations == old(navigations)
      ensures refetches == old(refetches) && attached == old(attached)
    {
      if Truthy(toastId) {
        closedToasts := closedToasts + [toastId.value];
      }
      toasts := toasts + [description];
      toastId := Some(newId);
    }

    /** `handleSubmit`: with no form ref nothing happens. Otherwise it sends
        the payload; on success resets the form, sets the status `"submitted"`,
        fetches the user again, shows the welcome toast and goes to `/`; on
        failure shows a toast for a GraphQL error or an `Error` and sets the
        status `"error"`; in every case clears `isSubmitting`. */
    method HandleSubmit(values: SignupValues, outcome: Outcome, newToastId: nat)
      modifies this, form
      ensures !attached ==>
        && form.state == old(form.state) && sent == old(sent) && toasts == old(toasts)
        && toastId == old(toastId) && closedToasts == old(closedToasts)
        && navigations == old(navigations) && refetches == old(refetches)
      ensures attached ==> sent == old(sent) + [Payload(values)] && !form.state.isSubmitting
      ensures attached && outcome.Created? ==>
        && form.state == Initial(form.initialValues).(status := Some(Submitted))
        && toasts == old(toasts) + [Welcome] && toastId == Some(newToastId)
        && closedToasts == old(closedToasts) + (if Truthy(old(toastId)) then [old(toastId).value] else [])
        && navigations == old(navigations) + ["/"] && refetches == old(refetches) + 1
      ensures attached && !outcome.Created? ==>
        && form.state == old(form.state).(status := Some(Failed), isSubmitting := false)
        && navigations == old(navigations) && refetches == old(refetches)
      ensures attached && (outcome.GraphQLFailure? || outcome.ErrorFailure?) ==>
        && toasts == old(toasts) + [outcome.message] && toastId == Some(newToastId)
        && closedToasts == old(closedToasts) + (if Truthy(old(toastId)) then [old(toastId).value] else [])
      ensures attached && outcome.OtherFailure? ==>
        toasts == old(toasts) && toastId == old(toastId) && closedToasts == old(closedToasts)
      ensures attached == old(attached)
    {
      if !attached {
        return;
      }
      sent := sent + [Payload(values)];
      if outcome.Created? {
        form.ResetForm();
        form.SetStatus(Submitted);
        refetches := refetches + 1;
        ReplaceToast(Welcome, newToastId);
        navigations := navigations + ["/"];
      } else {
        if outcome.GraphQLFailure? || outcome.ErrorFailure? {
          ReplaceToast(outcome.message, newToastId);
        }
        form.SetStatus(Failed);
      }
      form.SetSubmitting(false);
    }

    /** The state a successful sign-up leaves, seen by the form's
        `<Persist name='signup-form' />` on its next update, removes the stored
        draft and leaves every other stored form as it was. */
    lemma CreatedClearsDraft(items: map<string, FormState>, prev: FormState)
      requires prev.status != Some(Submitted)
      ensures var after := PersistForm.AfterUpdate(items, DraftKey, [], prev,
                                                   Initial(form.initialValues).(status := Some(Submitted)));
        && DraftKey !in after
        && forall k :: k != DraftKey ==> (k in after <==> k in items)
    {
      PersistForm.SubmittedClearsDraft(items, DraftKey, [], prev, Initial(form.initialValues).(status := Some(Submitted)));
    }
  }
}
