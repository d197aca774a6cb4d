/**
 * The contact page's form: four text fields checked by a schema (minimum
 * lengths for name, subject and message, a well-formed address for email),
 * submitted only when every rule passes, then cleared once the simulated
 * send is over. Whether an address is well formed is an input predicate.
 */
module Contact {

  datatype FormData = FormData(name: string, email: string, subject: string, message: string)

  /** `defaultValues`: every field empty. */
  const Defaults: FormData := FormData("", "", "", "")

  datatype Field = Name | Email | Subject | Message

  /** A field that failed its rule, with the message shown under it. */
  datatype FieldError = FieldError(field: Field, text: string)

  const NameMin: nat := 2
  const SubjectMin: nat := 5
  const MessageMin: nat := 10

  const NameError: string := "Le nom doit contenir au moins 2 caract\U{00E8}res"
  const EmailError: string := "Adresse email invalide"
  const SubjectError: string := "Le sujet doit contenir au moins 5 caract\U{00E8}res"
  const MessageError: string := "Le message doit contenir au moins 10 caract\U{00E8}res"

  /** One error if the rule fails, none if it holds. */
  function Check(ok: bool, field: Field, text: string): (r: seq<FieldError>)
    ensures r == [] <==> ok
  {
    if ok then [] else [FieldError(field, text)]
  }

  /** `formSchema`: the errors of a form, in field order. */
  function Errors(d: FormData, emailOk: string -> bool): (r: seq<FieldError>)
    ensures |r| <= 4
    ensures r == [] <==> |d.name| >= NameMin && emailOk(d.email) && |d.subject| >= SubjectMin && |d.message| >= MessageMin
  {
    Check(|d.name| >= NameMin, Name, NameError)
    + Check(emailOk(d.email), Email, EmailError)
    + Check(|d.subject| >= SubjectMin, Subject, SubjectError)
    + Check(|d.message| >= MessageMin, Message, MessageError)
  }

  /** The fields that have an error. */
  function FieldsOf(errors: seq<FieldError>): set<Field> {
    set e | e in errors :: e.field
  }

  /** Each field is flagged exactly when its own rule fails, with its own message. */
  lemma ErrorsPerField(d: FormData, emailOk: string -> bool)
    ensures Name in FieldsOf(Errors(d, emailOk)) <==> |d.name| < NameMin
    ensures Email in FieldsOf(Errors(d, emailOk)) <==> !emailOk(d.email)
    ensures Subject in FieldsOf(Errors(d, emailOk)) <==> |d.subject| < SubjectMin
    ensures Message in FieldsOf(Errors(d, emailOk)) <==> |d.message| < MessageMin
    ensures forall e :: e in Errors(d, emailOk) ==>
      e.text == match e.field
        case Name => NameError
        case Email => EmailError
        case Subject => SubjectError
        case Message => MessageError
  {
    var r := Errors(d, emailOk);
    var n := Check(|d.name| >= NameMin, Name, NameError);
    var e := Check(emailOk(d.email), Email, EmailError);
    var s := Check(|d.subject| >= SubjectMin, Subject, SubjectError);
    var m := Check(|d.message| >= MessageMin, Message, MessageError);
    assert r == n + e + s + m;
    assert forall x :: x in r <==> x in n || x in e || x in s || x in m;
    if |d.name| < NameMin { assert n[0] in r; }
    if !emailOk(d.email) { assert e[0] in r; }
    if |d.subject| < SubjectMin { assert s[0] in r; }
    if |d.message| < MessageMin { assert m[0] in r; }
  }

  /** The empty form never passes: name, subject and message are all too short. */
  lemma DefaultsRejected(emailOk: string -> bool)
    ensures Errors(Defaults, emailOk) != []
    ensures |Errors(Defaults, emailOk)| >= 3
  {
  }

  /** The form's state: the field values, the errors on display and `isSubmitting`. */
  class ContactForm {
    var values: FormData
    var errors: seq<FieldError>
    var isSubmitting: bool

    constructor ()
      ensures values == Defaults && errors == [] && !isSubmitting
    {
      values := Defaults;
      errors := [];
      isSubmitting := false;
    }

    /** Typing into the fields. */
    method SetValues(d: FormData)
      modifies this`values
      ensures values == d
    {
      values := d;
    }

    /**
     * `form.handleSubmit(onSubmit)` up to the simulated wait. While a send is
     * under way the submit button is disabled and nothing happens. Otherwise,
     * with an error the errors are shown and nothing is sent; without one
     * `isSubmitting` turns on and the values are what is sent.
     */
    method BeginSubmit(emailOk: string -> bool) returns (sent: bool)
      modifies this
      ensures values == old(values)
      ensures old(isSubmitting) ==> !sent && isSubmitting && errors == old(errors)
      ensures !old(isSubmitting) ==> errors == Errors(old(values), emailOk)
      ensures sent <==> !old(isSubmitting) && Errors(old(values), emailOk) == []
      ensures sent ==> isSubmitting
      ensures !sent ==> isSubmitting == old(isSubmitting)
    {
      if isSubmitting {
        return false;
      }
      errors := Errors(values, emailOk);
      sent := errors == [];
      if sent {
        isSubmitting := true;
      }
    }

    /** After the wait: `form.reset()` back to the defaults, then `setIsSubmitting(false)`. */
    method FinishSubmit()
      modifies this
      ensures values == Defaults && errors == [] && !isSubmitting
    {
      values := Defaults;
      errors := [];
      isSubmitting := false;
    }
  }

  /** A valid form goes through both halves of a submit and ends empty and idle; an invalid one sends nothing. */
  method SubmitScenario(d: FormData, emailOk: string -> bool) returns (sent: bool, form: ContactForm)
    ensures sent <==> Errors(d, emailOk) == []
    ensures sent ==> form.values == Defaults && !form.isSubmitting
    ensures !sent ==> form.values == d && !form.isSubmitting && form.errors == Errors(d, emailOk)
  {
    form := new ContactForm();
    form.SetValues(d);
    sent := form.BeginSubmit(emailOk);
    if sent {
      assert form.isSubmitting;
      form.FinishSubmit();
    }
  }
}
