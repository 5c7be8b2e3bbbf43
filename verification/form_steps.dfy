/** The three-step lead form shared by both client components: the values it
    holds, its state, and what a transition asks the outside world to do. */
module LeadForm {
  import opened Wrappers
  import Json

  /** Every field is a string; the form starts with all of them empty. */
  datatype FormValues = FormValues(
    fullName: string,
    mobileNumber: string,
    email: string,
    panCard: string,
    occupationType: string,
    companyName: string,
    monthlySalary: string)

  const Blank: FormValues := FormValues("", "", "", "", "", "", "")

  /** `currentStep`, `acceptedTerms` and the form's values. */
  datatype FormState = FormState(step: int, acceptedTerms: bool, values: FormValues)

  const Start: FormState := FormState(1, false, Blank)

  predicate ValidStep(st: FormState) {
    1 <= st.step <= 3
  }

  /** What a transition does besides changing the state: nothing, the schema's
      errors shown without calling the submit handler, an error the handler sets
      on a field, the "Please Accept Terms" toast, or the POST of a body. */
  datatype Effect =
    | NoEffect
    | Invalid
    | FieldError(field: string, message: string)
    | TermsToast
    | Mutate(body: Json.Object)

  /** The inputs the form reacts to: a submit, the outcome of the POST, the
      Back button, the terms checkbox, and typing into the fields. */
  datatype Event = Submit | Succeeded | Failed | GoBack | CheckTerms(accepted: bool) | Edit(values: FormValues)

  /** The Back buttons: shown on step 2 (to step 1) and on step 3 (to step 2). */
  function Back(st: FormState): (r: FormState)
    ensures st.step == 2 ==> r == st.(step := 1)
    ensures st.step == 3 ==> r == st.(step := 2)
    ensures st.step != 2 && st.step != 3 ==> r == st
    ensures ValidStep(st) ==> ValidStep(r)
  {
    if st.step == 2 || st.step == 3 then st.(step := st.step - 1) else st
  }

  /** The values as they are held, every field a JSON string. */
  function ValuesBody(v: FormValues): (body: Json.Object)
    ensures Json.Get(body, "mobileNumber") == Some(Json.Str(v.mobileNumber))
    ensures Json.Get(body, "occupationType") == Some(Json.Str(v.occupationType))
    ensures Json.Get(body, "monthlySalary") == Some(Json.Str(v.monthlySalary))
  {
    map[
      "fullName" := Json.Str(v.fullName), "mobileNumber" := Json.Str(v.mobileNumber),
      "email" := Json.Str(v.email), "panCard" := Json.Str(v.panCard),
      "occupationType" := Json.Str(v.occupationType), "companyName" := Json.Str(v.companyName),
      "monthlySalary" := Json.Str(v.monthlySalary)]
  }

  /** One event applied to a form, given the states its submit handler and its
      `onSuccess` lead to: a failed POST only shows a toast, Back moves one step
      down, the checkbox sets the terms and typing replaces the values. */
  function OnEvent(submitted: FormState, succeeded: FormState, st: FormState, e: Event): (r: FormState)
    ensures e.Failed? ==> r == st
    ensures e.CheckTerms? ==> r == st.(acceptedTerms := e.accepted)
    ensures e.Edit? ==> r == st.(values := e.values)
    ensures ValidStep(st) && ValidStep(submitted) && ValidStep(succeeded) ==> ValidStep(r)
  {
    match e
    case Submit => submitted
    case Succeeded => succeeded
    case Failed => st
    case GoBack => Back(st)
    case CheckTerms(b) => st.(acceptedTerms := b)
    case Edit(v) => st.(values := v)
  }

  /** A sequence of events applied in order by a form's transition function. */
  function Run(apply: (FormState, Event) -> FormState, st: FormState, events: seq<Event>): FormState
    decreases |events|
  {
    if |events| == 0 then st else Run(apply, apply(st, events[0]), events[1..])
  }

  /** If no single event moves the step out of {1, 2, 3}, no sequence of events does. */
  lemma {:induction false} StepStaysInRange(apply: (FormState, Event) -> FormState, st: FormState, events: seq<Event>)
    requires forall s: FormState, e: Event :: ValidStep(s) ==> ValidStep(apply(s, e))
    requires ValidStep(st)
    ensures ValidStep(Run(apply, st, events))
    decreases |events|
  {
    if |events| > 0 {
      StepStaysInRange(apply, apply(st, events[0]), events[1..]);
    }
  }
}

/** `onSubmit` of client/src/components/LoanForm.tsx. react-hook-form runs the
    zod schema over the whole form on every submit and calls `onSubmit` only
    with the schema's output, which is also what is posted. */
module LoanFormSteps {
  import opened Wrappers
  import opened LeadForm
  import ClientValidation
  import Schema

  /** The form's values as the schema sees them: every field a string. */
  function InputOf(v: FormValues): ClientValidation.FormInput {
    ClientValidation.FormInput(Some(v.fullName), Some(v.mobileNumber), Some(v.email), Some(v.panCard),
                               Some(v.occupationType), Some(v.companyName), Some(v.monthlySalary))
  }

  /** The handler on the schema's output `out`. Below step 3 a submit advances
      one step unless the current step's guard on the held values fails (an
      empty mobile number on step 1, an empty occupation type on step 2), in
      which case a field error is set and the step stays. On step 3 the output
      is posted only when the terms are accepted. */
  function OnSubmit(st: FormState, out: ClientValidation.LoanFormOutput): (r: (FormState, Effect))
    ensures r.1.Mutate? <==> st.step >= 3 && st.acceptedTerms
    ensures r.1.Mutate? ==> r.1.body == ClientValidation.OutputBody(out)
    ensures r.1.FieldError? <==>
      (st.step == 1 && st.values.mobileNumber == "") || (st.step == 2 && st.values.occupationType == "")
    ensures st.step == 1 && st.values.mobileNumber == "" ==>
      r == (st, FieldError("mobileNumber", "Mobile number is required"))
    ensures st.step == 2 && st.values.occupationType == "" ==>
      r == (st, FieldError("occupationType", "Occupation type is required"))
    ensures st.step < 3 && !r.1.FieldError? ==> r == (st.(step := st.step + 1), NoEffect)
    ensures st.step >= 3 ==> r.0 == st
    ensures st.step >= 3 && !st.acceptedTerms ==> r.1 == TermsToast
  {
    if st.step < 3 then
      if st.step == 1 && st.values.mobileNumber == "" then
        (st, FieldError("mobileNumber", "Mobile number is required"))
      else if st.step == 2 && st.values.occupationType == "" then
        (st, FieldError("occupationType", "Occupation type is required"))
      else (st.(step := st.step + 1), NoEffect)
    else if !st.acceptedTerms then (st, TermsToast)
    else (st, Mutate(ClientValidation.OutputBody(out)))
  }

  /** A submit: the schema first, then the handler. The step-1 guard can never
      fire, because the schema already refuses a mobile number shorter than 10;
      whatever is posted passes the server's insert schema. */
  function HandleSubmit(st: FormState, isEmail: string -> bool): (r: (FormState, Effect))
    ensures r.1.Invalid? <==> ClientValidation.ParseLoanForm(InputOf(st.values), isEmail).Failure?
    ensures r.1.Invalid? ==> r.0 == st
    ensures r.1.FieldError? ==> st.step == 2 && st.values.occupationType == "" && r.0 == st
    ensures r.1.Mutate? <==>
      st.step >= 3 && st.acceptedTerms && ClientValidation.ParseLoanForm(InputOf(st.values), isEmail).Success?
    ensures r.1.Mutate? ==>
      && r.0 == st
      && Schema.ParseInsertLead(r.1.body).Success?
      && Schema.ParseInsertLead(r.1.body).value.mobileNumber == Some(st.values.mobileNumber)
      && Schema.ParseInsertLead(r.1.body).value.occupationType == Some(st.values.occupationType)
    ensures ValidStep(st) ==> ValidStep(r.0)
  {
    match ClientValidation.ParseLoanForm(InputOf(st.values), isEmail)
    case Failure(_) => (st, Invalid)
    case Success(out) =>
      assert ClientValidation.MobileIssues(Some(st.values.mobileNumber)) == [];
      ClientValidation.ClientAcceptedIsServerAccepted(InputOf(st.values), isEmail);
      OnSubmit(st, out)
  }

  /** `onSuccess`: `form.reset()`, back to step 1, terms cleared. */
  function OnSuccess(st: FormState): (r: FormState)
    ensures r == Start
  {
    FormState(1, false, Blank)
  }

  /** One event applied to the state, with this form's submit and `onSuccess`. */
  function Apply(st: FormState, e: Event, isEmail: string -> bool): FormState {
    OnEvent(HandleSubmit(st, isEmail).0, OnSuccess(st), st, e)
  }

  /** A form the schema accepts, with an occupation type chosen, reaches the
      POST with three submits and a ticked box, and posts the schema's output. */
  lemma ThreeSubmitsPost(v: FormValues, isEmail: string -> bool)
    requires ClientValidation.ParseLoanForm(InputOf(v), isEmail).Success? && v.occupationType != ""
    ensures
      var apply := (s, e) => Apply(s, e, isEmail);
      var st := Run(apply, Start.(values := v), [Submit, Submit, CheckTerms(true)]);
      && st == FormState(3, true, v)
      && HandleSubmit(st, isEmail).1 == Mutate(ClientValidation.OutputBody(ClientValidation.ParseLoanForm(InputOf(v), isEmail).value))
  {
    var apply := (s, e) => Apply(s, e, isEmail);
    assert ClientValidation.MobileIssues(Some(v.mobileNumber)) == [];
    var s0 := Start.(values := v);
    var s1 := Apply(s0, Submit, isEmail);
    assert s1 == s0.(step := 2);
    var s2 := Apply(s1, Submit, isEmail);
    assert s2 == s0.(step := 3);
    var s3 := Apply(s2, CheckTerms(true), isEmail);
    assert s3 == FormState(3, true, v);
    assert Run(apply, s0, [Submit, Submit, CheckTerms(true)]) == Run(apply, s1, [Submit, CheckTerms(true)]);
    assert Run(apply, s1, [Submit, CheckTerms(true)]) == Run(apply, s2, [CheckTerms(true)]);
    assert Run(apply, s2, [CheckTerms(true)]) == Run(apply, s3, []);
  }
}

/** `handleSubmit` of client/src/components/FormikLoanForm.tsx. Formik runs the
    Yup schema over the whole form on every submit and calls `handleSubmit`
    with the held values, which are posted as they are. */
module FormikSteps {
  import opened Wrappers
  import opened LeadForm
  import LoanFormSteps
  import YupValidation
  import ClientValidation
  import Schema

  /** Below step 3 a submit always advances one step. On step 3 the values are
      posted only when the terms are accepted, and the form is reset right away. */
  function OnSubmit(st: FormState): (r: (FormState, Effect))
    ensures r.1.Mutate? <==> st.step >= 3 && st.acceptedTerms
    ensures r.1.Mutate? ==> r.1.body == ValuesBody(st.values) && r.0 == st.(values := Blank)
    ensures st.step < 3 ==> r == (st.(step := st.step + 1), NoEffect)
    ensures st.step >= 3 && !st.acceptedTerms ==> r == (st, TermsToast)
  {
    if st.step < 3 then (st.(step := st.step + 1), NoEffect)
    else if !st.acceptedTerms then (st, TermsToast)
    else (st.(values := Blank), Mutate(ValuesBody(st.values)))
  }

  /** A submit: the Yup schema over every field first, then the handler. */
  function HandleSubmit(st: FormState, isEmail: string -> bool): (r: (FormState, Effect))
    ensures r.1.Invalid? <==> !YupValidation.Valid(st.values, isEmail)
    ensures r.1.Invalid? ==> r.0 == st
    ensures YupValidation.Valid(st.values, isEmail) && st.step < 3 ==> r == (st.(step := st.step + 1), NoEffect)
    ensures r.1.Mutate? <==> YupValidation.Valid(st.values, isEmail) && st.step >= 3 && st.acceptedTerms
    ensures r.1.Mutate? ==> r == (st.(values := Blank), Mutate(ValuesBody(st.values)))
    ensures ValidStep(st) ==> ValidStep(r.0)
  {
    var valid := YupValidation.Valid(st.values, isEmail);
    Gate(st, valid)
  }

  /** The submit once the schema's verdict `valid` is known. */
  function Gate(st: FormState, valid: bool): (r: (FormState, Effect))
    ensures r.1.Invalid? <==> !valid
    ensures r.1.Invalid? ==> r.0 == st
    ensures valid && st.step < 3 ==> r == (st.(step := st.step + 1), NoEffect)
    ensures r.1.Mutate? <==> valid && st.step >= 3 && st.acceptedTerms
    ensures r.1.Mutate? ==> r == (st.(values := Blank), Mutate(ValuesBody(st.values)))
    ensures ValidStep(st) ==> ValidStep(r.0)
  {
    if !valid then (st, Invalid) else OnSubmit(st)
  }

  /** `onSuccess`: back to step 1 with the terms cleared; the values were reset at submit. */
  function OnSuccess(st: FormState): (r: FormState)
    ensures r.step == 1 && !r.acceptedTerms && r.values == st.values
  {
    st.(step := 1, acceptedTerms := false)
  }

  /** One event applied to the state, with this form's submit and `onSuccess`. */
  function Apply(st: FormState, e: Event, isEmail: string -> bool): FormState {
    OnEvent(HandleSubmit(st, isEmail).0, OnSuccess(st), st, e)
  }

  /** An empty occupation type, asked for only on step 2, already holds the
      Formik form on step 1: every submit is refused and nothing moves. */
  lemma EmptyOccupationHoldsForm(st: FormState, isEmail: string -> bool)
    requires st.values.occupationType == ""
    ensures HandleSubmit(st, isEmail) == (st, Invalid)
  {
    assert !YupValidation.OccupationOk(st.values.occupationType);
  }

  /** Both forms, whatever happens, keep the step within {1, 2, 3}. */
  lemma StepsStayInRange(st: FormState, events: seq<Event>, isEmail: string -> bool)
    requires ValidStep(st)
    ensures ValidStep(Run((s, e) => LoanFormSteps.Apply(s, e, isEmail), st, events))
    ensures ValidStep(Run((s, e) => Apply(s, e, isEmail), st, events))
  {
    forall s: FormState, e: Event | ValidStep(s)
      ensures ValidStep(LoanFormSteps.Apply(s, e, isEmail)) && ValidStep(Apply(s, e, isEmail))
    {
      assert ValidStep(LoanFormSteps.HandleSubmit(s, isEmail).0) && ValidStep(HandleSubmit(s, isEmail).0);
    }
    StepStaysInRange((s, e) => LoanFormSteps.Apply(s, e, isEmail), st, events);
    StepStaysInRange((s, e) => Apply(s, e, isEmail), st, events);
  }

  /** After a successful POST both forms are back where they started: step 1,
      terms cleared, every field empty. */
  lemma BothFormsRestartAfterSuccess(st: FormState, isEmail: string -> bool)
    requires st.step == 3 && st.acceptedTerms
    requires ClientValidation.ParseLoanForm(LoanFormSteps.InputOf(st.values), isEmail).Success?
    requires YupValidation.Valid(st.values, isEmail)
    ensures LoanFormSteps.HandleSubmit(st, isEmail).1.Mutate? && HandleSubmit(st, isEmail).1.Mutate?
    ensures LoanFormSteps.Apply(LoanFormSteps.Apply(st, Submit, isEmail), Succeeded, isEmail) == Start
    ensures Apply(Apply(st, Submit, isEmail), Succeeded, isEmail) == Start
  {
    LoanFormRestartsAfterSuccess(st, isEmail);
    FormikRestartsAfterSuccess(st, isEmail);
  }

  lemma LoanFormRestartsAfterSuccess(st: FormState, isEmail: string -> bool)
    requires st.step == 3 && st.acceptedTerms
    requires ClientValidation.ParseLoanForm(LoanFormSteps.InputOf(st.values), isEmail).Success?
    ensures LoanFormSteps.HandleSubmit(st, isEmail).1.Mutate?
    ensures LoanFormSteps.Apply(LoanFormSteps.Apply(st, Submit, isEmail), Succeeded, isEmail) == Start
  {
  }

  lemma FormikRestartsAfterSuccess(st: FormState, isEmail: string -> bool)
    requires st.step == 3 && st.acceptedTerms && YupValidation.Valid(st.values, isEmail)
    ensures HandleSubmit(st, isEmail).1.Mutate?
    ensures Apply(Apply(st, Submit, isEmail), Succeeded, isEmail) == Start
  {
  }

  /** The Formik form posts the salary as a string, which the Express insert
      schema refuses (400), while the Next.js handler accepts it. */
  lemma FormikPostRefusedByExpress(v: FormValues)
    ensures Schema.ParseInsertLead(ValuesBody(v)).Failure?
  {
  }

  /** The two forms part ways after a failed POST: the react-hook-form version
      still holds what was typed, the Formik version has already cleared it. */
  lemma FailedPostKeepsValuesOnlyInLoanForm(st: FormState, isEmail: string -> bool)
    requires st.step == 3 && st.acceptedTerms && st.values != Blank
    requires ClientValidation.ParseLoanForm(LoanFormSteps.InputOf(st.values), isEmail).Success?
    requires YupValidation.Valid(st.values, isEmail)
    ensures LoanFormSteps.Apply(LoanFormSteps.Apply(st, Submit, isEmail), Failed, isEmail).values == st.values
    ensures Apply(Apply(st, Submit, isEmail), Failed, isEmail).values == Blank
  {
    LoanFormKeepsValuesOnPost(st, isEmail);
    FormikClearsValuesOnPost(st, isEmail);
  }

  lemma FormikClearsValuesOnPost(st: FormState, isEmail: string -> bool)
    requires st.step == 3 && st.acceptedTerms && YupValidation.Valid(st.values, isEmail)
    ensures Apply(Apply(st, Submit, isEmail), Failed, isEmail).values == Blank
  {
    assert HandleSubmit(st, isEmail).1.Mutate?;
    var b := Apply(st, Submit, isEmail);
    assert b == st.(values := Blank);
  }

  lemma LoanFormKeepsValuesOnPost(st: FormState, isEmail: string -> bool)
    requires st.step == 3 && st.acceptedTerms
    requires ClientValidation.ParseLoanForm(LoanFormSteps.InputOf(st.values), isEmail).Success?
    ensures LoanFormSteps.Apply(LoanFormSteps.Apply(st, Submit, isEmail), Failed, isEmail).values == st.values
  {
    assert LoanFormSteps.HandleSubmit(st, isEmail).1.Mutate?;
    var a := LoanFormSteps.Apply(st, Submit, isEmail);
    assert a == st;
  }
}
