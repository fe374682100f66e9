/** The entry form: `validateForm`, `handleSubmit` and `handleChange`.
    The error object is a map from the four text fields to the message
    shown under each; the marketing check box never gets an error. */
module EntryForm {
  import opened Wrappers
  import opened Domain
  import opened Text
  import EmailShape
  import PhoneShape

  datatype TextField = FirstName | LastName | Email | Phone

  function FieldText(u: UserData, f: TextField): string {
    match f
    case FirstName => u.firstName
    case LastName => u.lastName
    case Email => u.email
    case Phone => u.phone
  }

  const FirstNameRequired := "First name is required"
  const LastNameRequired := "Last name is required"
  const EmailRequired := "Email is required"
  const EmailInvalid := "Please enter a valid email address"
  const PhoneRequired := "Phone number is required"
  const PhoneInvalid := "Please enter a valid phone number"

  type Errors = map<TextField, string>

  /** The error, if any, for one field: the required check first, then
      the shape check on the untrimmed value. */
  function FieldError(u: UserData, f: TextField): Option<string> {
    match f
    case FirstName => if Blank(u.firstName) then Some(FirstNameRequired) else None
    case LastName => if Blank(u.lastName) then Some(LastNameRequired) else None
    case Email =>
      if Blank(u.email) then Some(EmailRequired)
      else if !EmailShape.IsEmail(u.email) then Some(EmailInvalid)
      else None
    case Phone =>
      if Blank(u.phone) then Some(PhoneRequired)
      else if !PhoneShape.IsPhone(u.phone) then Some(PhoneInvalid)
      else None
  }

  /** The error object `validateForm` builds. */
  function Validate(u: UserData): (errors: Errors)
    ensures FirstName in errors <==> Blank(u.firstName)
    ensures LastName in errors <==> Blank(u.lastName)
    ensures Email in errors <==> Blank(u.email) || !EmailShape.EmailLanguage(u.email)
    ensures Phone in errors <==> Blank(u.phone) || !PhoneShape.PhoneLanguage(u.phone)
    ensures FirstName in errors ==> errors[FirstName] == FirstNameRequired
    ensures LastName in errors ==> errors[LastName] == LastNameRequired
    ensures Email in errors ==> errors[Email] == if Blank(u.email) then EmailRequired else EmailInvalid
    ensures Phone in errors ==> errors[Phone] == if Blank(u.phone) then PhoneRequired else PhoneInvalid
  {
    EmailShape.IsEmailIffLanguage(u.email);
    PhoneShape.IsPhoneIffLanguage(u.phone);
    var e1 := Record(map[], u, FirstName);
    var e2 := Record(e1, u, LastName);
    var e3 := Record(e2, u, Email);
    Record(e3, u, Phone)
  }

  /** Adds the error of field `f`, if it has one, to `errors`. */
  function Record(errors: Errors, u: UserData, f: TextField): Errors {
    match FieldError(u, f)
    case Some(message) => errors[f := message]
    case None => errors
  }

  /** What a valid form promises about its contents. */
  ghost predicate Acceptable(u: UserData) {
    && !AllSpace(u.firstName)
    && !AllSpace(u.lastName)
    && EmailShape.EmailLanguage(u.email)
    && PhoneShape.PhoneLanguage(u.phone)
  }

  /** `validateForm()`'s boolean: no key in the error object. */
  predicate IsValid(u: UserData) {
    |Validate(u)| == 0
  }

  /** The form is valid exactly when both names have a non-whitespace
      character and the e-mail and phone match their expressions; a valid
      e-mail then has one '@' and a valid phone ten digits. */
  lemma ValidIffAcceptable(u: UserData)
    ensures IsValid(u) <==> Acceptable(u)
  {
    NoErrorsIffNoKeys(Validate(u));
    BlankIffAllSpace(u.firstName);
    BlankIffAllSpace(u.lastName);
    if Acceptable(u) {
      BlankIffAllSpace(u.email);
      BlankIffAllSpace(u.phone);
      EmailShape.AcceptedNotBlank(u.email);
      PhoneShape.AcceptedNotBlank(u.phone);
    }
  }

  /** A valid form's e-mail has one '@' and its phone ten digits. */
  lemma ValidFormShapes(u: UserData)
    ensures IsValid(u) ==> Count(u.email, '@') == 1 && DigitCount(u.phone) == 10
  {
    ValidIffAcceptable(u);
    if IsValid(u) {
      EmailShape.AcceptedHasOneAt(u.email);
      var p :| PhoneShape.WellFormed(p) && PhoneShape.Assemble(p) == u.phone;
      PhoneShape.AcceptedHasTenDigits(p);
    }
  }

  /** An error object has no keys exactly when none of the four fields
      is in it. */
  lemma NoErrorsIffNoKeys(errors: Errors)
    ensures |errors| == 0 <==>
      FirstName !in errors && LastName !in errors && Email !in errors && Phone !in errors
  {
    if FirstName !in errors && LastName !in errors && Email !in errors && Phone !in errors {
      assert forall f :: f !in errors by {
        forall f ensures f !in errors {
          match f
          case FirstName =>
          case LastName =>
          case Email =>
          case Phone =>
        }
      }
      assert errors == map[];
    }
  }

  /** The form component's state: the field values and the shown errors. */
  datatype FormState = FormState(data: UserData, errors: Errors)

  const InitialForm: FormState := FormState(UserData("", "", "", "", false), map[])

  /** The result of pressing submit: the new state and the data handed to
      `onSubmit`, if it was called. */
  datatype Submission = Submission(state: FormState, submitted: Option<UserData>)

  /** `handleSubmit`: replaces the shown errors with a fresh validation and
      calls `onSubmit` with the form data only when there are none. */
  function HandleSubmit(st: FormState): (r: Submission)
    ensures r.state.data == st.data
    ensures r.state.errors == Validate(st.data)
    ensures r.submitted.Some? <==> Acceptable(st.data)
    ensures r.submitted.Some? ==> r.submitted.value == st.data
  {
    ValidIffAcceptable(st.data);
    var errors := Validate(st.data);
    Submission(FormState(st.data, errors), if |errors| == 0 then Some(st.data) else None)
  }

  /** One input event of the form. */
  datatype Edit = SetText(field: TextField, text: string) | SetOptIn(flag: bool)

  function WithText(u: UserData, f: TextField, text: string): UserData {
    match f
    case FirstName => u.(firstName := text)
    case LastName => u.(lastName := text)
    case Email => u.(email := text)
    case Phone => u.(phone := text)
  }

  /** `handleChange`: stores the new value and, if the edited field showed
      an error, clears that error only. */
  function HandleChange(st: FormState, edit: Edit): (st': FormState)
    ensures edit.SetText? ==>
      && FieldText(st'.data, edit.field) == edit.text
      && (forall f :: f != edit.field ==> FieldText(st'.data, f) == FieldText(st.data, f))
      && st'.data.marketingOptIn == st.data.marketingOptIn
      && st'.errors.Keys == st.errors.Keys - {edit.field}
    ensures edit.SetOptIn? ==>
      && st'.data.marketingOptIn == edit.flag
      && (forall f :: FieldText(st'.data, f) == FieldText(st.data, f))
      && st'.errors == st.errors
    ensures forall f :: f in st'.errors ==> f in st.errors && st'.errors[f] == st.errors[f]
  {
    match edit
    case SetText(f, text) =>
      var errors := if f in st.errors then st.errors - {f} else st.errors;
      FormState(WithText(st.data, f, text), errors)
    case SetOptIn(b) =>
      FormState(st.data.(marketingOptIn := b), st.errors)
  }

  /** Each field's verdict depends on that field alone: after an edit,
      validating again gives every other field the same verdict as
      before. */
  lemma EditKeepsOtherVerdicts(st: FormState, edit: Edit, f: TextField)
    requires edit.SetOptIn? || edit.field != f
    ensures var st' := HandleChange(st, edit);
      && (f in Validate(st'.data) <==> f in Validate(st.data))
      && (f in Validate(st.data) ==> Validate(st'.data)[f] == Validate(st.data)[f])
  {
  }

  /** An untouched form submits nothing and shows the four required
      messages. */
  lemma EmptyFormShowsRequired()
    ensures HandleSubmit(InitialForm).submitted == None
    ensures HandleSubmit(InitialForm).state.errors == map[
      FirstName := FirstNameRequired, LastName := LastNameRequired,
      Email := EmailRequired, Phone := PhoneRequired]
  {
    assert Blank("");
  }
}
