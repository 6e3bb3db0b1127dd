/** The sign-up page: the form record, the per-field error messages, and the
    submit guard. */
module Signup {
  import opened Text
  import opened EmailFormat

  // The messages the validator stores under each field.
  const FirstNameRequired := "First name is required"
  const LastNameRequired := "Last name is required"
  const EmailRequired := "Email is required"
  const EmailInvalid := "Email is invalid"
  const PasswordRequired := "Password is required"
  const PasswordTooShort := "Password must be at least 8 characters"
  const PasswordsDiffer := "Passwords do not match"
  const TermsRequired := "You must accept the terms and conditions"

  /** The names of the form's inputs, which are also the keys of the error map. */
  datatype Field = FirstName | LastName | Email | Password | ConfirmPassword | AcceptTerms

  datatype FormData = FormData(
    firstName: string,
    lastName: string,
    email: string,
    password: string,
    confirmPassword: string,
    acceptTerms: bool)

  /** The value held under one field name: text, or the checkbox state. */
  datatype FieldValue = Text(text: string) | Checked(checked: bool)

  function Get(d: FormData, f: Field): FieldValue
  {
    match f
    case FirstName => Text(d.firstName)
    case LastName => Text(d.lastName)
    case Email => Text(d.email)
    case Password => Text(d.password)
    case ConfirmPassword => Text(d.confirmPassword)
    case AcceptTerms => Checked(d.acceptTerms)
  }

  /** A change event: the `name` of the input and, for the checkbox, its
      `checked` state, otherwise its `value`. */
  datatype Change = TextChange(name: Field, value: string) | CheckboxChange(checked: bool)
  {
    /** In the rendered form the only checkbox is the terms box. */
    predicate WellFormed() { TextChange? ==> name != AcceptTerms }

    function Target(): Field { if TextChange? then name else AcceptTerms }

    function NewValue(): FieldValue { if TextChange? then Text(value) else Checked(checked) }
  }

  /** `{ ...prev, [name]: type === 'checkbox' ? checked : value }`: the named
      field takes the event's value and every other field keeps its own. */
  function Apply(d: FormData, ev: Change): (r: FormData)
    requires ev.WellFormed()
    ensures Get(r, ev.Target()) == ev.NewValue()
    ensures forall f :: f != ev.Target() ==> Get(r, f) == Get(d, f)
  {
    match ev
    case CheckboxChange(c) => d.(acceptTerms := c)
    case TextChange(name, v) =>
      match name
      case FirstName => d.(firstName := v)
      case LastName => d.(lastName := v)
      case Email => d.(email := v)
      case Password => d.(password := v)
      case ConfirmPassword => d.(confirmPassword := v)
  }

  /** The entries the validator must produce for d under the two name fields. */
  ghost predicate NamesReported(d: FormData, errors: map<Field, string>)
  {
    && (FirstName in errors <==> IsBlank(d.firstName))
    && (FirstName in errors ==> errors[FirstName] == FirstNameRequired)
    && (LastName in errors <==> IsBlank(d.lastName))
    && (LastName in errors ==> errors[LastName] == LastNameRequired)
  }

  /** The entry the validator must produce for d under the e-mail field. */
  ghost predicate EmailReported(d: FormData, errors: map<Field, string>)
  {
    && (Email in errors <==> IsBlank(d.email) || !IsEmailLike(d.email))
    && (Email in errors ==> errors[Email] == if IsBlank(d.email) then EmailRequired else EmailInvalid)
  }

  /** The entries the validator must produce for d under the password fields.
      The length rule counts UTF-16 code units, as `password.length` does. */
  ghost predicate PasswordsReported(d: FormData, errors: map<Field, string>)
  {
    && (Password in errors <==> Utf16Length(d.password) < 8)
    && (Password in errors ==>
          errors[Password] == if d.password == [] then PasswordRequired else PasswordTooShort)
    && (ConfirmPassword in errors <==> d.password != d.confirmPassword)
    && (ConfirmPassword in errors ==> errors[ConfirmPassword] == PasswordsDiffer)
  }

  /** The entry the validator must produce for d under the terms checkbox. */
  ghost predicate TermsReported(d: FormData, errors: map<Field, string>)
  {
    && (AcceptTerms in errors <==> !d.acceptTerms)
    && (AcceptTerms in errors ==> errors[AcceptTerms] == TermsRequired)
  }

  /** The error map the validator must produce for d: which keys are present,
      and the message under each. */
  ghost predicate ReportsErrors(d: FormData, errors: map<Field, string>)
  {
    NamesReported(d, errors) && EmailReported(d, errors) && PasswordsReported(d, errors) && TermsReported(d, errors)
  }

  /** The form the page accepts. */
  ghost predicate Acceptable(d: FormData)
  {
    && !IsBlank(d.firstName) && !IsBlank(d.lastName)
    && !IsBlank(d.email) && IsEmailLike(d.email)
    && Utf16Length(d.password) >= 8 && d.password == d.confirmPassword
    && d.acceptTerms
  }

  /** An error map that reports d is empty exactly when d is acceptable. */
  lemma NoErrorsIffAcceptable(d: FormData, errors: map<Field, string>)
    requires ReportsErrors(d, errors)
    ensures errors == map[] <==> Acceptable(d)
  {
    if Acceptable(d) {
      assert forall f :: f !in errors by {
        forall f ensures f !in errors {
          match f
          case FirstName =>
          case LastName =>
          case Email =>
          case Password =>
          case ConfirmPassword =>
          case AcceptTerms =>
        }
      }
      assert errors.Keys == {};
    }
  }

  /** The password is not trimmed: an all-whitespace password of eight or
      more characters passes the length test, although the same text in a
      name field counts as blank. */
  lemma PasswordIsNotTrimmed(d: FormData, errors: map<Field, string>)
    requires ReportsErrors(d, errors)
    requires IsBlank(d.password) && |d.password| >= 8
    ensures Password !in errors
    ensures d.firstName == d.password ==> FirstName in errors
  {
  }

  /** The length is counted in UTF-16 code units: four characters outside the
      Basic Multilingual Plane already make eight, so such a password passes
      the length test. */
  lemma AstralPasswordIsLongEnough(d: FormData, errors: map<Field, string>)
    requires ReportsErrors(d, errors)
    requires |d.password| == 4 && forall k :: 0 <= k < 4 ==> d.password[k] as int >= 0x1_0000
    ensures Password !in errors
  {
    Utf16LengthOfAstral(d.password);
  }

  /** The body of `validateForm` up to `setErrors`: the local map
      `newErrors`, filled in one field after another. */
  method CollectErrors(d: FormData) returns (newErrors: map<Field, string>)
    ensures ReportsErrors(d, newErrors)
  {
    newErrors := map[];
    if IsBlank(d.firstName) {
      newErrors := newErrors[FirstName := FirstNameRequired];
    }
    if IsBlank(d.lastName) {
      newErrors := newErrors[LastName := LastNameRequired];
    }
    assert NamesReported(d, newErrors);
    if IsBlank(d.email) {
      newErrors := newErrors[Email := EmailRequired];
    } else if !IsEmailLike(d.email) {
      newErrors := newErrors[Email := EmailInvalid];
    }
    assert NamesReported(d, newErrors) && EmailReported(d, newErrors);
    var length := Utf16Length(d.password);
    if d.password == [] {
      newErrors := newErrors[Password := PasswordRequired];
    } else if length < 8 {
      newErrors := newErrors[Password := PasswordTooShort];
    }
    assert NamesReported(d, newErrors) && EmailReported(d, newErrors);
    if d.password != d.confirmPassword {
      newErrors := newErrors[ConfirmPassword := PasswordsDiffer];
    }
    assert NamesReported(d, newErrors) && EmailReported(d, newErrors) && PasswordsReported(d, newErrors);
    if !d.acceptTerms {
      newErrors := newErrors[AcceptTerms := TermsRequired];
    }
  }

  class SignupPage {
    var data: FormData
    var errors: map<Field, string>
    var loading: bool

    constructor ()
      ensures data == FormData("", "", "", "", "", false)
      ensures errors == map[] && !loading
    {
      data := FormData("", "", "", "", "", false);
      errors := map[];
      loading := false;
    }

    /** `handleChange`: writes the named field and, if that field shows an
        error, blanks that one message (the key stays, with an empty text). */
    method HandleChange(ev: Change)
      requires ev.WellFormed()
      modifies this`data, this`errors
      ensures data == Apply(old(data), ev)
      ensures var f := ev.Target();
        errors == if f in old(errors) && old(errors)[f] != "" then old(errors)[f := ""] else old(errors)
    {
      var name := ev.Target();
      data := Apply(data, ev);
      if name in errors && errors[name] != "" {
        errors := errors[name := ""];
      }
    }

    /** `validateForm`: replaces the page's error map with the one built for
        the current form, and reports whether it has no keys. */
    method ValidateForm() returns (valid: bool)
      modifies this`errors
      ensures ReportsErrors(data, errors)
      ensures valid <==> errors == map[]
    {
      var newErrors := CollectErrors(data);
      errors := newErrors;
      valid := |newErrors| == 0;
    }

    /** `handleSubmit`: validates; only an acceptable form starts loading. */
    method HandleSubmit() returns (submitted: bool)
      modifies this`errors, this`loading
      ensures ReportsErrors(data, errors)
      ensures submitted <==> Acceptable(data)
      ensures loading == if submitted then true else old(loading)
    {
      submitted := ValidateForm();
      NoErrorsIffAcceptable(data, errors);
      if submitted {
        loading := true;
      }
    }

    /** The end of the simulated request: loading stops. */
    method CompleteSubmit()
      modifies this`loading
      ensures !loading
    {
      loading := false;
    }
  }
}
