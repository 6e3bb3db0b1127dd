/** The forgot-password page: one e-mail input, an error line, and the
    loading and success flags driven by the submit handler. */
module ForgotPassword {
  import opened Text
  import opened EmailFormat

  const EmailRequired := "Email is required"
  const EmailInvalid := "Please enter a valid email address"

  /** The error line `handleSubmit` leaves for the typed email: the blank
      check comes first and picks "required"; only a non-blank address is
      checked against the pattern. The empty message means the request goes out,
      which happens exactly when the address has the e-mail shape, because a
      blank address never has it. */
  function SubmitError(email: string): (msg: string)
    ensures msg == "" <==> IsEmailLike(email)
    ensures IsBlank(email) ==> msg == EmailRequired
    ensures !IsBlank(email) && !IsEmailLike(email) ==> msg == EmailInvalid
  {
    if IsBlank(email) then
      BlankIsNotEmailLike(email);
      EmailRequired
    else if !IsEmailLike(email) then EmailInvalid
    else ""
  }

  /** Trimming neither creates nor destroys a match of the pattern. */
  lemma TrimKeepsMatches(s: string)
    ensures Matches(Trim(s)) <==> Matches(s)
  {
    var lo, hi := LeadingSpaces(s), TrimEndIndex(s);
    if Matches(Trim(s)) {
      MatchesOfSlice(s, lo, hi);
    }
    if Matches(s) {
      MatchesInSlice(s, lo, hi);
    }
  }

  /** The blank test trims but the pattern is applied to the untrimmed text;
      this makes no difference, since a match never includes whitespace. */
  lemma TrimKeepsEmailShape(s: string)
    ensures IsEmailLike(Trim(s)) <==> IsEmailLike(s)
  {
    TrimKeepsMatches(s);
    IsEmailLikeCorrect(s);
    IsEmailLikeCorrect(Trim(s));
  }

  class ForgotPasswordPage {
    var email: string
    var error: string
    var loading: bool
    var success: bool

    constructor ()
      ensures email == "" && error == "" && !loading && !success
    {
      email := "";
      error := "";
      loading := false;
      success := false;
    }

    /** `handleSubmit`: sets the error line by the guard sequence and, only
        for an address with the e-mail shape, starts loading; a rejected
        address leaves `loading` as it was. */
    method HandleSubmit() returns (sent: bool)
      modifies this`error, this`loading
      ensures error == SubmitError(email)
      ensures sent <==> IsEmailLike(email)
      ensures loading == (sent || old(loading))
    {
      if IsBlank(email) {
        error := EmailRequired;
        BlankIsNotEmailLike(email);
        return false;
      }
      if !IsEmailLike(email) {
        error := EmailInvalid;
        return false;
      }
      error := "";
      loading := true;
      sent := true;
    }

    /** The end of the simulated request: loading stops and the confirmation
        screen is shown. */
    method CompleteReset()
      modifies this`loading, this`success
      ensures !loading && success
    {
      loading := false;
      success := true;
    }

    /** The input's change handler: stores the new text and clears the error. */
    method ChangeEmail(value: string)
      modifies this`email, this`error
      ensures email == value && error == ""
    {
      email := value;
      error := "";
    }

    /** "Try another email": back to the form, with the address kept. */
    method TryAnotherEmail()
      modifies this`success
      ensures !success
    {
      success := false;
    }
  }
}
