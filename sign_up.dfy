/** The sign-up form: `handleSignUp` and the message it shows. */
module SignUp {
  import opened Wrappers
  import opened Passwords

  /** The preferences every new account is created with. */
  datatype Preferences = Preferences(notifications: bool, darkmode: bool, sound: bool)

  const DefaultPreferences: Preferences := Preferences(false, false, true)

  /** The arguments of `postUser`. */
  datatype SignUpRequest = SignUpRequest(
    name: string, email: string, password: string, isAdmin: bool, preferences: Preferences)

  class SignUpForm {
    var isLoading: bool
    var areBlankFields: bool
    var invalidPasswordFormat: bool
    var differentPasswords: bool
    var userAlreadyRegistered: bool
    var name: string
    var email: string
    var password: string
    var confirmPassword: string
    /** The admin switch; it is shown but never sent. */
    var isAdmin: bool
    var navigatedToSignIn: bool

    constructor ()
      ensures !isLoading && !areBlankFields && !invalidPasswordFormat && !differentPasswords
      ensures !userAlreadyRegistered && !isAdmin && !navigatedToSignIn
      ensures name == "" && email == "" && password == "" && confirmPassword == ""
      ensures Message() == ""
    {
      isLoading, areBlankFields, invalidPasswordFormat, differentPasswords := false, false, false, false;
      userAlreadyRegistered, isAdmin, navigatedToSignIn := false, false, false;
      name, email, password, confirmPassword := "", "", "", "";
    }

    /** The message under the form. */
    function Message(): string
      reads this
    {
      InvalidMessage(invalidPasswordFormat, areBlankFields, differentPasswords, userAlreadyRegistered)
    }

    /** The checks as `handleSignUp` runs them on the current fields. */
    function Outcome(): Check
      reads this
    {
      CheckPasswords(name != "" && email != "" && password != "" && confirmPassword != "",
                     password, confirmPassword)
    }

    /** The three checks of `handleSignUp`, in order: each check that passes clears its
        flag, and the first that fails sets its flag and ends the run. */
    method RunChecks() returns (outcome: Check)
      modifies this`areBlankFields, this`invalidPasswordFormat, this`differentPasswords
      ensures outcome == Outcome()
      ensures outcome == BlankFields ==>
                && areBlankFields
                && invalidPasswordFormat == old(invalidPasswordFormat) && differentPasswords == old(differentPasswords)
      ensures outcome == InvalidFormat ==>
                !areBlankFields && invalidPasswordFormat && differentPasswords == old(differentPasswords)
      ensures outcome == DifferentPasswords ==> !areBlankFields && !invalidPasswordFormat && differentPasswords
      ensures outcome == Passed ==> !areBlankFields && !invalidPasswordFormat && !differentPasswords
    {
      outcome := Outcome();
      if outcome == BlankFields {
        areBlankFields := true;
        return;
      }
      areBlankFields := false;
      if outcome == InvalidFormat {
        invalidPasswordFormat := true;
        return;
      }
      invalidPasswordFormat := false;
      if outcome == DifferentPasswords {
        differentPasswords := true;
        return;
      }
      differentPasswords := false;
    }

    /** `handleSignUp`, with `response` standing for how `postUser` settles. Each check that
        passes clears its own flag, the first that fails sets its flag and stops, and the
        account is requested exactly when every check passes, always as an administrator
        with the default preferences. A flag of a check that was not reached keeps its
        old value, so a stale format error outranks a new blank-field error. */
    method HandleSignUp(response: Response<()>) returns (request: Option<SignUpRequest>)
      modifies this`isLoading, this`areBlankFields, this`invalidPasswordFormat,
               this`differentPasswords, this`userAlreadyRegistered, this`navigatedToSignIn
      ensures request.Some? <==> Outcome() == Passed
      ensures Outcome() == BlankFields ==>
                && areBlankFields && !userAlreadyRegistered
                && invalidPasswordFormat == old(invalidPasswordFormat)
                && differentPasswords == old(differentPasswords)
                && isLoading == old(isLoading) && navigatedToSignIn == old(navigatedToSignIn)
                && Message() == (if old(invalidPasswordFormat) then FormatMessage else BlankMessage)
      ensures Outcome() == InvalidFormat ==>
                && !areBlankFields && invalidPasswordFormat && !userAlreadyRegistered
                && differentPasswords == old(differentPasswords)
                && isLoading == old(isLoading) && navigatedToSignIn == old(navigatedToSignIn)
                && Message() == FormatMessage
      ensures Outcome() == DifferentPasswords ==>
                && !areBlankFields && !invalidPasswordFormat && differentPasswords && !userAlreadyRegistered
                && isLoading == old(isLoading) && navigatedToSignIn == old(navigatedToSignIn)
                && Message() == DifferentMessage
      ensures Outcome() == Passed ==>
                && !areBlankFields && !invalidPasswordFormat && !differentPasswords
                && request == Some(SignUpRequest(name, email, password, true, DefaultPreferences))
                && (response.Ok? ==> isLoading && navigatedToSignIn && !userAlreadyRegistered && Message() == "")
                && (response.Failed? ==> !isLoading && userAlreadyRegistered
                                         && navigatedToSignIn == old(navigatedToSignIn)
                                         && Message() == AlreadyRegisteredMessage)
    {
      userAlreadyRegistered := false;
      var outcome := RunChecks();
      if outcome != Passed {
        return None;
      }
      isLoading := true;
      request := Some(SignUpRequest(name, email, password, true, DefaultPreferences));
      match response
      case Ok(_) =>
        navigatedToSignIn := true;
      case Failed(_) =>
        userAlreadyRegistered := true;
        isLoading := false;
    }
  }
}
