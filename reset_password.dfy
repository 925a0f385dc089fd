/** The reset-password screen: a three-phase flow (email, then verification code, then
    new password) held in three flags, of which exactly one is set at any time. */
module ResetPassword {
  import opened Wrappers
  import opened Text
  import opened Records
  import opened Passwords

  /** The verification code the screen accepts. */
  const ExpectedCode: string := "123"

  /** The longest prefix of `s` made of digits. */
  function DigitPrefix(s: string): (r: string)
    ensures AllDigits(r) && IsPrefix(r, s)
    ensures |r| < |s| ==> !IsDigit(s[|r|])
  {
    if s != [] && IsDigit(s[0]) then [s[0]] + DigitPrefix(s[1..]) else []
  }

  /** `parseInt(s)` for text that starts with its digits: the value of the leading
      digits, or `None` (NaN) when there are none. */
  function ParseInt(s: string): (r: Option<nat>)
    ensures r.None? <==> s == [] || !IsDigit(s[0])
    ensures AllDigits(s) && s != [] ==> r == Some(DecimalValue(s))
  {
    var digits := DigitPrefix(s);
    if digits == [] then None
    else
      assert AllDigits(s) ==> digits == s;
      Some(DecimalValue(digits))
  }

  /** Reading back a number written in decimal gives the number. */
  lemma ParseIntRoundTrip(n: nat)
    ensures ParseInt(NatToDecimal(n)) == Some(n)
  {
    DecimalRoundTrip(n);
  }

  /** The code the screen accepts is sent as the number 123. */
  lemma ExpectedCodeParses()
    ensures ParseInt(ExpectedCode) == Some(123)
  {
    assert DecimalValue("123") == 123 by {
      assert "123"[..2] == "12" && "12"[..1] == "1" && "1"[..0] == [];
    }
  }

  /** The arguments of `resetPassword`. */
  datatype ResetRequest = ResetRequest(userId: string, password: string, code: Option<nat>)

  class ResetPasswordScreen {
    var user: Option<User>
    var code: string
    var email: string
    var password: string
    var confirmPassword: string
    var checkingEmail: bool
    var checkingCode: bool
    var resetPassword: bool
    var userDoesNotExists: bool
    var error: string
    var isChecking: bool
    var invalidCode: bool
    var confirmChangePassword: bool
    var areBlankFields: bool
    var differentPasswords: bool
    var invalidPasswordFormat: bool
    var isChanging: bool

    /** Exactly one phase is on; the code and password phases have a user, and the
        password phase was reached with the expected code. */
    ghost predicate Valid()
      reads this
    {
      && (if checkingEmail then !checkingCode && !resetPassword else checkingCode != resetPassword)
      && (checkingCode || resetPassword ==> user.Some?)
      && (resetPassword ==> code == ExpectedCode)
    }

    constructor ()
      ensures Valid() && checkingEmail && !checkingCode && !resetPassword
      ensures user.None? && code == "" && email == "" && password == "" && confirmPassword == ""
      ensures !userDoesNotExists && error == "" && !isChecking && !invalidCode && !confirmChangePassword
      ensures !areBlankFields && !differentPasswords && !invalidPasswordFormat && !isChanging
    {
      user, code, email, password, confirmPassword := None, "", "", "", "";
      checkingEmail, checkingCode, resetPassword := true, false, false;
      userDoesNotExists, error, isChecking, invalidCode := false, "", false, false;
      confirmChangePassword, areBlankFields, differentPasswords := false, false, false;
      invalidPasswordFormat, isChanging := false, false;
    }

    /** The message under the password fields. */
    function Message(): string
      reads this
    {
      InvalidMessage(invalidPasswordFormat, areBlankFields, differentPasswords, false)
    }

    /** The code field's `onChangeText`; the field is shown only in the code phase. */
    method SetCode(value: string)
      requires Valid() && checkingCode
      modifies this`code
      ensures Valid() && code == value
    {
      code := value;
    }

    /** `checkUser`, with `response` standing for how `getUserByEmail` settles; the button
        is shown only in the email phase. A user found moves to the code phase; a failure
        keeps the phase and reports a 404 as an unknown account, anything else as an error. */
    method CheckUser(response: Response<User>)
      requires Valid() && checkingEmail
      modifies this`user, this`userDoesNotExists, this`isChecking, this`checkingEmail,
               this`checkingCode, this`error
      ensures Valid() && !isChecking
      ensures response.Ok? ==>
                && checkingCode && !checkingEmail && user == Some(response.payload)
                && !userDoesNotExists && error == old(error)
      ensures response.Failed? ==>
                && checkingEmail && !checkingCode && user == old(user)
                && (Contains(response.message, "404") ==> userDoesNotExists && error == old(error))
                && (!Contains(response.message, "404") ==>
                      error == response.message && userDoesNotExists == old(userDoesNotExists))
    {
      isChecking := true;
      match response
      case Ok(found) =>
        user := Some(found);
        userDoesNotExists := false;
        isChecking := false;
        checkingEmail := false;
        checkingCode := true;
      case Failed(message) =>
        if Contains(message, "404") {
          userDoesNotExists := true;
        } else {
          error := message;
        }
        isChecking := false;
    }

    /** `checkCode`: only the expected code moves to the password phase. */
    method CheckCode()
      requires Valid() && checkingCode
      modifies this`checkingCode, this`resetPassword, this`invalidCode
      ensures Valid()
      ensures resetPassword <==> code == ExpectedCode
      ensures code == ExpectedCode ==> !checkingCode && invalidCode == old(invalidCode)
      ensures code != ExpectedCode ==> checkingCode && invalidCode
    {
      if code != "" && code == ExpectedCode {
        checkingCode := false;
        resetPassword := true;
      } else {
        invalidCode := true;
      }
    }

    /** The checks as `handleChangePassword` runs them on the current fields. */
    function Outcome(): Check
      reads this
    {
      CheckPasswords(password != "" && confirmPassword != "", password, confirmPassword)
    }

    /** The three checks of `handleChangePassword`, in order: each check that passes clears its
        flag, and the first that fails sets its flag and ends the run. */
    method RunChecks() returns (outcome: Check)
      modifies this`areBlankFields, this`invalidPasswordFormat, this`differentPasswords
      ensures outcome == Outcome()
      ensures outcome == BlankFields ==>
                && areBlankFields
                && invalidPasswordFormat == old(invalidPasswordFormat) && differentPasswords == old(differentPasswords)
      ensures outcome == InvalidFormat ==>
                !areBlankFields && invalidPasswordFormat && differentPasswords == old(differentPasswords)
      ensures outcome == DifferentPasswords ==> !areBlankFields && !invalidPasswordFormat && differentPasswords
      ensures outcome == Passed ==> !areBlankFields && !invalidPasswordFormat && !differentPasswords
    {
      outcome := Outcome();
      if outcome == BlankFields {
        areBlankFields := true;
        return;
      }
      areBlankFields := false;
      if outcome == InvalidFormat {
        invalidPasswordFormat := true;
        return;
      }
      invalidPasswordFormat := false;
      if outcome == DifferentPasswords {
        differentPasswords := true;
        return;
      }
      differentPasswords := false;
    }

    /** The request `handleChangePassword` makes once every check has passed, with
        `response` standing for how `resetPassword` settles. */
    method SubmitReset(response: Response<()>) returns (request: ResetRequest)
      requires Valid() && resetPassword
      modifies this`isChanging, this`confirmChangePassword, this`error
      ensures request == ResetRequest(user.value.id, password, Some(123))
      ensures !isChanging
      ensures response.Ok? ==> confirmChangePassword && error == old(error)
      ensures response.Failed? ==> error == response.message && confirmChangePassword == old(confirmChangePassword)
    {
      isChanging := true;
      ExpectedCodeParses();
      request := ResetRequest(user.value.id, password, ParseInt(code));
      match response
      case Ok(_) =>
        isChanging := false;
        confirmChangePassword := true;
      case Failed(message) =>
        error := message;
        isChanging := false;
    }

    /** `handleChangePassword`, with `response` standing for how `resetPassword` settles;
        the button is shown only in the password phase. The request is made exactly when
        every check passes, and it carries the parsed code, which is always 123. */
    method HandleChangePassword(response: Response<()>) returns (request: Option<ResetRequest>)
      requires Valid() && resetPassword
      modifies this`areBlankFields, this`invalidPasswordFormat, this`differentPasswords,
               this`isChanging, this`confirmChangePassword, this`error
      ensures Valid()
      ensures request.Some? <==> Outcome() == Passed
      ensures Outcome() == BlankFields ==>
                && areBlankFields
                && invalidPasswordFormat == old(invalidPasswordFormat)
                && differentPasswords == old(differentPasswords)
                && isChanging == old(isChanging) && confirmChangePassword == old(confirmChangePassword)
                && error == old(error)
      ensures Outcome() == InvalidFormat ==>
                && !areBlankFields && invalidPasswordFormat
                && differentPasswords == old(differentPasswords)
                && isChanging == old(isChanging) && confirmChangePassword == old(confirmChangePassword)
                && error == old(error) && Message() == FormatMessage
      ensures Outcome() == DifferentPasswords ==>
                && !areBlankFields && !invalidPasswordFormat && differentPasswords
                && isChanging == old(isChanging) && confirmChangePassword == old(confirmChangePassword)
                && error == old(error) && Message() == DifferentMessage
      ensures Outcome() == Passed ==>
                && !areBlankFields && !invalidPasswordFormat && !differentPasswords && Message() == ""
                && request == Some(ResetRequest(user.value.id, password, Some(123)))
                && !isChanging
                && (response.Ok? ==> confirmChangePassword && error == old(error))
                && (response.Failed? ==> error == response.message
                                         && confirmChangePassword == old(confirmChangePassword))
    {
      var outcome := RunChecks();
      if outcome != Passed {
        return None;
      }
      var sent := SubmitReset(response);
      request := Some(sent);
    }
  }
}
