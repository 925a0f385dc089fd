/** The password rules and the error message shared by the sign-up and reset-password
    forms: both run the same checks in the same order and pick the message the same way. */
module Passwords {

  /** `s.match(/[A-Z]/g)` finds something. */
  predicate HasUpper(s: string)
  {
    exists i :: 0 <= i < |s| && 'A' <= s[i] <= 'Z'
  }

  /** `s.match(/[a-z]/g)` finds something. */
  predicate HasLower(s: string)
  {
    exists i :: 0 <= i < |s| && 'a' <= s[i] <= 'z'
  }

  const SpecialCharacters: string := "!@#$%&*()"

  /** `s.match(/[!@#$%&*()]/g)` finds something. */
  predicate HasSpecial(s: string)
  {
    exists i :: 0 <= i < |s| && s[i] in SpecialCharacters
  }

  /** `s.match(/[0-9]/g)` finds something. */
  predicate HasDigit(s: string)
  {
    exists i :: 0 <= i < |s| && '0' <= s[i] <= '9'
  }

  /** The composition a password must have. */
  predicate PasswordFormatOk(password: string)
  {
    HasUpper(password) && HasLower(password) && HasSpecial(password) && HasDigit(password)
  }

  /** The first check that fails, or `Passed`. */
  datatype Check = BlankFields | InvalidFormat | DifferentPasswords | Passed

  /** The checks in the order both forms run them: blank fields, then the password's
      composition, then whether the confirmation matches; `allFilled` is whether every
      field the form requires is non-empty. */
  function CheckPasswords(allFilled: bool, password: string, confirm: string): (r: Check)
    ensures r == BlankFields <==> !allFilled
    ensures r == InvalidFormat <==> allFilled && !PasswordFormatOk(password)
    ensures r == DifferentPasswords <==> allFilled && PasswordFormatOk(password) && password != confirm
    ensures r == Passed <==> allFilled && PasswordFormatOk(password) && password == confirm
  {
    if !allFilled then BlankFields
    else if !PasswordFormatOk(password) then InvalidFormat
    else if password != confirm then DifferentPasswords
    else Passed
  }

  const FormatMessage: string :=
    "Senha precisa possuir:\n - 01 Letra mai\U{00FA}scula\n - 01 Letra min\U{00FA}scula\n - 01 Caracter especial\n - 01 N\U{00FA}mero"
  const BlankMessage: string := "Favor preencher todos os campos."
  const DifferentMessage: string := "Senhas precisam ser iguais."
  const AlreadyRegisteredMessage: string := "J\U{00E1} existe um usu\U{00E1}rio cadastrado com este e-mail."

  /** `invalidMessage`: the message for the highest-priority flag that is set. The
      reset-password form has no already-registered flag and passes `false`. */
  function InvalidMessage(format: bool, blank: bool, different: bool, already: bool): (r: string)
    ensures r == FormatMessage <==> format
    ensures r == BlankMessage <==> !format && blank
    ensures r == DifferentMessage <==> !format && !blank && different
    ensures r == AlreadyRegisteredMessage <==> !format && !blank && !different && already
    ensures r == "" <==> !format && !blank && !different && !already
  {
    if format then FormatMessage
    else if blank then BlankMessage
    else if different then DifferentMessage
    else if already then AlreadyRegisteredMessage
    else ""
  }
}
