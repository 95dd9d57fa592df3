/** The payload of the login route and its declared constraints. */
module LoginViewModels {
  import opened Wrappers
  import opened Strings
  import opened DataAnnotations
  import opened ModelStateExtension

  datatype LoginViewModel = LoginViewModel(password: Option<string>, email: Option<string>)

  const PasswordRequiredMessage: string := "Senha é obrigatório"
  const EmailRequiredMessage: string := "E-mail é obrigatório"
  const EmailInvalidMessage: string := "E-mail inválido"

  lemma MessagesDistinct()
    ensures PasswordRequiredMessage != EmailRequiredMessage
    ensures PasswordRequiredMessage != EmailInvalidMessage
    ensures EmailRequiredMessage != EmailInvalidMessage
  {
    assert PasswordRequiredMessage[0] != EmailRequiredMessage[0];
    assert PasswordRequiredMessage[0] != EmailInvalidMessage[0];
    assert EmailRequiredMessage[7] != EmailInvalidMessage[7];
  }

  function PasswordErrors(password: Option<string>): seq<string> {
    Check(RequiredHolds(password), PasswordRequiredMessage)
  }

  function EmailErrors(email: Option<string>, isEmail: string -> bool): seq<string> {
    Check(RequiredHolds(email), EmailRequiredMessage)
      + Check(EmailAddressHolds(email, isEmail), EmailInvalidMessage)
  }

  /**
   * Model validation of the login payload; `isEmail` is the framework's
   * e-mail format rule. The Email entry comes first: the validation state
   * keeps its entries sorted by key, shorter keys first. Within an entry the
   * messages follow the attributes' declaration order, and the
   * payload is valid exactly when both values are present and non-blank and
   * the e-mail has the right format: the password has no other constraint.
   */
  function Validate(m: LoginViewModel, isEmail: string -> bool): (ms: ModelState)
    ensures GetErrors(ms) == EmailErrors(m.email, isEmail) + PasswordErrors(m.password)
    ensures IsValid(ms) <==>
              (m.password.Some? && !IsBlank(m.password.value)
               && m.email.Some? && !IsBlank(m.email.value) && isEmail(m.email.value))
  {
    // "Email" (5 characters) sorts before "Password" (8 characters).
    var ms := [Entry("Email", EmailErrors(m.email, isEmail)), Entry("Password", PasswordErrors(m.password))];
    assert ms[1..] == [Entry("Password", PasswordErrors(m.password))];
    assert ms[1..][1..] == [];
    ms
  }

  /**
   * Each message is reported exactly when its own constraint fails, so the
   * Password and Email checks do not hide each other, and no other message
   * appears.
   */
  lemma ValidateMessages(m: LoginViewModel, isEmail: string -> bool)
    ensures PasswordRequiredMessage in GetErrors(Validate(m, isEmail)) <==> !RequiredHolds(m.password)
    ensures EmailRequiredMessage in GetErrors(Validate(m, isEmail)) <==> !RequiredHolds(m.email)
    ensures EmailInvalidMessage in GetErrors(Validate(m, isEmail)) <==> (m.email.Some? && !isEmail(m.email.value))
    ensures forall e :: e in GetErrors(Validate(m, isEmail)) ==>
              e == PasswordRequiredMessage || e == EmailRequiredMessage || e == EmailInvalidMessage
  {
    MessagesDistinct();
  }

  /** With both values missing, both Required messages are reported, Email's first. */
  lemma BothMissingReportsBoth(isEmail: string -> bool)
    ensures GetErrors(Validate(LoginViewModel(None, None), isEmail)) == [EmailRequiredMessage, PasswordRequiredMessage]
  {
  }
}
