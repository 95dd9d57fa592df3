/**
 * The account routes: registration, which derives the account slug and stores
 * a new user, and login, which looks the user up, checks the password and
 * issues a token.
 */
module AccountController {
  import opened Wrappers
  import opened Strings
  import opened Models
  import opened Responses
  import opened ModelStateExtension
  import opened LoginViewModels

  const InvalidCredentialsMessage: string := "Usuário ou senha inválido"
  const DuplicateEmailMessage: string := "Este E-mail já está cadastrado"
  const InternalErrorMessage: string := "Erro interno no servidor ao processar a requisição"

  /** The length of the password generated for a new account. */
  const GeneratedPasswordLength: nat := 25

  /** `email.Replace('@', '-').Replace('.', '-')`, with the letters' case kept. */
  function AccountSlug(email: string): (slug: string)
    ensures |slug| == |email|
    ensures forall i :: 0 <= i < |email| ==>
              slug[i] == (if email[i] == '@' || email[i] == '.' then '-' else email[i])
  {
    Replace(Replace(email, '@', '-'), '.', '-')
  }

  /** A slug holds neither separator, and deriving it again changes nothing. */
  lemma AccountSlugIsSeparatorFree(email: string)
    ensures '@' !in AccountSlug(email) && '.' !in AccountSlug(email)
    ensures AccountSlug(AccountSlug(email)) == AccountSlug(email)
  {
    ReplaceRemovesAll(Replace(email, '@', '-'), '.', '-');
    var s := AccountSlug(email);
    assert forall i :: 0 <= i < |s| ==> s[i] != '@' && s[i] != '.';
  }

  /** `FirstOrDefault(x => x.Email == email)`: the first user with that e-mail, if any. */
  function FirstByEmail(users: seq<User>, email: string): (r: Option<User>)
    ensures r.Some? <==> exists i :: 0 <= i < |users| && users[i].email == email
    ensures r.Some? ==> exists i :: 0 <= i < |users| && users[i] == r.value && r.value.email == email
                          && forall j :: 0 <= j < i ==> users[j].email != email
  {
    if users == [] then None
    else if users[0].email == email then Some(users[0])
    else
      var r := FirstByEmail(users[1..], email);
      assert forall i :: 0 < i < |users| ==> users[i] == users[1..][i - 1];
      r
  }

  /** When e-mails are unique, the user the lookup finds is the only one with that e-mail. */
  lemma FirstByEmailUnique(users: seq<User>, email: string)
    requires forall i, j :: 0 <= i < j < |users| ==> users[i].email != users[j].email
    ensures forall i :: 0 <= i < |users| && users[i].email == email ==>
              FirstByEmail(users, email) == Some(users[i])
  {
  }

  /** Appending a user whose e-mail nobody has leaves every other lookup unchanged and finds the new one. */
  lemma {:induction false} FirstByEmailAppend(users: seq<User>, u: User, email: string)
    requires FirstByEmail(users, u.email).None?
    ensures FirstByEmail(users + [u], email) ==
              if email == u.email then Some(u) else FirstByEmail(users, email)
  {
    if users == [] {
      assert users + [u] == [u];
      assert [u][1..] == [];
    } else {
      assert (users + [u])[0] == users[0];
      assert (users + [u])[1..] == users[1..] + [u];
      if users[0].email != email {
        FirstByEmailAppend(users[1..], u, email);
      }
    }
  }

  /**
   * `Login`: an invalid payload gets 400 with its errors; an unknown e-mail and
   * a wrong password against a stored hash both get 401 with one message; a
   * user without a hash is not checked at all. `verify` is
   * `PasswordHasher.Verify(hash, password)` and `generateToken` the token
   * service, `None` when it throws.
   */
  function Login(model: LoginViewModel, isEmail: string -> bool, users: seq<User>,
                 verify: (string, string) -> bool, generateToken: User -> Option<string>): (r: Response)
    ensures r.status in {200, 400, 401, 500}
    ensures r.body.Data? <==> r.status == 200
    ensures r.status == 400 <==> !IsValid(Validate(model, isEmail))
    ensures r.status == 400 ==> r.body == Errors(GetErrors(Validate(model, isEmail)))
    ensures r.status == 401 <==>
              IsValid(Validate(model, isEmail))
              && var found := FirstByEmail(users, model.email.value);
                 (found.None?
                  || (found.value.passwordHash.Some? && !verify(found.value.passwordHash.value, model.password.value)))
    ensures r.status == 401 ==> r == Fail(401, InvalidCredentialsMessage)
    ensures r.status == 500 ==> r == Fail(500, InternalErrorMessage)
  {
    var ms := Validate(model, isEmail);
    if !IsValid(ms) then BadRequest(GetErrors(ms))
    else
      var found := FirstByEmail(users, model.email.value);
      if found.None? then Fail(401, InvalidCredentialsMessage)
      else if found.value.passwordHash.Some? && !verify(found.value.passwordHash.value, model.password.value)
      then Fail(401, InvalidCredentialsMessage)
      else
        match generateToken(found.value)
        case None => Fail(500, InternalErrorMessage)
        case Some(token) => Ok(TokenData(token))
  }

  /** An invalid payload is answered with its errors before any lookup, check or issuance. */
  lemma LoginRejectsInvalidPayload(model: LoginViewModel, isEmail: string -> bool,
                                   users: seq<User>, verify: (string, string) -> bool, generateToken: User -> Option<string>,
                                   users': seq<User>, verify': (string, string) -> bool, generateToken': User -> Option<string>)
    requires !IsValid(Validate(model, isEmail))
    ensures Login(model, isEmail, users, verify, generateToken) == BadRequest(GetErrors(Validate(model, isEmail)))
    ensures Login(model, isEmail, users, verify, generateToken) == Login(model, isEmail, users', verify', generateToken')
    ensures Login(model, isEmail, users, verify, generateToken).body.errors != []
  {
  }

  /** An unknown e-mail and a wrong password give the same 401 response. */
  lemma LoginFailuresIndistinguishable(model: LoginViewModel, isEmail: string -> bool,
                                       unknown: seq<User>, known: seq<User>,
                                       verify: (string, string) -> bool, generateToken: User -> Option<string>)
    requires IsValid(Validate(model, isEmail))
    requires FirstByEmail(unknown, model.email.value).None?
    requires FirstByEmail(known, model.email.value).Some?
    requires FirstByEmail(known, model.email.value).value.passwordHash.Some?
    requires !verify(FirstByEmail(known, model.email.value).value.passwordHash.value, model.password.value)
    ensures Login(model, isEmail, unknown, verify, generateToken) == Login(model, isEmail, known, verify, generateToken)
    ensures Login(model, isEmail, known, verify, generateToken) == Fail(401, InvalidCredentialsMessage)
  {
  }

  /** A user without a password hash is never checked: the verifier does not matter and a token is issued. */
  lemma LoginWithoutHashSkipsVerifier(model: LoginViewModel, isEmail: string -> bool, users: seq<User>,
                                      verify: (string, string) -> bool, verify': (string, string) -> bool,
                                      generateToken: User -> Option<string>)
    requires IsValid(Validate(model, isEmail))
    requires FirstByEmail(users, model.email.value).Some?
    requires FirstByEmail(users, model.email.value).value.passwordHash.None?
    ensures Login(model, isEmail, users, verify, generateToken) == Login(model, isEmail, users, verify', generateToken)
    ensures Login(model, isEmail, users, verify, generateToken) ==
              match generateToken(FirstByEmail(users, model.email.value).value)
              case None => Fail(500, InternalErrorMessage)
              case Some(token) => Ok(TokenData(token))
  {
  }

  /**
   * A token is returned exactly when the payload is valid, a user has that
   * e-mail, its hash is absent or accepts the password, and the token service
   * succeeds; the token is the one issued for that user.
   */
  lemma LoginSucceedsIff(model: LoginViewModel, isEmail: string -> bool, users: seq<User>,
                         verify: (string, string) -> bool, generateToken: User -> Option<string>)
    ensures Login(model, isEmail, users, verify, generateToken).status == 200 <==>
              (IsValid(Validate(model, isEmail))
               && FirstByEmail(users, model.email.value).Some?
               && var u := FirstByEmail(users, model.email.value).value;
                  (u.passwordHash.None? || verify(u.passwordHash.value, model.password.value))
                  && generateToken(u).Some?)
    ensures Login(model, isEmail, users, verify, generateToken).status == 200 ==>
              Login(model, isEmail, users, verify, generateToken) ==
                Ok(TokenData(generateToken(FirstByEmail(users, model.email.value).value).value))
  {
  }

  /** The account `Post` builds for a registration. */
  function NewUser(name: string, email: string, hash: string): (u: User)
    ensures u.name == name && u.email == email && u.passwordHash == Some(hash)
    ensures u.slug == AccountSlug(email) && u.roles == Some([])
    ensures |u.slug| == |email| && '@' !in u.slug && '.' !in u.slug
  {
    AccountSlugIsSeparatorFree(email);
    User(name, email, AccountSlug(email), Some(hash), Some([]))
  }

  /**
   * The users table. E-mails are unique (the database's unique index, which
   * makes saving a second account with a known e-mail throw), so by
   * `FirstByEmailUnique` the user a login finds is the only one with its e-mail.
   */
  class UserStore {
    var users: seq<User>

    ghost predicate Valid()
      reads this
    {
      forall i, j :: 0 <= i < j < |users| ==> users[i].email != users[j].email
    }

    constructor ()
      ensures Valid() && users == []
    {
      users := [];
    }

    /**
     * `Post` (registration). `ms` is the bound state of the payload,
     * `generated` the generated password, `hash` its hash, and `fault` what the
     * database did with the insert. A failed insert stores nothing.
     */
    method Register(ms: ModelState, name: string, email: string, generated: string, hash: string, fault: Fault)
      returns (r: Response)
      requires Valid()
      requires |generated| == GeneratedPasswordLength
      modifies this
      ensures Valid()
      ensures !IsValid(ms) ==> r == BadRequest(GetErrors(ms)) && users == old(users)
      ensures IsValid(ms) && fault == OtherFailure ==>
                r == Fail(500, InternalErrorMessage) && users == old(users)
      ensures IsValid(ms) && fault != OtherFailure
              && (FirstByEmail(old(users), email).Some? || fault == UpdateFailure) ==>
                r == Fail(400, DuplicateEmailMessage) && users == old(users)
      ensures IsValid(ms) && fault == NoFault && FirstByEmail(old(users), email).None? ==>
                r == Ok(RegisteredData(email, generated)) && users == old(users) + [NewUser(name, email, hash)]
    {
      if !IsValid(ms) {
        return BadRequest(GetErrors(ms));
      }
      var user := NewUser(name, email, hash);
      if fault == OtherFailure {
        return Fail(500, InternalErrorMessage);
      }
      if fault == UpdateFailure || FirstByEmail(users, email).Some? {
        return Fail(400, DuplicateEmailMessage);
      }
      users := users + [user];
      r := Ok(RegisteredData(user.email, generated));
    }
  }

  /**
   * After a registration succeeds, logging in with the returned e-mail and
   * password yields the token issued for the new account, given a hasher whose
   * `Verify` accepts the password the hash was made from.
   */
  lemma RegisteredUserCanLogIn(users: seq<User>, name: string, email: string, generated: string, hash: string,
                               isEmail: string -> bool, verify: (string, string) -> bool,
                               generateToken: User -> Option<string>, token: string)
    requires FirstByEmail(users, email).None?
    requires isEmail(email) && !IsBlank(email) && !IsBlank(generated)
    requires verify(hash, generated)
    requires generateToken(NewUser(name, email, hash)) == Some(token)
    ensures Login(LoginViewModel(Some(generated), Some(email)), isEmail, users + [NewUser(name, email, hash)],
                  verify, generateToken) == Ok(TokenData(token))
  {
    FirstByEmailAppend(users, NewUser(name, email, hash), email);
  }
}
