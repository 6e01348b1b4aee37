/** The login endpoint (app/api/auth/login/route.ts): validate the body, find the account
    by email, check the password, refuse inactive accounts, and hand out a token. The
    password check (bcrypt) and the token signer (JWT) are parameters. */
module LoginRoute {
  import opened Common
  import Validators

  /** The success body: the account without its password, and the signed token. */
  datatype Session = Session(user: PublicUser, token: string)

  const BadCredentials: string := "Invalid email or password"

  /** POST, in the handler's order: 400 for a body the login schema refuses; 401 for an
      unknown email; 401 with the same message for a wrong password; 403 for an inactive
      account; otherwise the session. */
  function Login(users: seq<User>, raw: Validators.RawLogin, isEmail: string -> bool,
                 verify: (string, string) -> bool, sign: (string, string, Role) -> string)
    : (r: Response<Session>)
    ensures Validators.ParseLogin(raw, isEmail).None? <==> r.Failure? && r.status == 400
    ensures r.Ok? ==>
              && r.status == 200
              && var u := FindUserByEmail(users, raw.email.value);
                 && u.Some? && u.value.isActive && verify(raw.password.value, u.value.password)
                 && r.body == Session(Sanitize(u.value), sign(u.value.id, u.value.email, u.value.role))
    ensures r.Failure? && r.status == 403 ==>
              var u := FindUserByEmail(users, raw.email.value);
              u.Some? && verify(raw.password.value, u.value.password) && !u.value.isActive
  {
    match Validators.ParseLogin(raw, isEmail)
    case None => Failure(400, "Validation failed")
    case Some(form) =>
      match FindUserByEmail(users, form.email)
      case None => Failure(401, BadCredentials)
      case Some(user) =>
        if !verify(form.password, user.password) then Failure(401, BadCredentials)
        else if !user.isActive then Failure(403, "Account is inactive. Please contact support.")
        else Ok(200, Session(Sanitize(user), sign(user.id, user.email, user.role)))
  }

  /** An unknown email and a wrong password get the same answer, so a caller cannot tell
      whether an account exists. */
  lemma UnknownEmailLooksLikeWrongPassword(users: seq<User>, raw: Validators.RawLogin, isEmail: string -> bool,
                                           verify: (string, string) -> bool, sign: (string, string, Role) -> string,
                                           other: User)
    requires Validators.LoginValid(raw, isEmail)
    requires FindUserByEmail(users, raw.email.value).None?
    requires other.email == raw.email.value && !verify(raw.password.value, other.password)
    ensures Login(users, raw, isEmail, verify, sign) == Login([other] + users, raw, isEmail, verify, sign)
    ensures Login(users, raw, isEmail, verify, sign) == Failure(401, BadCredentials)
  {
    assert ([other] + users)[0] == other;
  }

  /** A valid body for a known email is refused with 401 exactly when the password does not
      verify, whatever the account's state. */
  lemma PasswordDecidesFirst(users: seq<User>, raw: Validators.RawLogin, isEmail: string -> bool,
                             verify: (string, string) -> bool, sign: (string, string, Role) -> string)
    requires Validators.LoginValid(raw, isEmail)
    requires FindUserByEmail(users, raw.email.value).Some?
    ensures var u := FindUserByEmail(users, raw.email.value).value;
            var r := Login(users, raw, isEmail, verify, sign);
      && (r == Failure(401, BadCredentials) <==> !verify(raw.password.value, u.password))
      && (r.Ok? <==> verify(raw.password.value, u.password) && u.isActive)
  {
  }
}
