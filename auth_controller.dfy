/**
 * `AuthController`: the HTTP handlers. Input bounds, Bearer extraction and
 * the public projection of a user are pure rules; each handler is a method
 * that writes a response object step by step (cookie, status, body), as the
 * framework's response does.
 */
module AuthController {
  import opened Wrappers
  import opened UserModel
  import opened AuthUtil
  import opened UserStore
  import AuthService
  import AuthServiceProperties
  import Bcrypt
  import Jwt

  // ---------------------------------------------------------------------------
  // Request validation (the signup and login schemas)

  /** A parsed JSON body: a field that is absent or not a string is `None`. */
  datatype SignupBody = SignupBody(name: Option<string>, email: Option<string>, password: Option<string>)

  datatype LoginBody = LoginBody(email: Option<string>, password: Option<string>)

  datatype SignupInput = SignupInput(name: string, email: string, password: string)

  datatype LoginInput = LoginInput(email: string, password: string)

  const MinNameLength: nat := 2
  const MinPasswordLength: nat := 6

  /** The JavaScript `length` of a string: UTF-16 code units, so a character
      beyond U+FFFF (a surrogate pair) counts twice. */
  function Utf16Length(s: string): (n: nat)
    ensures |s| <= n <= 2 * |s|
  {
    if s == [] then 0
    else (if s[0] as int >= 0x1_0000 then 2 else 1) + Utf16Length(s[1..])
  }

  /** An emoji such as U+1F600 has length 2, so it alone meets a minimum of 2. */
  lemma Utf16LengthOfSurrogatePair(rest: string)
    ensures Utf16Length("\U{1F600}" + rest) == 2 + Utf16Length(rest)
  {
    assert ("\U{1F600}" + rest)[1..] == rest;
  }

  /** A string field present with a JavaScript length of at least `n` (`z.string().min(n)`). */
  predicate AtLeast(field: Option<string>, n: nat)
  {
    field.Some? && Utf16Length(field.value) >= n
  }

  /** The signup schema; `isEmail` is the validation library's email format check. */
  function ParseSignup(body: SignupBody, isEmail: string -> bool): (r: Option<SignupInput>)
    ensures r.Some? <==>
      && AtLeast(body.name, MinNameLength)
      && body.email.Some? && isEmail(body.email.value)
      && AtLeast(body.password, MinPasswordLength)
    ensures r.Some? ==> Utf16Length(r.value.name) >= 2 && Utf16Length(r.value.password) >= 6 && isEmail(r.value.email)
    ensures r.Some? ==>
      body == SignupBody(Some(r.value.name), Some(r.value.email), Some(r.value.password))
  {
    if AtLeast(body.name, MinNameLength) && body.email.Some? && isEmail(body.email.value)
       && AtLeast(body.password, MinPasswordLength)
    then Some(SignupInput(body.name.value, body.email.value, body.password.value))
    else None
  }

  /** The login schema. */
  function ParseLogin(body: LoginBody, isEmail: string -> bool): (r: Option<LoginInput>)
    ensures r.Some? <==> body.email.Some? && isEmail(body.email.value) && AtLeast(body.password, MinPasswordLength)
    ensures r.Some? ==> Utf16Length(r.value.password) >= 6 && isEmail(r.value.email)
    ensures r.Some? ==> body == LoginBody(Some(r.value.email), Some(r.value.password))
  {
    if body.email.Some? && isEmail(body.email.value) && AtLeast(body.password, MinPasswordLength)
    then Some(LoginInput(body.email.value, body.password.value))
    else None
  }

  /** Input that passed the signup schema can only fail in the service on a
      taken email: the store's required-field check never fires. */
  lemma ValidatedSignupFailsOnlyOnTakenEmail(db: Db, cfg: JwtConfig, body: SignupBody, isEmail: string -> bool,
                                             salt: nat, now: nat)
    requires Consistent(db)
    requires !isEmail("")
    requires ParseSignup(body, isEmail).Some?
    ensures var input := ParseSignup(body, isEmail).value;
      var r := AuthService.SignupSpec(db, cfg, input.name, input.email, input.password, salt, now).0;
      r.Err? <==> EmailTaken(db.users, input.email)
    ensures var input := ParseSignup(body, isEmail).value;
      var r := AuthService.SignupSpec(db, cfg, input.name, input.email, input.password, salt, now).0;
      r.Err? ==> r.error == AuthService.EmailInUse
  {
    var input := ParseSignup(body, isEmail).value;
    assert input.name != "" && input.email != "";
    AuthServiceProperties.SignupCreatesOneLocalUser(db, cfg, input.name, input.email, input.password, salt, now);
  }

  // ---------------------------------------------------------------------------
  // Bearer extraction (RFC 6750, section 2.1)

  const BearerPrefix := "Bearer "

  /** The token of an `Authorization` header: present only when the header
      starts with exactly "Bearer " (case-sensitive), and then the rest of it. */
  function BearerToken(auth: Option<string>): (token: Option<string>)
    ensures token.Some? <==> auth.Some? && BearerPrefix <= auth.value
    ensures token.Some? ==> auth.value == BearerPrefix + token.value
  {
    if auth.Some? && BearerPrefix <= auth.value then Some(auth.value[7..]) else None
  }

  lemma BearerRoundTrip(token: string)
    ensures BearerToken(Some(BearerPrefix + token)) == Some(token)
  {
    assert BearerPrefix <= BearerPrefix + token;
    assert (BearerPrefix + token)[7..] == token;
  }

  /** The scheme name is matched case-sensitively, and the space is required. */
  lemma BearerIsExact(token: string)
    ensures BearerToken(Some("bearer " + token)).None?
    ensures BearerToken(Some("Bearer")).None?
  {
    assert ("bearer " + token)[0] == 'b';
  }

  /** The header "Bearer " with nothing after it passes the prefix test; the
      empty token then fails in `me` with "jwt must be provided". */
  lemma EmptyBearerTokenMustBeProvided(db: Db, cfg: JwtConfig, parse: string -> AuthToken, now: nat)
    ensures BearerToken(Some(BearerPrefix)) == Some("")
    ensures AuthService.MeSpec(db, cfg, Jwt.Decode(BearerToken(Some(BearerPrefix)).value, parse), now)
            == Err(AuthService.TokenRejected(Jwt.JwtMissing))
    ensures AuthService.Message(AuthService.TokenRejected(Jwt.JwtMissing)) == "jwt must be provided"
  {
    BearerRoundTrip("");
    assert BearerPrefix + "" == BearerPrefix;
  }

  // ---------------------------------------------------------------------------
  // Responses

  /** The user object sent to clients: `{ id, name, email, createdAt }`. */
  datatype PublicUser = PublicUser(id: UserId, name: string, email: string, createdAt: nat)

  function PublicView(u: User): PublicUser
  {
    PublicUser(u.id, u.name, u.email, u.createdAt)
  }

  /** The public view never depends on the password hash, the provider, the
      Google id or the update time; so linking leaves it as it was. */
  lemma PublicViewOmitsCredentials(u: User, hash: Option<Bcrypt.Digest>, provider: Provider,
                                   googleId: Option<string>, updated: nat)
    ensures PublicView(u.(passwordHash := hash, authProvider := provider, googleId := googleId, updatedAt := updated))
            == PublicView(u)
  {
  }

  /** The refresh cookie lives seven days, in milliseconds. */
  const RefreshCookieMaxAgeMs: nat := 7 * 24 * 60 * 60 * 1000

  datatype CookieOp =
    | NoCookie
    | SetRefreshCookie(token: AuthToken, httpOnly: bool, maxAgeMs: nat)
    | ClearRefreshCookie(httpOnly: bool)

  function RefreshCookie(token: AuthToken): CookieOp
  {
    SetRefreshCookie(token, true, RefreshCookieMaxAgeMs)
  }

  datatype Body =
    | NoBody
    | SessionJson(accessToken: AuthToken, user: PublicUser)
    | UserJson(user: PublicUser)
    | AccessTokenJson(accessToken: AuthToken)
    | MessageJson(message: string)
    | InvalidInputJson
    | RedirectToDashboard(accessToken: AuthToken, user: PublicUser)

  /** The framework's response object: status (200 until set), body, refresh cookie. */
  class HttpResponse {
    var status: nat
    var body: Body
    var cookie: CookieOp

    predicate IsNew()
      reads this
    {
      status == 200 && body == NoBody && cookie == NoCookie
    }

    constructor ()
      ensures IsNew()
    {
      status := 200;
      body := NoBody;
      cookie := NoCookie;
    }

    method SetCookie(op: CookieOp)
      modifies this
      ensures cookie == op && status == old(status) && body == old(body)
    {
      cookie := op;
    }

    method Status(code: nat)
      modifies this
      ensures status == code && body == old(body) && cookie == old(cookie)
    {
      status := code;
    }

    method Send(b: Body)
      modifies this
      ensures body == b && status == old(status) && cookie == old(cookie)
    {
      body := b;
    }
  }

  // ---------------------------------------------------------------------------
  // Handlers

  method Signup(repo: UserRepository, cfg: JwtConfig, isEmail: string -> bool, req: SignupBody,
                salt: nat, now: nat, res: HttpResponse)
    requires repo.Valid() && res.IsNew()
    modifies repo, res
    ensures repo.Valid()
    ensures match ParseSignup(req, isEmail)
      case None =>
        res.status == 400 && res.body == InvalidInputJson && res.cookie == NoCookie
        && repo.State() == old(repo.State())
      case Some(input) =>
        var (r, db') := AuthService.SignupSpec(old(repo.State()), cfg, input.name, input.email, input.password, salt, now);
        && repo.State() == db'
        && (r.Ok? ==> res.status == 201 && res.body == SessionJson(r.value.accessToken, PublicView(r.value.user))
                      && res.cookie == RefreshCookie(r.value.refreshToken))
        && (r.Err? ==> res.status == 400 && res.body == MessageJson(AuthService.Message(r.error))
                       && res.cookie == NoCookie)
  {
    var input := ParseSignup(req, isEmail);
    if input.None? {
      res.Status(400);
      res.Send(InvalidInputJson);
      return;
    }
    var r := AuthService.Signup(repo, cfg, input.value.name, input.value.email, input.value.password, salt, now);
    if r.Err? {
      res.Status(400);
      res.Send(MessageJson(AuthService.Message(r.error)));
      return;
    }
    res.SetCookie(RefreshCookie(r.value.refreshToken));
    res.Status(201);
    res.Send(SessionJson(r.value.accessToken, PublicView(r.value.user)));
  }

  method Login(repo: UserRepository, cfg: JwtConfig, isEmail: string -> bool, req: LoginBody,
               now: nat, res: HttpResponse)
    requires repo.Valid() && res.IsNew()
    modifies res
    ensures match ParseLogin(req, isEmail)
      case None => res.status == 400 && res.body == InvalidInputJson && res.cookie == NoCookie
      case Some(input) =>
        var r := AuthService.LoginSpec(repo.State(), cfg, input.email, input.password, now);
        && (r.Ok? ==> res.status == 200 && res.body == SessionJson(r.value.accessToken, PublicView(r.value.user))
                      && res.cookie == RefreshCookie(r.value.refreshToken))
        && (r.Err? ==> res.status == 400 && res.body == MessageJson("Invalid credentials") && res.cookie == NoCookie)
  {
    var input := ParseLogin(req, isEmail);
    if input.None? {
      res.Status(400);
      res.Send(InvalidInputJson);
      return;
    }
    var r := AuthService.Login(repo, cfg, input.value.email, input.value.password, now);
    if r.Err? {
      AuthServiceProperties.LoginFailsUniformly(repo.State(), cfg, input.value.email, input.value.password, now);
      res.Status(400);
      res.Send(MessageJson(AuthService.Message(r.error)));
      return;
    }
    res.SetCookie(RefreshCookie(r.value.refreshToken));
    res.Send(SessionJson(r.value.accessToken, PublicView(r.value.user)));
  }

  /** `parse` is the token library's reading of a non-empty token string; the
      string that follows "Bearer " goes to the service as `Jwt.Decode` of it. */
  method Me(repo: UserRepository, cfg: JwtConfig, parse: string -> AuthToken, auth: Option<string>,
            now: nat, res: HttpResponse)
    requires res.IsNew()
    modifies res
    ensures res.cookie == NoCookie
    ensures match BearerToken(auth)
      case None => res.status == 401 && res.body == MessageJson("Missing token")
      case Some(token) =>
        match AuthService.MeSpec(repo.State(), cfg, Jwt.Decode(token, parse), now)
        case Ok(u) => res.status == 200 && res.body == UserJson(PublicView(u))
        case Err(e) => res.status == 401 && res.body == MessageJson(AuthService.Message(e))
  {
    var token := BearerToken(auth);
    if token.None? {
      res.Status(401);
      res.Send(MessageJson("Missing token"));
      return;
    }
    var r := AuthService.Me(repo, cfg, Jwt.Decode(token.value, parse), now);
    if r.Err? {
      res.Status(401);
      res.Send(MessageJson(AuthService.Message(r.error)));
      return;
    }
    res.Send(UserJson(PublicView(r.value)));
  }

  /** Clears the refresh cookie; there is no server-side state to touch. */
  method Logout(res: HttpResponse)
    requires res.IsNew()
    modifies res
    ensures res.status == 204 && res.body == NoBody && res.cookie == ClearRefreshCookie(true)
  {
    res.SetCookie(ClearRefreshCookie(true));
    res.Status(204);
    res.Send(NoBody);
  }

  /** `cookie` is the refresh cookie as sent; `parse` reads it as for `Me`. */
  method Refresh(repo: UserRepository, cfg: JwtConfig, parse: string -> AuthToken, cookie: Option<string>,
                 now: nat, res: HttpResponse)
    requires res.IsNew()
    modifies res
    ensures res.cookie == NoCookie
    ensures !AuthService.Truthy(cookie) ==> res.status == 401 && res.body == MessageJson("Missing refresh token")
    ensures AuthService.Truthy(cookie) ==>
      match AuthService.RefreshSpec(repo.State(), cfg, Jwt.Decode(cookie.value, parse), now)
      case Ok(accessToken) => res.status == 200 && res.body == AccessTokenJson(accessToken)
      case Err(e) => res.status == 401 && res.body == MessageJson(AuthService.Message(e))
  {
    if !AuthService.Truthy(cookie) {
      res.Status(401);
      res.Send(MessageJson("Missing refresh token"));
      return;
    }
    var r := AuthService.Refresh(repo, cfg, Jwt.Decode(cookie.value, parse), now);
    if r.Err? {
      res.Status(401);
      res.Send(MessageJson(AuthService.Message(r.error)));
      return;
    }
    res.Send(AccessTokenJson(r.value));
  }

  /** `exchange` is what the provider answers for `code`. On success the client
      is redirected to the dashboard with the access token and the public user. */
  method GoogleCallback(repo: UserRepository, cfg: JwtConfig, code: Option<string>,
                        exchange: AuthService.GoogleExchange, now: nat, res: HttpResponse)
    requires repo.Valid() && res.IsNew()
    modifies repo, res
    ensures repo.Valid()
    ensures !AuthService.Truthy(code) ==>
      && res.status == 400 && res.body == MessageJson("Missing authorization code") && res.cookie == NoCookie
      && repo.State() == old(repo.State())
    ensures AuthService.Truthy(code) ==>
      var (r, db') := AuthService.GoogleAuthSpec(old(repo.State()), cfg, exchange, now);
      && repo.State() == db'
      && (r.Ok? ==> res.status == 302 && res.body == RedirectToDashboard(r.value.accessToken, PublicView(r.value.user))
                    && res.cookie == RefreshCookie(r.value.refreshToken))
      && (r.Err? ==> res.status == 500 && res.body == MessageJson("Google authentication failed")
                     && res.cookie == NoCookie)
  {
    if !AuthService.Truthy(code) {
      res.Status(400);
      res.Send(MessageJson("Missing authorization code"));
      return;
    }
    ghost var before := repo.State();
    var r := AuthService.GoogleAuth(repo, cfg, exchange, now);
    if r.Err? {
      AuthServiceProperties.GoogleAuthFailuresAreOpaque(before, cfg, exchange, now);
      res.Status(500);
      res.Send(MessageJson(AuthService.Message(r.error)));
      return;
    }
    res.SetCookie(RefreshCookie(r.value.refreshToken));
    res.Status(302);
    res.Send(RedirectToDashboard(r.value.accessToken, PublicView(r.value.user)));
  }
}
