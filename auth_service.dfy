/**
 * `AuthService`: signup, login, me, refresh and the Google sign-in, over the
 * user repository. Each operation is a method on the repository proved equal
 * to a specification function of the store before the call; the properties
 * the service promises are lemmas about those functions.
 */
module AuthService {
  import opened Wrappers
  import opened UserModel
  import opened AuthUtil
  import opened UserStore
  import Jwt

  /** The errors the service throws, by their kind. */
  datatype AuthError =
    | EmailInUse
    | InvalidCredentials
    | UserNotFound
    | GoogleAuthFailed
    | TokenRejected(jwtError: Jwt.JwtError)
    | StoreRejected(storeError: StoreError)

  /** The `message` of each thrown error. The store's own messages are abbreviated. */
  function Message(e: AuthError): string
  {
    match e
    case EmailInUse => "Email already in use"
    case InvalidCredentials => "Invalid credentials"
    case UserNotFound => "User not found"
    case GoogleAuthFailed => "Google authentication failed"
    case TokenRejected(reason) => Jwt.Message(reason)
    case StoreRejected(ValidationFailed) => "User validation failed"
    case StoreRejected(DuplicateKey) => "E11000 duplicate key error"
  }

  /** The Google profile (`userinfo.get`); any field may be missing. */
  datatype GoogleProfile = GoogleProfile(id: Option<string>, email: Option<string>, name: Option<string>)

  /** What the authorization-code exchange and profile fetch (RFC 6749,
      section 4.1) return for the code: a failure or a profile. */
  datatype GoogleExchange = ExchangeFailed | Exchanged(profile: GoogleProfile)

  /** `{ user, accessToken, refreshToken }`. */
  datatype Session = Session(user: User, accessToken: AuthToken, refreshToken: AuthToken)

  function Issue(cfg: JwtConfig, u: User, now: nat): Session
  {
    Session(u, SignAccessToken(cfg, u, now), SignRefreshToken(cfg, u, now))
  }

  /** JavaScript truthiness of an optional string: present and non-empty. */
  predicate Truthy(s: Option<string>)
  {
    s.Some? && s.value != ""
  }

  // ---------------------------------------------------------------------------
  // Specification functions: the result and the store after each operation.

  function SignupSpec(db: Db, cfg: JwtConfig, name: string, email: string, password: string,
                      salt: nat, now: nat): (Result<Session, AuthError>, Db)
  {
    if EmailTaken(db.users, email) then (Err(EmailInUse), db)
    else
      var (created, db') := CreateSpec(db, Draft(name, email, Some(HashPassword(password, salt)), Some(Local), None), now);
      if created.Err? then (Err(StoreRejected(created.error)), db')
      else (Ok(Issue(cfg, created.value, now)), db')
  }

  ghost function LoginSpec(db: Db, cfg: JwtConfig, email: string, password: string, now: nat): Result<Session, AuthError>
  {
    match ByEmail(db.users, email)
    case None => Err(InvalidCredentials)
    case Some(u) =>
      if u.authProvider != Local || !ComparePassword(u, password) then Err(InvalidCredentials)
      else Ok(Issue(cfg, u, now))
  }

  function MeSpec(db: Db, cfg: JwtConfig, token: AuthToken, now: nat): Result<User, AuthError>
  {
    match VerifyAccessToken(cfg, token, now)
    case Err(e) => Err(TokenRejected(e))
    case Ok(payload) =>
      if payload.sub in db.users then Ok(db.users[payload.sub]) else Err(UserNotFound)
  }

  function RefreshSpec(db: Db, cfg: JwtConfig, token: AuthToken, now: nat): Result<AuthToken, AuthError>
  {
    match VerifyRefreshToken(cfg, token, now)
    case Err(e) => Err(TokenRejected(e))
    case Ok(payload) =>
      if payload.sub in db.users then Ok(SignAccessToken(cfg, db.users[payload.sub], now))
      else Err(UserNotFound)
  }

  /** The account the Google sign-in resolves to: create one for an unseen
      email, link a local account in place, take a Google account as it is.
      Every failure, store errors included, becomes `GoogleAuthFailed`. */
  ghost function GoogleAuthSpec(db: Db, cfg: JwtConfig, ex: GoogleExchange, now: nat): (Result<Session, AuthError>, Db)
    requires Consistent(db)
  {
    if ex.ExchangeFailed? then (Err(GoogleAuthFailed), db)
    else
      var p := ex.profile;
      if !Truthy(p.email) || !Truthy(p.name) then (Err(GoogleAuthFailed), db)
      else
        match ByEmail(db.users, p.email.value)
        case None =>
          var (created, db') := CreateSpec(db, Draft(p.name.value, p.email.value, None, Some(Google), p.id), now);
          if created.Err? then (Err(GoogleAuthFailed), db')
          else (Ok(Issue(cfg, created.value, now)), db')
        case Some(u) =>
          if u.authProvider == Local then
            var (saved, db') := SaveSpec(db, u.(authProvider := Google, googleId := p.id), now);
            if saved.Err? then (Err(GoogleAuthFailed), db')
            else (Ok(Issue(cfg, saved.value, now)), db')
          else (Ok(Issue(cfg, u, now)), db)
  }

  // ---------------------------------------------------------------------------
  // The operations, against the repository.

  method Signup(repo: UserRepository, cfg: JwtConfig, name: string, email: string, password: string,
                salt: nat, now: nat) returns (r: Result<Session, AuthError>)
    requires repo.Valid()
    modifies repo
    ensures repo.Valid()
    ensures (r, repo.State()) == SignupSpec(old(repo.State()), cfg, name, email, password, salt, now)
  {
    var existing := repo.FindByEmail(email);
    if existing.Some? {
      return Err(EmailInUse);
    }
    var passwordHash := HashPassword(password, salt);
    var created := repo.Create(Draft(name, email, Some(passwordHash), Some(Local), None), now);
    if created.Err? {
      return Err(StoreRejected(created.error));
    }
    var user := created.value;
    r := Ok(Session(user, SignAccessToken(cfg, user, now), SignRefreshToken(cfg, user, now)));
  }

  method Login(repo: UserRepository, cfg: JwtConfig, email: string, password: string, now: nat)
    returns (r: Result<Session, AuthError>)
    requires repo.Valid()
    ensures r == LoginSpec(repo.State(), cfg, email, password, now)
  {
    var user := repo.FindByEmail(email);
    if user.None? || user.value.authProvider != Local || !ComparePassword(user.value, password) {
      return Err(InvalidCredentials);
    }
    r := Ok(Session(user.value, SignAccessToken(cfg, user.value, now), SignRefreshToken(cfg, user.value, now)));
  }

  method Me(repo: UserRepository, cfg: JwtConfig, token: AuthToken, now: nat) returns (r: Result<User, AuthError>)
    ensures r == MeSpec(repo.State(), cfg, token, now)
  {
    var payload := VerifyAccessToken(cfg, token, now);
    if payload.Err? {
      return Err(TokenRejected(payload.error));
    }
    var user := repo.FindById(payload.value.sub);
    if user.None? {
      return Err(UserNotFound);
    }
    r := Ok(user.value);
  }

  method Refresh(repo: UserRepository, cfg: JwtConfig, token: AuthToken, now: nat) returns (r: Result<AuthToken, AuthError>)
    ensures r == RefreshSpec(repo.State(), cfg, token, now)
  {
    var payload := VerifyRefreshToken(cfg, token, now);
    if payload.Err? {
      return Err(TokenRejected(payload.error));
    }
    var user := repo.FindById(payload.value.sub);
    if user.None? {
      return Err(UserNotFound);
    }
    r := Ok(SignAccessToken(cfg, user.value, now));
  }

  method GoogleAuth(repo: UserRepository, cfg: JwtConfig, ex: GoogleExchange, now: nat)
    returns (r: Result<Session, AuthError>)
    requires repo.Valid()
    modifies repo
    ensures repo.Valid()
    ensures (r, repo.State()) == GoogleAuthSpec(old(repo.State()), cfg, ex, now)
  {
    if ex.ExchangeFailed? {
      return Err(GoogleAuthFailed);
    }
    var data := ex.profile;
    if !Truthy(data.email) || !Truthy(data.name) {
      return Err(GoogleAuthFailed);
    }
    var user := repo.FindByEmail(data.email.value);
    var account: User;
    if user.None? {
      var created := repo.Create(Draft(data.name.value, data.email.value, None, Some(Google), data.id), now);
      if created.Err? {
        return Err(GoogleAuthFailed);
      }
      account := created.value;
    } else if user.value.authProvider == Local {
      var saved := repo.Save(user.value.(authProvider := Google, googleId := data.id), now);
      if saved.Err? {
        return Err(GoogleAuthFailed);
      }
      account := saved.value;
    } else {
      account := user.value;
    }
    r := Ok(Session(account, SignAccessToken(cfg, account, now), SignRefreshToken(cfg, account, now)));
  }
}
