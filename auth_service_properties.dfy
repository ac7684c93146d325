/**
 * What the service promises, stated over its specification functions:
 * no partial writes, a preserved schema, uniform login failures, tokens that
 * name the returned user, and the Google account-resolution policy with its
 * idempotence.
 */
module AuthServiceProperties {
  import opened Wrappers
  import opened UserModel
  import opened AuthUtil
  import opened UserStore
  import opened AuthService

  /** A record of a consistent store sits under its own id. */
  lemma StoredUnderOwnId(db: Db, u: User)
    requires Consistent(db) && u in db.users.Values
    ensures u.id in db.users && db.users[u.id] == u
  {
    var k :| k in db.users && db.users[k] == u;
  }

  // ---------------------------------------------------------------------------
  // signup

  /** A taken email fails with "Email already in use" before anything is hashed or written. */
  lemma SignupRejectsTakenEmail(db: Db, cfg: JwtConfig, name: string, email: string, password: string, salt: nat, now: nat)
    requires EmailTaken(db.users, email)
    ensures SignupSpec(db, cfg, name, email, password, salt, now) == (Err(EmailInUse), db)
  {
  }

  /** Signup succeeds exactly when the email is free and the required fields are
      non-empty; it then adds one local user, with the hashed password, under a
      fresh id, and changes no other record. On failure nothing is written. */
  lemma SignupCreatesOneLocalUser(db: Db, cfg: JwtConfig, name: string, email: string, password: string, salt: nat, now: nat)
    requires Consistent(db)
    ensures var (r, db') := SignupSpec(db, cfg, name, email, password, salt, now);
      && (r.Ok? <==> !EmailTaken(db.users, email) && name != "" && email != "")
      && (r.Err? ==> db' == db)
      && (r.Ok? ==>
            var u := r.value.user;
            && u.id !in db.users
            && db'.users == db.users[u.id := u]
            && u.name == name && u.email == email
            && u.authProvider == Local
            && u.passwordHash == Some(HashPassword(password, salt))
            && u.googleId.None?
            && u.createdAt == now
            && ComparePassword(u, password))
  {
    var (r, db') := SignupSpec(db, cfg, name, email, password, salt, now);
    if !EmailTaken(db.users, email) {
      var d := Draft(name, email, Some(HashPassword(password, salt)), Some(Local), None);
      CreateKeepsConsistent(db, d, now);
    }
  }

  lemma SignupKeepsConsistent(db: Db, cfg: JwtConfig, name: string, email: string, password: string, salt: nat, now: nat)
    requires Consistent(db)
    ensures Consistent(SignupSpec(db, cfg, name, email, password, salt, now).1)
  {
    if !EmailTaken(db.users, email) {
      CreateKeepsConsistent(db, Draft(name, email, Some(HashPassword(password, salt)), Some(Local), None), now);
    }
  }

  // ---------------------------------------------------------------------------
  // tokens returned with a session

  /** Both tokens of an issued session carry `{sub: user.id, email: user.email}`:
      the access token under the access secret, the refresh token under the refresh one. */
  lemma IssuedTokensNameUser(cfg: JwtConfig, u: User, issued: nat, now: nat)
    ensures Issue(cfg, u, issued).accessToken.payload == JwtPayload(u.id, u.email)
    ensures Issue(cfg, u, issued).refreshToken.payload == JwtPayload(u.id, u.email)
    ensures now < issued + cfg.accessTtl ==>
              VerifyAccessToken(cfg, Issue(cfg, u, issued).accessToken, now) == Ok(JwtPayload(u.id, u.email))
    ensures now < issued + cfg.refreshTtl ==>
              VerifyRefreshToken(cfg, Issue(cfg, u, issued).refreshToken, now) == Ok(JwtPayload(u.id, u.email))
  {
    if now < issued + cfg.accessTtl {
      AccessTokenRoundTrip(cfg, u, issued, now);
    }
    if now < issued + cfg.refreshTtl {
      RefreshTokenRoundTrip(cfg, u, issued, now);
    }
  }

  /** Signup, login and the Google sign-in return a session issued at the call
      time for the very user they return. */
  lemma SessionsAreIssuedForReturnedUser(db: Db, cfg: JwtConfig, name: string, email: string, password: string,
                                         salt: nat, ex: GoogleExchange, now: nat)
    requires Consistent(db)
    ensures var r := SignupSpec(db, cfg, name, email, password, salt, now).0;
      r.Ok? ==> r.value == Issue(cfg, r.value.user, now)
    ensures var r := LoginSpec(db, cfg, email, password, now);
      r.Ok? ==> r.value == Issue(cfg, r.value.user, now)
    ensures var r := GoogleAuthSpec(db, cfg, ex, now).0;
      r.Ok? ==> r.value == Issue(cfg, r.value.user, now)
  {
  }

  // ---------------------------------------------------------------------------
  // login

  /** Every login failure is the one "Invalid credentials" error. */
  lemma LoginFailsUniformly(db: Db, cfg: JwtConfig, email: string, password: string, now: nat)
    ensures LoginSpec(db, cfg, email, password, now).Err? ==>
              LoginSpec(db, cfg, email, password, now).error == InvalidCredentials
  {
  }

  /** Login succeeds exactly when a local user with that email accepts the
      password, and then returns that user. */
  lemma LoginSucceedsIff(db: Db, cfg: JwtConfig, email: string, password: string, now: nat)
    requires Consistent(db)
    ensures LoginSpec(db, cfg, email, password, now).Ok? <==>
              exists id :: id in db.users && db.users[id].email == email &&
                db.users[id].authProvider == Local && ComparePassword(db.users[id], password)
    ensures forall id :: id in db.users && db.users[id].email == email ==>
              (LoginSpec(db, cfg, email, password, now).Ok? ==> LoginSpec(db, cfg, email, password, now).value.user == db.users[id])
  {
    var r := LoginSpec(db, cfg, email, password, now);
    if r.Ok? {
      var u := ByEmail(db.users, email).value;
      StoredUnderOwnId(db, u);
      assert db.users[u.id].email == email;
    }
    forall id | id in db.users && db.users[id].email == email
      ensures r.Ok? ==> r.value.user == db.users[id]
    {
      ByEmailFinds(db.users, id);
    }
    if exists id :: id in db.users && db.users[id].email == email &&
         db.users[id].authProvider == Local && ComparePassword(db.users[id], password) {
      var id :| id in db.users && db.users[id].email == email &&
         db.users[id].authProvider == Local && ComparePassword(db.users[id], password);
      ByEmailFinds(db.users, id);
    }
  }

  /** A user created by the Google sign-in, having no password hash, never logs in. */
  lemma PasswordlessUserCannotLogin(db: Db, cfg: JwtConfig, id: UserId, password: string, now: nat)
    requires Consistent(db) && id in db.users && db.users[id].passwordHash.None?
    ensures LoginSpec(db, cfg, db.users[id].email, password, now) == Err(InvalidCredentials)
  {
    ByEmailFinds(db.users, id);
  }

  // ---------------------------------------------------------------------------
  // me and refresh

  /** A token that verifies but names no stored user fails with "User not found",
      in both `me` and `refresh`. */
  lemma DanglingSubjectIsUserNotFound(db: Db, cfg: JwtConfig, token: AuthToken, now: nat)
    ensures VerifyAccessToken(cfg, token, now).Ok? && VerifyAccessToken(cfg, token, now).value.sub !in db.users ==>
              MeSpec(db, cfg, token, now) == Err(UserNotFound)
    ensures VerifyRefreshToken(cfg, token, now).Ok? && VerifyRefreshToken(cfg, token, now).value.sub !in db.users ==>
              RefreshSpec(db, cfg, token, now) == Err(UserNotFound)
  {
  }

  /** `me` resolves a live access token issued for a stored user back to that user. */
  lemma MeResolvesIssuedUser(db: Db, cfg: JwtConfig, u: User, issued: nat, now: nat)
    requires u.id in db.users && db.users[u.id] == u
    requires now < issued + cfg.accessTtl
    ensures MeSpec(db, cfg, SignAccessToken(cfg, u, issued), now) == Ok(u)
  {
    AccessTokenRoundTrip(cfg, u, issued, now);
  }

  /** `refresh` answers with an access token only: signed with the access secret,
      for the user the refresh token names, expiring one access time-to-live
      after the call. The refresh token itself is not replaced. */
  lemma RefreshIssuesOnlyAccessToken(db: Db, cfg: JwtConfig, token: AuthToken, now: nat)
    ensures var r := RefreshSpec(db, cfg, token, now);
      r.Ok? ==>
        && token.Signed? && token.payload.sub in db.users
        && r.value.Signed?
        && r.value.key == cfg.accessSecret
        && r.value.payload == PayloadOf(db.users[token.payload.sub])
        && r.value.exp == now + cfg.accessTtl
  {
  }

  /** The refresh flow of a new account: the refresh token from signup, presented
      before it expires, yields an access token that `me` resolves to the new
      user; the refresh token stays usable for a later call too. */
  lemma SignupRefreshMe(db: Db, cfg: JwtConfig, name: string, email: string, password: string, salt: nat,
                        now: nat, t1: nat, t2: nat)
    requires Consistent(db)
    requires now <= t1 <= t2 < now + cfg.refreshTtl
    ensures var (r, db') := SignupSpec(db, cfg, name, email, password, salt, now);
      r.Ok? ==>
        && RefreshSpec(db', cfg, r.value.refreshToken, t1) == Ok(SignAccessToken(cfg, r.value.user, t1))
        && RefreshSpec(db', cfg, r.value.refreshToken, t2) == Ok(SignAccessToken(cfg, r.value.user, t2))
        && (t1 < t1 + cfg.accessTtl ==> MeSpec(db', cfg, SignAccessToken(cfg, r.value.user, t1), t1) == Ok(r.value.user))
  {
    var (r, db') := SignupSpec(db, cfg, name, email, password, salt, now);
    SignupCreatesOneLocalUser(db, cfg, name, email, password, salt, now);
    if r.Ok? {
      var u := r.value.user;
      assert db'.users[u.id] == u;
      RefreshTokenRoundTrip(cfg, u, now, t1);
      RefreshTokenRoundTrip(cfg, u, now, t2);
      if t1 < t1 + cfg.accessTtl {
        MeResolvesIssuedUser(db', cfg, u, t1, t1);
      }
    }
  }

  /** The account lifecycle of a new user: after signup the email is taken, a
      wrong password fails, and the right one logs in as the same user. */
  lemma SignupThenLogin(db: Db, cfg: JwtConfig, name: string, email: string, password: string, wrong: string,
                        salt: nat, now: nat, later: nat)
    requires Consistent(db)
    requires wrong != password
    ensures var (r, db') := SignupSpec(db, cfg, name, email, password, salt, now);
      r.Ok? ==>
        && SignupSpec(db', cfg, name, email, password, salt, later) == (Err(EmailInUse), db')
        && LoginSpec(db', cfg, email, wrong, later) == Err(InvalidCredentials)
        && LoginSpec(db', cfg, email, password, later) == Ok(Issue(cfg, r.value.user, later))
  {
    var (r, db') := SignupSpec(db, cfg, name, email, password, salt, now);
    SignupCreatesOneLocalUser(db, cfg, name, email, password, salt, now);
    SignupKeepsConsistent(db, cfg, name, email, password, salt, now);
    if r.Ok? {
      var u := r.value.user;
      assert db'.users[u.id] == u;
      assert EmailTaken(db'.users, email);
      ByEmailFinds(db'.users, u.id);
      HashThenCompare(u, password, salt, wrong);
    }
  }

  // ---------------------------------------------------------------------------
  // the Google sign-in

  /** A failed exchange or a profile without email or name fails, writing nothing. */
  lemma GoogleAuthRejectsIncompleteProfile(db: Db, cfg: JwtConfig, ex: GoogleExchange, now: nat)
    requires Consistent(db)
    requires ex.ExchangeFailed? || !Truthy(ex.profile.email) || !Truthy(ex.profile.name)
    ensures GoogleAuthSpec(db, cfg, ex, now) == (Err(GoogleAuthFailed), db)
  {
  }

  /** Every failure of the Google sign-in is the one opaque error and writes nothing;
      the store stays consistent either way. */
  lemma GoogleAuthFailuresAreOpaque(db: Db, cfg: JwtConfig, ex: GoogleExchange, now: nat)
    requires Consistent(db)
    ensures var (r, db') := GoogleAuthSpec(db, cfg, ex, now);
      && Consistent(db')
      && (r.Err? ==> r.error == GoogleAuthFailed && db' == db)
  {
    if ex.Exchanged? && Truthy(ex.profile.email) && Truthy(ex.profile.name) {
      var p := ex.profile;
      match ByEmail(db.users, p.email.value)
      case None =>
        CreateKeepsConsistent(db, Draft(p.name.value, p.email.value, None, Some(Google), p.id), now);
      case Some(u) =>
        StoredUnderOwnId(db, u);
        if u.authProvider == Local {
          SaveKeepsConsistent(db, u.(authProvider := Google, googleId := p.id), now);
        }
    }
  }

  /** A successful Google sign-in returns a Google account, stored as returned,
      under the profile's email. */
  lemma GoogleAuthResolvesToGoogleAccount(db: Db, cfg: JwtConfig, ex: GoogleExchange, now: nat)
    requires Consistent(db)
    ensures var (r, db') := GoogleAuthSpec(db, cfg, ex, now);
      r.Ok? ==>
        && ex.Exchanged? && Truthy(ex.profile.email)
        && r.value.user.id in db'.users
        && db'.users[r.value.user.id] == r.value.user
        && r.value.user.authProvider == Google
        && r.value.user.email == ex.profile.email.value
  {
    if ex.Exchanged? && Truthy(ex.profile.email) && Truthy(ex.profile.name) {
      var p := ex.profile;
      match ByEmail(db.users, p.email.value)
      case None =>
        CreateKeepsConsistent(db, Draft(p.name.value, p.email.value, None, Some(Google), p.id), now);
      case Some(u) =>
        StoredUnderOwnId(db, u);
        if u.authProvider == Local {
          SaveKeepsConsistent(db, u.(authProvider := Google, googleId := p.id), now);
        }
    }
  }

  /** An unseen email gets one new Google account with the profile's name and
      Google id and no password, unless another account already holds that Google id. */
  lemma GoogleAuthCreatesUnseenEmail(db: Db, cfg: JwtConfig, p: GoogleProfile, now: nat)
    requires Consistent(db)
    requires Truthy(p.email) && Truthy(p.name) && !EmailTaken(db.users, p.email.value)
    requires p.id.Some? ==> forall id :: id in db.users ==> db.users[id].googleId != p.id
    ensures var (r, db') := GoogleAuthSpec(db, cfg, Exchanged(p), now);
      && r.Ok?
      && r.value.user.id !in db.users
      && db'.users == db.users[r.value.user.id := r.value.user]
      && r.value.user.name == p.name.value && r.value.user.email == p.email.value
      && r.value.user.authProvider == Google && r.value.user.googleId == p.id
      && r.value.user.passwordHash.None?
  {
    var d := Draft(p.name.value, p.email.value, None, Some(Google), p.id);
    CreateKeepsConsistent(db, d, now);
  }

  /** A local account with the profile's email is linked in place: it becomes a
      Google account with the profile's Google id, keeps its id, name and
      password hash, and no record is added. */
  lemma GoogleAuthLinksLocalAccount(db: Db, cfg: JwtConfig, p: GoogleProfile, id: UserId, now: nat)
    requires Consistent(db)
    requires Truthy(p.email) && Truthy(p.name)
    requires id in db.users && db.users[id].email == p.email.value && db.users[id].authProvider == Local
    requires p.id.Some? ==> forall j :: j in db.users && j != id ==> db.users[j].googleId != p.id
    ensures var (r, db') := GoogleAuthSpec(db, cfg, Exchanged(p), now);
      && r.Ok?
      && r.value.user.id == id
      && r.value.user == db.users[id].(authProvider := Google, googleId := p.id, updatedAt := now)
      && db'.users == db.users[id := r.value.user]
      && db'.users.Keys == db.users.Keys
      && db'.nextId == db.nextId
  {
    var u := db.users[id];
    ByEmailFinds(db.users, id);
    var linked := u.(authProvider := Google, googleId := p.id);
    SaveKeepsConsistent(db, linked, now);
  }

  /** A Google account with the profile's email is resolved as it is: no write. */
  lemma GoogleAuthKeepsGoogleAccount(db: Db, cfg: JwtConfig, p: GoogleProfile, id: UserId, now: nat)
    requires Consistent(db)
    requires Truthy(p.email) && Truthy(p.name)
    requires id in db.users && db.users[id].email == p.email.value && db.users[id].authProvider == Google
    ensures GoogleAuthSpec(db, cfg, Exchanged(p), now) == (Ok(Issue(cfg, db.users[id], now)), db)
  {
    ByEmailFinds(db.users, id);
  }

  /** The Google sign-in is idempotent: repeating it with the same profile
      returns the same user and writes nothing. */
  lemma GoogleAuthIdempotent(db: Db, cfg: JwtConfig, ex: GoogleExchange, now: nat, later: nat)
    requires Consistent(db)
    ensures var (r, db') := GoogleAuthSpec(db, cfg, ex, now);
      r.Ok? ==>
        && Consistent(db')
        && GoogleAuthSpec(db', cfg, ex, later) == (Ok(Issue(cfg, r.value.user, later)), db')
  {
    var (r, db') := GoogleAuthSpec(db, cfg, ex, now);
    GoogleAuthFailuresAreOpaque(db, cfg, ex, now);
    GoogleAuthResolvesToGoogleAccount(db, cfg, ex, now);
    if r.Ok? {
      GoogleAuthKeepsGoogleAccount(db', cfg, ex.profile, r.value.user.id, later);
    }
  }

  /** Once the Google sign-in has linked or created an account, password login
      for its email fails, whatever the password. */
  lemma GoogleAccountCannotLogin(db: Db, cfg: JwtConfig, ex: GoogleExchange, now: nat, password: string, later: nat)
    requires Consistent(db)
    ensures var (r, db') := GoogleAuthSpec(db, cfg, ex, now);
      r.Ok? ==> LoginSpec(db', cfg, r.value.user.email, password, later) == Err(InvalidCredentials)
  {
    var (r, db') := GoogleAuthSpec(db, cfg, ex, now);
    GoogleAuthFailuresAreOpaque(db, cfg, ex, now);
    GoogleAuthResolvesToGoogleAccount(db, cfg, ex, now);
    if r.Ok? {
      ByEmailFinds(db'.users, r.value.user.id);
    }
  }
}
