/**
 * The server's signing and hashing helpers: two token domains, access and
 * refresh, each with its own secret and time-to-live, both carrying the claim
 * set `{sub, email}` (RFC 7519, sections 4.1.2 and 4.1.4 for `sub` and `exp`).
 */
module AuthUtil {
  import opened Wrappers
  import opened UserModel
  import Jwt
  import Bcrypt

  /** The claim set `{ sub: user.id, email: user.email }`. */
  datatype JwtPayload = JwtPayload(sub: UserId, email: string)

  type AuthToken = Jwt.Token<JwtPayload>

  /** The token part of the server's configuration; the time-to-live values are
      taken as seconds. */
  datatype JwtConfig = JwtConfig(accessSecret: Jwt.Secret, refreshSecret: Jwt.Secret, accessTtl: nat, refreshTtl: nat)

  function PayloadOf(u: User): JwtPayload
  {
    JwtPayload(u.id, u.email)
  }

  function SignAccessToken(cfg: JwtConfig, u: User, now: nat): AuthToken
  {
    Jwt.Sign(PayloadOf(u), cfg.accessSecret, cfg.accessTtl, now)
  }

  function SignRefreshToken(cfg: JwtConfig, u: User, now: nat): AuthToken
  {
    Jwt.Sign(PayloadOf(u), cfg.refreshSecret, cfg.refreshTtl, now)
  }

  function VerifyAccessToken(cfg: JwtConfig, t: AuthToken, now: nat): Result<JwtPayload, Jwt.JwtError>
  {
    Jwt.Verify(t, cfg.accessSecret, now)
  }

  function VerifyRefreshToken(cfg: JwtConfig, t: AuthToken, now: nat): Result<JwtPayload, Jwt.JwtError>
  {
    Jwt.Verify(t, cfg.refreshSecret, now)
  }

  /** `hashPassword`: bcrypt with the random salt made a parameter. */
  function HashPassword(password: string, salt: nat): Bcrypt.Digest
  {
    Bcrypt.Hash(password, salt)
  }

  /** Both domains sign the same claim set; the access domain uses the access
      secret and time-to-live, the refresh domain the refresh ones. */
  lemma TokensShareClaimSet(cfg: JwtConfig, u: User, now: nat)
    ensures SignAccessToken(cfg, u, now).payload == SignRefreshToken(cfg, u, now).payload == JwtPayload(u.id, u.email)
    ensures SignAccessToken(cfg, u, now).key == cfg.accessSecret
    ensures SignAccessToken(cfg, u, now).exp == now + cfg.accessTtl
    ensures SignRefreshToken(cfg, u, now).key == cfg.refreshSecret
    ensures SignRefreshToken(cfg, u, now).exp == now + cfg.refreshTtl
  {
  }

  /** An access token verifies, before it expires, to exactly `{sub: id, email}`. */
  lemma AccessTokenRoundTrip(cfg: JwtConfig, u: User, issued: nat, now: nat)
    requires now < issued + cfg.accessTtl
    ensures VerifyAccessToken(cfg, SignAccessToken(cfg, u, issued), now) == Ok(JwtPayload(u.id, u.email))
  {
    Jwt.SignVerifyRoundTrip(PayloadOf(u), cfg.accessSecret, cfg.accessTtl, issued, now);
  }

  /** A refresh token verifies, before it expires, to exactly `{sub: id, email}`. */
  lemma RefreshTokenRoundTrip(cfg: JwtConfig, u: User, issued: nat, now: nat)
    requires now < issued + cfg.refreshTtl
    ensures VerifyRefreshToken(cfg, SignRefreshToken(cfg, u, issued), now) == Ok(JwtPayload(u.id, u.email))
  {
    Jwt.SignVerifyRoundTrip(PayloadOf(u), cfg.refreshSecret, cfg.refreshTtl, issued, now);
  }

  /** With distinct secrets, neither verifier accepts the other domain's token. */
  lemma DomainsAreSeparated(cfg: JwtConfig, u: User, issued: nat, now: nat)
    requires cfg.accessSecret != cfg.refreshSecret
    ensures VerifyRefreshToken(cfg, SignAccessToken(cfg, u, issued), now) == Err(Jwt.InvalidSignature)
    ensures VerifyAccessToken(cfg, SignRefreshToken(cfg, u, issued), now) == Err(Jwt.InvalidSignature)
  {
  }

  /** The separation rests on the configuration alone: with one shared secret,
      the refresh verifier accepts a live access token. */
  lemma SharedSecretLetsAccessTokenRefresh(cfg: JwtConfig, u: User, issued: nat, now: nat)
    requires cfg.accessSecret == cfg.refreshSecret
    requires now < issued + cfg.accessTtl
    ensures VerifyRefreshToken(cfg, SignAccessToken(cfg, u, issued), now) == Ok(JwtPayload(u.id, u.email))
  {
  }

  /** Once its time-to-live has elapsed, each token fails with the expiry error. */
  lemma ExpiredTokensAreRejected(cfg: JwtConfig, u: User, issued: nat, now: nat)
    ensures issued + cfg.accessTtl <= now ==>
              VerifyAccessToken(cfg, SignAccessToken(cfg, u, issued), now) == Err(Jwt.TokenExpired)
    ensures issued + cfg.refreshTtl <= now ==>
              VerifyRefreshToken(cfg, SignRefreshToken(cfg, u, issued), now) == Err(Jwt.TokenExpired)
  {
  }

  /** A hash made by `hashPassword` is accepted by `comparePassword` for the same
      password, and for no other. */
  lemma HashThenCompare(u: User, password: string, salt: nat, candidate: string)
    requires u.passwordHash == Some(HashPassword(password, salt))
    ensures ComparePassword(u, password)
    ensures candidate != password ==> !ComparePassword(u, candidate)
  {
    ComparePasswordAcceptsOnlyHashedPassword(u, password, salt, candidate);
  }
}
