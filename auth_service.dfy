/**
 * `AuthService`: cookie options, token lifetimes, password checks, token
 * minting, cookie writes, sign-in and sign-up.
 */
module AuthService {
  import opened Wrappers
  import opened Text
  import opened Errors
  import opened Ids
  import opened Entities
  import opened Foreign
  import opened Http
  import opened Helper
  import opened Database
  import opened AuthHelper
  import UserService

  /** The `sameSite` values a cookie may be configured with. */
  const SameSiteValues: seq<string> := ["none", "lax", "strict"]

  /** `COOKIE_OPTIONS`: http-only, unsigned, secure iff SSL is configured, `sameSite` defaulting to lax. */
  function CookieOptionsOf(cfg: Config): (o: CookieOptions)
    ensures o.httpOnly && !o.signed
    ensures o.secure <==> cfg.cookieSsl.Some?
    ensures o.domain == cfg.domain
    ensures o.sameSite in SameSiteValues
    ensures cfg.cookieSameSite.Some? && cfg.cookieSameSite.value in SameSiteValues ==> o.sameSite == cfg.cookieSameSite.value
    ensures !(cfg.cookieSameSite.Some? && cfg.cookieSameSite.value in SameSiteValues) ==> o.sameSite == "lax"
  {
    var sameSite := if Truthy(cfg.cookieSameSite) && cfg.cookieSameSite.value in SameSiteValues
      then cfg.cookieSameSite.value else "lax";
    CookieOptions(true, cfg.cookieSsl.Some?, cfg.domain, sameSite, false)
  }

  /** `value || fallback` on an optional string. */
  function OrDefault(o: Option<string>, fallback: string): (r: string)
    ensures Truthy(o) ==> r == o.value
    ensures !Truthy(o) ==> r == fallback
  {
    if Truthy(o) then o.value else fallback
  }

  /** Token lifetimes in milliseconds. */
  datatype Expiry = Expiry(accessToken: nat, csrfToken: nat, refreshToken: nat)

  /** `expiresIn`: configured lifetimes, defaulting to 15 minutes (access) and 30 days (refresh). */
  function ExpiresIn(cfg: Config, lib: Libraries): (e: Expiry)
    ensures Truthy(cfg.jwtExpiresIn) ==> e.accessToken == lib.ms(cfg.jwtExpiresIn.value)
    ensures !Truthy(cfg.jwtExpiresIn) ==> e.accessToken == lib.ms("15m")
    ensures e.csrfToken == lib.ms("24h")
    ensures Truthy(cfg.jwtRefreshExpiresIn) ==> e.refreshToken == lib.ms(cfg.jwtRefreshExpiresIn.value)
    ensures !Truthy(cfg.jwtRefreshExpiresIn) ==> e.refreshToken == lib.ms("30d")
  {
    Expiry(lib.ms(OrDefault(cfg.jwtExpiresIn, "15m")), lib.ms("24h"), lib.ms(OrDefault(cfg.jwtRefreshExpiresIn, "30d")))
  }

  /** The error raised for a missing password. */
  const PasswordRequired: Error := SchemaValidation([ParamError("Password is required.", "password")])

  /** `verifyPassword`: a present, non-empty password must match the stored hash. */
  function VerifyPassword(hash: string, password: Option<string>, lib: Libraries): (r: Outcome)
    ensures r.Pass? <==> Truthy(password) && lib.comparePassword(password.value, hash)
    ensures !Truthy(password) ==> r == Fail(PasswordRequired)
    ensures Truthy(password) && !lib.comparePassword(password.value, hash) ==> r == Fail(InvalidCredentials)
  {
    if Truthy(password) then
      if lib.comparePassword(password.value, hash) then Pass else Fail(InvalidCredentials)
    else Fail(PasswordRequired)
  }

  /** The claims of a token minted for `u` with id `jwtid`: both tokens use the refresh lifetime. */
  function Claims(u: User, jwtid: string, cfg: Config, lib: Libraries): TokenClaims
  {
    TokenClaims(Payload(u), jwtid, Decimal(ExpiresIn(cfg, lib).refreshToken) + "ms", u.id)
  }

  /**
   * The two tokens' claims carry exactly the user's id, email, active
   * organisation and names, the user's id as subject, the same (refresh)
   * lifetime, and different token ids.
   */
  lemma TokenClaimsFacts(u: User, n: nat, cfg: Config, lib: Libraries)
    ensures Claims(u, Decimal(n), cfg, lib).data == CommonUser(u.id, u.email, u.activeOrganizationId, u.firstName, u.lastName)
    ensures Claims(u, Decimal(n), cfg, lib).subject == u.id
    ensures Claims(u, Decimal(n), cfg, lib).expiresIn == Claims(u, Decimal(n + 1), cfg, lib).expiresIn
    ensures Claims(u, Decimal(n), cfg, lib).expiresIn == Decimal(ExpiresIn(cfg, lib).refreshToken) + "ms"
    ensures Claims(u, Decimal(n), cfg, lib).jwtid != Claims(u, Decimal(n + 1), cfg, lib).jwtid
  {
    if Decimal(n) == Decimal(n + 1) {
      DecimalInjective(n, n + 1);
    }
  }

  datatype TokenPair = TokenPair(accessToken: string, refreshToken: string)

  /** `createToken`: two signed tokens for the user, each with a freshly drawn id. */
  method CreateToken(user: Option<User>, gen: Generator, cfg: Config, lib: Libraries) returns (r: Result<TokenPair>)
    requires gen.Valid()
    modifies gen
    ensures gen.Valid() && old(gen.issued) <= gen.issued
    ensures user.None? ==> r == Failure(ResourceNotFound(UserResource)) && gen.next == old(gen.next)
    ensures user.Some? ==>
      && gen.next == old(gen.next) + 2
      && r == Success(TokenPair(
           lib.sign(Claims(user.value, Decimal(old(gen.next)), cfg, lib)),
           lib.sign(Claims(user.value, Decimal(old(gen.next) + 1), cfg, lib))))
  {
    if user.None? {
      return Failure(ResourceNotFound(UserResource));
    }
    var u := user.value;
    var accessId := gen.Generate();
    var accessToken := lib.sign(Claims(u, accessId, cfg, lib));
    var refreshId := gen.Generate();
    var refreshToken := lib.sign(Claims(u, refreshId, cfg, lib));
    r := Success(TokenPair(accessToken, refreshToken));
  }

  /** `createToken` for a user that was found, keeping the database valid for the grown set of issued ids. */
  method TokensFor(db: Store, user: User, gen: Generator, cfg: Config, lib: Libraries) returns (t: TokenPair)
    requires gen.Valid() && db.Valid(gen.issued)
    modifies gen
    ensures gen.Valid() && db.Valid(gen.issued)
    ensures gen.next == old(gen.next) + 2
    ensures t == TokenPair(
      lib.sign(Claims(user, Decimal(old(gen.next)), cfg, lib)),
      lib.sign(Claims(user, Decimal(old(gen.next) + 1), cfg, lib)))
  {
    ghost var issued0 := gen.issued;
    var r := CreateToken(Some(user), gen, cfg, lib);
    ValidGrows(db, issued0, gen.issued);
    t := r.value;
  }

  /** One `response.cookie` call, made only for a truthy token. */
  function WithCookie(cookies: map<string, SetCookie>, name: string, token: Option<string>, options: CookieOptions, maxAge: nat)
    : (r: map<string, SetCookie>)
    ensures Truthy(token) ==> r == cookies[name := SetCookie(token.value, options, maxAge)]
    ensures !Truthy(token) ==> r == cookies
  {
    if Truthy(token) then cookies[name := SetCookie(token.value, options, maxAge)] else cookies
  }

  /** `createCookie`: the access cookie (access lifetime), then the refresh cookie (refresh lifetime). */
  method CreateCookie(response: Response, accessToken: Option<string>, refreshToken: Option<string>, cfg: Config, lib: Libraries)
    modifies response`cookies
    ensures response.cookies == WithCookie(
      WithCookie(old(response.cookies), CookieKeys(cfg.env).accessToken, accessToken, CookieOptionsOf(cfg), ExpiresIn(cfg, lib).accessToken),
      CookieKeys(cfg.env).refreshToken, refreshToken, CookieOptionsOf(cfg), ExpiresIn(cfg, lib).refreshToken)
  {
    var keys := CookieKeys(cfg.env);
    var options := CookieOptionsOf(cfg);
    var expiry := ExpiresIn(cfg, lib);
    if Truthy(accessToken) {
      response.SetCookieValue(keys.accessToken, SetCookie(accessToken.value, options, expiry.accessToken));
    }
    if Truthy(refreshToken) {
      response.SetCookieValue(keys.refreshToken, SetCookie(refreshToken.value, options, expiry.refreshToken));
    }
  }

  /** With both tokens present, both cookies are set, each with its own lifetime, and nothing else changes. */
  lemma CookiesWritten(cookies: map<string, SetCookie>, a: string, r: string, cfg: Config, lib: Libraries)
    requires a != "" && r != ""
    ensures var after := WithCookie(
      WithCookie(cookies, CookieKeys(cfg.env).accessToken, Some(a), CookieOptionsOf(cfg), ExpiresIn(cfg, lib).accessToken),
      CookieKeys(cfg.env).refreshToken, Some(r), CookieOptionsOf(cfg), ExpiresIn(cfg, lib).refreshToken);
      && after[CookieKeys(cfg.env).accessToken] == SetCookie(a, CookieOptionsOf(cfg), ExpiresIn(cfg, lib).accessToken)
      && after[CookieKeys(cfg.env).refreshToken] == SetCookie(r, CookieOptionsOf(cfg), ExpiresIn(cfg, lib).refreshToken)
      && after.Keys == cookies.Keys + {CookieKeys(cfg.env).accessToken, CookieKeys(cfg.env).refreshToken}
  {
    CookieKeysDistinct(cfg.env);
  }

  /**
   * The checks of `SignIn`, in order: the email must normalise, a user must
   * have it as id or email, and the password must match.
   */
  function SignInChecks(db: Store, email: string, password: Option<string>, lib: Libraries): (r: Result<User>)
    reads db
    ensures r.Success? ==> r.value in db.users && Truthy(password) && lib.comparePassword(password.value, r.value.password)
  {
    match GetSanitizedEmail(email, lib)
    case None => Failure(InvalidEmail)
    case Some(e) =>
      match db.UserByIdOrEmail(e)
      case None => Failure(ResourceNotFound(UserResource))
      case Some(u) =>
        match VerifyPassword(u.password, password, lib)
        case Fail(err) => Failure(err)
        case Pass => Success(u)
  }

  /** The order of the sign-in checks and the error each one raises. */
  lemma SignInOrder(db: Store, email: string, password: Option<string>, lib: Libraries)
    ensures GetSanitizedEmail(email, lib).None? ==> SignInChecks(db, email, password, lib) == Failure(InvalidEmail)
    ensures GetSanitizedEmail(email, lib).Some? && db.UserByIdOrEmail(GetSanitizedEmail(email, lib).value).None? ==>
      SignInChecks(db, email, password, lib) == Failure(ResourceNotFound(UserResource))
    ensures GetSanitizedEmail(email, lib).Some? && db.UserByIdOrEmail(GetSanitizedEmail(email, lib).value).Some? ==>
      var u := db.UserByIdOrEmail(GetSanitizedEmail(email, lib).value).value;
      && (SignInChecks(db, email, password, lib).Success? <==> Truthy(password) && lib.comparePassword(password.value, u.password))
      && (SignInChecks(db, email, password, lib).Success? ==> SignInChecks(db, email, password, lib).value == u)
      && (!Truthy(password) ==> SignInChecks(db, email, password, lib) == Failure(PasswordRequired))
      && (Truthy(password) && !lib.comparePassword(password.value, u.password) ==>
            SignInChecks(db, email, password, lib) == Failure(InvalidCredentials))
  {
  }

  /** `SignIn`: the checks, then two tokens for the user found. */
  method SignIn(db: Store, gen: Generator, email: string, password: Option<string>, cfg: Config, lib: Libraries)
    returns (r: Result<(User, TokenPair)>)
    requires gen.Valid() && db.Valid(gen.issued)
    modifies gen
    ensures gen.Valid() && db.Valid(gen.issued)
    ensures old(SignInChecks(db, email, password, lib)).Failure? ==>
      r == Failure(old(SignInChecks(db, email, password, lib)).error) && gen.next == old(gen.next)
    ensures old(SignInChecks(db, email, password, lib)).Success? ==>
      var u := old(SignInChecks(db, email, password, lib)).value;
      && gen.next == old(gen.next) + 2
      && r == Success((u, TokenPair(lib.sign(Claims(u, Decimal(old(gen.next)), cfg, lib)), lib.sign(Claims(u, Decimal(old(gen.next) + 1), cfg, lib)))))
  {
    var checked := SignInChecks(db, email, password, lib);
    if checked.Failure? {
      return Failure(checked.error);
    }
    var tokens := TokensFor(db, checked.value, gen, cfg, lib);
    r := Success((checked.value, tokens));
  }

  /** `SignUp`: `UserService.Create`, then two tokens for the new user. */
  method SignUp(db: Store, gen: Generator, data: UserService.UserCreate, cfg: Config, lib: Libraries)
    returns (r: Result<(User, TokenPair)>)
    requires gen.Valid() && db.Valid(gen.issued)
    modifies db`users, gen
    ensures gen.Valid() && db.Valid(gen.issued)
    ensures old(UserService.CreateChecks(db, data, lib)).Failure? ==>
      r == Failure(old(UserService.CreateChecks(db, data, lib)).error) && db.users == old(db.users)
    ensures old(UserService.CreateChecks(db, data, lib)).Success? ==>
      var n := UserService.NewUser(Decimal(old(gen.next)), data, old(UserService.CreateChecks(db, data, lib)).value, lib);
      && (n.Failure? ==> r == Failure(n.error) && db.users == old(db.users))
      && (n.Success? ==> r.Success? && r.value.0 == n.value)
    ensures r.Success? ==>
      && old(UserService.CreateChecks(db, data, lib)).Success?
      && db.users == old(db.users) + [r.value.0]
      && r.value.0.id == Decimal(old(gen.next))
      && r.value.1 == TokenPair(
           lib.sign(Claims(r.value.0, Decimal(old(gen.next) + 1), cfg, lib)),
           lib.sign(Claims(r.value.0, Decimal(old(gen.next) + 2), cfg, lib)))
  {
    var created := UserService.Create(db, gen, data, lib);
    if created.Failure? {
      return Failure(created.error);
    }
    var tokens := TokensFor(db, created.value, gen, cfg, lib);
    r := Success((created.value, tokens));
  }
}
