/** Cookie names, the organisation header, token resolution and the session in the context. */
module AuthHelper {
  import opened Wrappers
  import opened Text
  import opened Errors
  import opened Entities
  import opened Foreign
  import opened Http

  const Production: string := "production"

  datatype CookieKeyPair = CookieKeyPair(accessToken: string, refreshToken: string)

  /** `cookieKeys`: env-prefixed names outside production, bare names in production. */
  function CookieKeys(env: string): (k: CookieKeyPair)
    ensures env == Production ==> k == CookieKeyPair("access_token", "refresh_token")
    ensures env != Production ==> k == CookieKeyPair(env + "_access_token", env + "_refresh_token")
  {
    CookieKeyPair(
      if env != Production then env + "_access_token" else "access_token",
      if env != Production then env + "_refresh_token" else "refresh_token")
  }

  /** The access and refresh cookies never share a name. */
  lemma CookieKeysDistinct(env: string)
    ensures CookieKeys(env).accessToken != CookieKeys(env).refreshToken
  {
    var k := CookieKeys(env);
    if env != Production {
      assert k.accessToken[|env| + 1] == 'a' && k.refreshToken[|env| + 1] == 'r';
    } else {
      assert |k.accessToken| != |k.refreshToken|;
    }
  }

  /** Different environments read different cookies. */
  lemma CookieKeysInjective(e1: string, e2: string)
    requires CookieKeys(e1).accessToken == CookieKeys(e2).accessToken
    ensures e1 == e2
  {
    var a1, a2 := CookieKeys(e1).accessToken, CookieKeys(e2).accessToken;
    if e1 != Production && e2 != Production {
      assert e1 == a1[..|e1|];
      assert e2 == a2[..|e2|];
    }
  }

  /** `getOrganizationId`: the `X-Org` header when present and non-empty. */
  function GetOrganizationId(req: Request): (r: Option<string>)
    ensures r.Some? <==> Truthy(Header(req, "X-Org"))
    ensures r.Some? ==> r == Header(req, "X-Org") && r.value != ""
  {
    var orgHeader := Header(req, "X-Org");
    if Truthy(orgHeader) then orgHeader else None
  }

  /**
   * A chain of `if (!x) x = next` reassignments: the first truthy
   * candidate, otherwise the last one.
   */
  function Fallback(candidates: seq<Option<string>>): (r: Option<string>)
    requires |candidates| >= 1
    ensures Truthy(r) <==> exists i :: 0 <= i < |candidates| && Truthy(candidates[i])
    ensures forall i :: 0 <= i < |candidates| && Truthy(candidates[i]) &&
              (forall j :: 0 <= j < i ==> !Truthy(candidates[j]))
              ==> r == candidates[i]
    ensures (forall i :: 0 <= i < |candidates| ==> !Truthy(candidates[i])) ==> r == candidates[|candidates| - 1]
  {
    if |candidates| == 1 || Truthy(candidates[0]) then candidates[0]
    else
      var r := Fallback(candidates[1..]);
      assert forall i :: 1 <= i < |candidates| ==> candidates[i] == candidates[1..][i - 1];
      r
  }

  /** Where the access token may come from, in the order they are tried. */
  function AccessCandidates(req: Request, locals: Option<string>, env: string): seq<Option<string>>
  {
    [locals]
    + (if env == Production then [Cookie(req, "production_access_token")] else [])
    + [Cookie(req, CookieKeys(env).accessToken)]
  }

  /** Where the refresh token may come from, in the order they are tried. */
  function RefreshCandidates(req: Request, env: string): seq<Option<string>>
  {
    (if env == Production then [Cookie(req, "production_refresh_token")] else [])
    + [Cookie(req, CookieKeys(env).refreshToken)]
  }

  /** A present access token that fails verification is dropped, silently. */
  function Checked(token: Option<string>, lib: Libraries): (r: Option<string>)
    ensures Truthy(token) && lib.verify(token.value).None? ==> r.None?
    ensures !(Truthy(token) && lib.verify(token.value).None?) ==> r == token
  {
    if Truthy(token) && lib.verify(token.value).None? then None else token
  }

  datatype Tokens = Tokens(accessToken: Option<string>, refreshToken: Option<string>)

  /** `getTokens`: resolve both tokens from the response locals and the request cookies. */
  method GetTokens(req: Request, response: Response, cfg: Config, lib: Libraries) returns (t: Tokens)
    ensures t.accessToken == Checked(Fallback(AccessCandidates(req, response.localsAccessToken, cfg.env)), lib)
    ensures t.refreshToken == Fallback(RefreshCandidates(req, cfg.env))
  {
    var access := response.localsAccessToken;
    if !Truthy(access) && cfg.env == Production {
      access := Cookie(req, "production_access_token");
    }
    if !Truthy(access) {
      access := Cookie(req, CookieKeys(cfg.env).accessToken);
    }
    var refresh: Option<string> := None;
    if !Truthy(refresh) && cfg.env == Production {
      refresh := Cookie(req, "production_refresh_token");
    }
    if !Truthy(refresh) {
      refresh := Cookie(req, CookieKeys(cfg.env).refreshToken);
    }
    if Truthy(access) {
      if lib.verify(access.value).None? {
        access := None;
      }
    }
    t := Tokens(access, refresh);
  }

  /** The access token resolution order: locals, then (in production) `production_access_token`, then the env cookie. */
  lemma AccessTokenOrder(req: Request, locals: Option<string>, env: string)
    ensures Truthy(locals) ==> Fallback(AccessCandidates(req, locals, env)) == locals
    ensures !Truthy(locals) && env == Production && Truthy(Cookie(req, "production_access_token")) ==>
      Fallback(AccessCandidates(req, locals, env)) == Cookie(req, "production_access_token")
    ensures !Truthy(locals) && (env != Production || !Truthy(Cookie(req, "production_access_token"))) ==>
      Fallback(AccessCandidates(req, locals, env)) == Cookie(req, CookieKeys(env).accessToken)
  {
    var c := AccessCandidates(req, locals, env);
    if env == Production {
      assert c == [locals, Cookie(req, "production_access_token"), Cookie(req, CookieKeys(env).accessToken)];
    } else {
      assert c == [locals, Cookie(req, CookieKeys(env).accessToken)];
    }
  }

  /** The refresh token: `production_refresh_token` first in production, else the env cookie; never verified. */
  lemma RefreshTokenOrder(req: Request, env: string)
    ensures env == Production && Truthy(Cookie(req, "production_refresh_token")) ==>
      Fallback(RefreshCandidates(req, env)) == Cookie(req, "production_refresh_token")
    ensures env != Production || !Truthy(Cookie(req, "production_refresh_token")) ==>
      Fallback(RefreshCandidates(req, env)) == Cookie(req, CookieKeys(env).refreshToken)
  {
    var c := RefreshCandidates(req, env);
    if env == Production {
      assert c == [Cookie(req, "production_refresh_token"), Cookie(req, CookieKeys(env).refreshToken)];
    } else {
      assert c == [Cookie(req, CookieKeys(env).refreshToken)];
    }
  }

  /** `setSession`: store the verified token's user and the token itself; other context entries stay. */
  function SetSession(ctx: Ctx, accessToken: string, lib: Libraries): (r: Result<(Ctx, CommonUser)>)
    ensures r.Failure? <==> lib.verify(accessToken).None?
    ensures r.Failure? ==> r.error == InvalidToken
    ensures r.Success? ==>
      && r.value.1 == lib.verify(accessToken).value.data
      && r.value.0.session == Some(r.value.1)
      && r.value.0.accessToken == Some(accessToken)
      && r.value.0.organizationId == ctx.organizationId
      && r.value.0.staff == ctx.staff
  {
    match lib.verify(accessToken)
    case None => Failure(InvalidToken)
    case Some(claims) =>
      Success((ctx.(session := Some(claims.data), accessToken := Some(accessToken)), claims.data))
  }

  /** `AuthHelperService.get`: the session user, or `NeedSignin`. */
  function Get(ctx: Ctx): (r: Result<CommonUser>)
    ensures r.Success? <==> ctx.session.Some?
    ensures r.Success? ==> r.value == ctx.session.value
    ensures r.Failure? ==> r.error == NeedSignin
  {
    match ctx.session
    case Some(u) => Success(u)
    case None => Failure(NeedSignin)
  }

  /** After a successful `setSession`, `get` yields the token's user. */
  lemma SessionRoundTrip(ctx: Ctx, accessToken: string, lib: Libraries)
    requires SetSession(ctx, accessToken, lib).Success?
    ensures Get(SetSession(ctx, accessToken, lib).value.0) == Success(lib.verify(accessToken).value.data)
  {
  }
}
