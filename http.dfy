/** The slice of an HTTP request and response the core touches. */
module Http {
  import opened Wrappers
  import opened Text

  /** Header names are stored lower-cased, as the server receives them. */
  datatype Request = Request(verb: string, headers: map<string, string>, cookies: map<string, string>)

  /** A `201 Created` JSON reply: `{ status: true, content: { data } }`. */
  datatype Created<T> = Created(status: nat, data: T)

  /** `request.get(name)`: a case-insensitive header lookup. */
  function Header(req: Request, name: string): (r: Option<string>)
    ensures r.Some? <==> Lower(name) in req.headers
    ensures r.Some? ==> r.value == req.headers[Lower(name)]
  {
    if Lower(name) in req.headers then Some(req.headers[Lower(name)]) else None
  }

  function Cookie(req: Request, name: string): Option<string>
  {
    if name in req.cookies then Some(req.cookies[name]) else None
  }

  datatype CookieOptions = CookieOptions(
    httpOnly: bool,
    secure: bool,
    domain: Option<string>,
    sameSite: string,
    signed: bool)

  datatype SetCookie = SetCookie(value: string, options: CookieOptions, maxAge: nat)

  /** The outgoing response: the cookies set on it and `locals.access_token`. */
  class Response {
    var cookies: map<string, SetCookie>
    var localsAccessToken: Option<string>

    constructor (localsAccessToken: Option<string>)
      ensures this.cookies == map[]
      ensures this.localsAccessToken == localsAccessToken
    {
      this.cookies := map[];
      this.localsAccessToken := localsAccessToken;
    }

    /** `response.cookie(name, value, options)`. */
    method SetCookieValue(name: string, c: SetCookie)
      modifies this`cookies
      ensures cookies == old(cookies)[name := c]
    {
      cookies := cookies[name := c];
    }
  }
}
