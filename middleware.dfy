/**
 * The request gate of the web API: `AuthorizationMiddleware::from_request_parts`.
 *
 * Before a protected handler runs, the gate lets a CORS pre-flight (OPTIONS)
 * request through untouched; otherwise it needs a parsed `Authorization: Bearer`
 * header, then the `Jwks` extension installed by the router, then a successful
 * `check_auth` on the two.  It answers 401 UNAUTHORIZED on every failure and,
 * on success, inserts the authenticated identity into the request's extensions.
 *
 * `check_auth`, `Jwks` and the identity type live in a module that is not part
 * of this model: the key set is the type parameter `J`, the identity `A`, the
 * verification error `E`, and `check_auth` is passed in as a total function.
 */
module Middleware {
  import opened Wrappers

  /** An HTTP request method; `Extension` stands for any non-standard one. */
  datatype Method =
    | Options | Get | Post | Put | Delete | Head | Patch | Connect | Trace
    | Extension(name: string)

  /** The token string of a parsed `Authorization: Bearer <token>` header. */
  type Token = string

  datatype StatusCode = StatusCode(code: nat)

  const UNAUTHORIZED := StatusCode(401)

  /** The extractor's value: it carries no data, only the fact of acceptance. */
  datatype AuthorizationMiddleware = AuthorizationMiddleware

  /**
   * The request's type-keyed extension map, restricted to the two types the
   * gate reads or writes: the key set and the authenticated identity.
   */
  datatype Extensions<J, A> = Extensions(jwks: Option<J>, auth: Option<A>)

  /** Why a request was turned away; only ever written to the error log. */
  datatype Reason<E> =
    | MissingAuthorizationHeader
    | MissingJwksLayer
    | CheckAuthFailed(error: E)

  /** The gate's decision: let through (with the identity to attach, if any) or reject. */
  datatype Decision<A, E> = Pass(identity: Option<A>) | Reject(reason: Reason<E>)

  /**
   * The gate as a decision procedure, in the order the checks are made:
   * OPTIONS bypass, bearer header, key set, then `check_auth`.
   */
  function Decide<J, A, E>(httpMethod: Method, bearer: Option<Token>, jwks: Option<J>,
                           checkAuth: (Token, J) -> Result<A, E>): (d: Decision<A, E>)
    // a pre-flight request, and only a pre-flight request, passes with no identity
    ensures d == Pass(None) <==> httpMethod == Options
    // a non-OPTIONS request passes only with a token, a key set and check_auth's identity
    ensures d.Pass? && httpMethod != Options ==>
              bearer.Some? && jwks.Some? && d.identity.Some? &&
              checkAuth(bearer.value, jwks.value) == Ok(d.identity.value)
  {
    if httpMethod == Options then Pass(None)
    else if bearer.None? then Reject(MissingAuthorizationHeader)
    else if jwks.None? then Reject(MissingJwksLayer)
    else
      match checkAuth(bearer.value, jwks.value)
      case Ok(auth) => Pass(Some(auth))
      case Err(error) => Reject(CheckAuthFailed(error))
  }

  /** What the caller sees: the reason for a rejection is never part of it. */
  function Respond<A, E>(d: Decision<A, E>): (r: Result<AuthorizationMiddleware, StatusCode>)
    ensures r.Ok? <==> d.Pass?
    ensures r.Err? ==> r.error == UNAUTHORIZED
  {
    if d.Pass? then Ok(AuthorizationMiddleware) else Err(UNAUTHORIZED)
  }

  /** The extensions after the gate: the identity is inserted only when there is one. */
  function Record<J, A, E>(ext: Extensions<J, A>, d: Decision<A, E>): (ext': Extensions<J, A>)
    ensures ext'.jwks == ext.jwks
    ensures ext' != ext ==> d.Pass? && d.identity.Some? && ext'.auth == d.identity
  {
    if d.Pass? && d.identity.Some? then ext.(auth := d.identity) else ext
  }

  /** The mutable request head the extractor works on (`axum::http::request::Parts`). */
  class RequestParts<J, A> {
    var httpMethod: Method
    /** The outcome of parsing the typed `Authorization<Bearer>` header. */
    var bearer: Option<Token>
    var extensions: Extensions<J, A>

    constructor (httpMethod: Method, bearer: Option<Token>, extensions: Extensions<J, A>)
      ensures this.httpMethod == httpMethod && this.bearer == bearer && this.extensions == extensions
    {
      this.httpMethod := httpMethod;
      this.bearer := bearer;
      this.extensions := extensions;
    }
  }

  /** `from_request_parts`: the guards with early returns, then the insert on success. */
  method FromRequestParts<J, A, E>(parts: RequestParts<J, A>, checkAuth: (Token, J) -> Result<A, E>)
      returns (r: Result<AuthorizationMiddleware, StatusCode>)
    modifies parts
    ensures parts.httpMethod == old(parts.httpMethod) && parts.bearer == old(parts.bearer)
    ensures var d := Decide(old(parts.httpMethod), old(parts.bearer), old(parts.extensions.jwks), checkAuth);
            r == Respond(d) && parts.extensions == Record(old(parts.extensions), d)
  {
    if parts.httpMethod == Options {
      return Ok(AuthorizationMiddleware);
    }
    if parts.bearer.None? {
      return Err(UNAUTHORIZED);
    }
    var bearer := parts.bearer.value;
    if parts.extensions.jwks.None? {
      return Err(UNAUTHORIZED);
    }
    var jwks := parts.extensions.jwks.value;
    match checkAuth(bearer, jwks) {
      case Ok(auth) =>
        parts.extensions := parts.extensions.(auth := Some(auth));
        return Ok(AuthorizationMiddleware);
      case Err(error) =>
        return Err(UNAUTHORIZED);
    }
  }

  /** A pre-flight request is accepted whatever it carries, and its extensions stay as they were. */
  lemma OptionsBypass<J, A, E>(bearer: Option<Token>, ext: Extensions<J, A>,
                               checkAuth: (Token, J) -> Result<A, E>)
    ensures var d := Decide(Options, bearer, ext.jwks, checkAuth);
            Respond(d) == Ok(AuthorizationMiddleware) && Record(ext, d) == ext
  {
  }

  /** Without a bearer header a non-OPTIONS request is rejected, whatever `check_auth` would say. */
  lemma MissingHeaderRejected<J, A, E>(httpMethod: Method, jwks: Option<J>,
                                       f: (Token, J) -> Result<A, E>, g: (Token, J) -> Result<A, E>)
    requires httpMethod != Options
    ensures Decide(httpMethod, None, jwks, f) == Decide(httpMethod, None, jwks, g) == Reject(MissingAuthorizationHeader)
    ensures Respond(Decide(httpMethod, None, jwks, f)) == Err(UNAUTHORIZED)
  {
  }

  /**
   * With a bearer header but no key set a non-OPTIONS request is rejected, again
   * without consulting `check_auth`; the key set is looked at only after the header.
   */
  lemma MissingJwksRejected<J, A, E>(httpMethod: Method, bearer: Option<Token>,
                                     f: (Token, J) -> Result<A, E>, g: (Token, J) -> Result<A, E>)
    requires httpMethod != Options
    ensures Decide(httpMethod, bearer, None, f) == Decide(httpMethod, bearer, None, g)
    ensures Decide(httpMethod, bearer, None, f) ==
              if bearer.None? then Reject(MissingAuthorizationHeader) else Reject(MissingJwksLayer)
    ensures Respond(Decide(httpMethod, bearer, None, f)) == Err(UNAUTHORIZED)
  {
  }

  /** When `check_auth` succeeds the request is accepted and the identity is inserted. */
  lemma CheckAuthAccepted<J, A, E>(httpMethod: Method, token: Token, ext: Extensions<J, A>,
                                   checkAuth: (Token, J) -> Result<A, E>, auth: A)
    requires httpMethod != Options && ext.jwks.Some?
    requires checkAuth(token, ext.jwks.value) == Ok(auth)
    ensures var d := Decide(httpMethod, Some(token), ext.jwks, checkAuth);
            Respond(d) == Ok(AuthorizationMiddleware) && Record(ext, d) == ext.(auth := Some(auth))
  {
  }

  /** When `check_auth` fails the request is rejected and its extensions stay as they were. */
  lemma CheckAuthRejected<J, A, E>(httpMethod: Method, token: Token, ext: Extensions<J, A>,
                                   checkAuth: (Token, J) -> Result<A, E>)
    requires httpMethod != Options && ext.jwks.Some?
    requires checkAuth(token, ext.jwks.value).Err?
    ensures var d := Decide(httpMethod, Some(token), ext.jwks, checkAuth);
            d == Reject(CheckAuthFailed(checkAuth(token, ext.jwks.value).error)) &&
            Respond(d) == Err(UNAUTHORIZED) && Record(ext, d) == ext
  {
  }

  /** All rejections look the same from outside, whichever check failed. */
  lemma UniformRejection<A, E>(d1: Decision<A, E>, d2: Decision<A, E>)
    requires d1.Reject? && d2.Reject?
    ensures Respond(d1) == Respond(d2) == Err(UNAUTHORIZED)
  {
  }

  /**
   * The extensions change only on a non-OPTIONS acceptance, and then only by the
   * identity `check_auth` returned for the request's token and key set.
   */
  lemma ExtensionsChangeOnlyOnSuccess<J, A, E>(httpMethod: Method, bearer: Option<Token>,
                                               ext: Extensions<J, A>,
                                               checkAuth: (Token, J) -> Result<A, E>)
    ensures var d := Decide(httpMethod, bearer, ext.jwks, checkAuth);
            (Respond(d).Err? || httpMethod == Options ==> Record(ext, d) == ext) &&
            (Respond(d).Ok? && httpMethod != Options ==>
               bearer.Some? && ext.jwks.Some? &&
               Record(ext, d) == ext.(auth := Some(checkAuth(bearer.value, ext.jwks.value).value)))
  {
  }

  /** Acceptance of a non-OPTIONS request means all three checks passed. */
  lemma AcceptedMeansAuthenticated<J, A, E>(httpMethod: Method, bearer: Option<Token>, jwks: Option<J>,
                                            checkAuth: (Token, J) -> Result<A, E>)
    requires httpMethod != Options
    ensures Respond(Decide(httpMethod, bearer, jwks, checkAuth)).Ok? <==>
              bearer.Some? && jwks.Some? && checkAuth(bearer.value, jwks.value).Ok?
  {
  }
}
