/**
 * The CSRF configuration and its error handler (src/server/middleware/csrf.ts). Token
 * generation and the double-submit comparison are library code and not part of this model;
 * what is modelled is the configuration record, the method exemption, where the submitted
 * token is read from, and the mapping of the library's error to a response.
 */
module Csrf {
  import opened Common
  import opened Http

  /** `process.env`: the variables that are set. */
  type Env = map<string, string>

  datatype CookieOptions = CookieOptions(httpOnly: bool, sameSite: string, secure: bool, path: string, signed: bool)

  datatype CsrfConfig = CsrfConfig(
    secret: string,
    cookieName: string,
    cookieOptions: CookieOptions,
    size: nat,
    ignoredMethods: seq<string>,
    tokenHeader: string)

  const FallbackSecret: string := "ADD_SECRET_TO_ENV"
  const CsrfErrorMessage: string := "Invalid CSRF token. Please try again."

  /** The configuration record passed to `doubleCsrf`, for a given environment. */
  function Config(env: Env): (c: CsrfConfig)
    ensures c.secret == (if "CSRF_SECRET" in env then env["CSRF_SECRET"] else FallbackSecret)
    ensures c.cookieName == "x-csrf-token" && c.tokenHeader == "x-csrf-token"
    ensures c.cookieOptions.httpOnly && c.cookieOptions.sameSite == "strict" && c.cookieOptions.path == "/"
    ensures c.cookieOptions.signed <==> "COOKIE_SECRET" in env && env["COOKIE_SECRET"] != ""
    ensures c.cookieOptions.secure <==> "NODE_ENV" in env && env["NODE_ENV"] == "production"
    ensures c.ignoredMethods == ["GET", "HEAD", "OPTIONS"]
  {
    CsrfConfig(
      if "CSRF_SECRET" in env then env["CSRF_SECRET"] else FallbackSecret,
      "x-csrf-token",
      CookieOptions(
        true,
        "strict",
        "NODE_ENV" in env && env["NODE_ENV"] == "production",
        "/",
        "COOKIE_SECRET" in env && env["COOKIE_SECRET"] != ""),
      64,
      ["GET", "HEAD", "OPTIONS"],
      "x-csrf-token")
  }

  /** Whether the protection checks a request with this (upper-case) method `verb`. */
  predicate Checked(c: CsrfConfig, verb: string) {
    verb !in c.ignoredMethods
  }

  /** `getTokenFromRequest`: the `x-csrf-token` header, and nothing else of the request. */
  function TokenFromRequest(c: CsrfConfig, headers: map<string, string>): Option<string> {
    if c.tokenHeader in headers then Some(headers[c.tokenHeader]) else None
  }

  /** `handleCSRFError`. */
  function HandleCsrfError(err: Failure): (r: Outcome<Body<()>>)
    ensures r.Respond? <==> err.name == "CSRFTokenError"
    ensures r.Respond? ==> r == Respond(403, ErrorMessage(CsrfErrorMessage))
    ensures !r.Respond? ==> r == NextError(err)
  {
    if err.name == "CSRFTokenError" then ErrorReply(403, CsrfErrorMessage) else NextError(err)
  }

  /** Of the common methods, exactly the state-changing ones are checked, in every environment. */
  lemma MutatingMethodsChecked(env: Env, verb: string)
    requires verb in ["GET", "HEAD", "OPTIONS", "POST", "PUT", "PATCH", "DELETE"]
    ensures Checked(Config(env), verb) <==> verb in ["POST", "PUT", "PATCH", "DELETE"]
  {
  }

  /** The token is the header value: cookies, body and query play no part. */
  lemma TokenOnlyFromHeader(env: Env, headers: map<string, string>, token: string)
    ensures TokenFromRequest(Config(env), headers["x-csrf-token" := token]) == Some(token)
    ensures "x-csrf-token" !in headers ==> TokenFromRequest(Config(env), headers) == None
  {
  }

  /** Without `CSRF_SECRET` the secret is the fixed fallback; an empty one is kept as it is. */
  lemma SecretFallback(env: Env)
    ensures "CSRF_SECRET" !in env ==> Config(env).secret == FallbackSecret
    ensures Config(env["CSRF_SECRET" := ""]).secret == ""
  {
  }
}
