/**
 * The authentication middleware: read the "token" cookie, verify it, look
 * the user up by the token's id, and either abort with 401 or continue,
 * with "user" set in the request context only when all three steps worked.
 * Token verification is a function passed in: it yields the token's id
 * claim for a valid token and nothing otherwise.
 */
module Middleware {
  import opened Store
  import opened Auth

  /** What the middleware does with the request. */
  datatype Decision =
    | Abort(status: int, error: string)  // the request ends with this reply
    | Next(user: Option<User>)           // the handler runs; "user" is set when present

  /** The cookie verifies and names a stored user: the id of that user. */
  ghost predicate Resolves(users: seq<User>, cookie: Option<string>, verify: string -> Option<string>)
  {
    && cookie.Some?
    && verify(cookie.value).Some?
    && FindOne(users, ById(verify(cookie.value).value)).Some?
  }

  function AuthMiddleware(users: seq<User>, cookie: Option<string>, verify: string -> Option<string>, required: bool)
    : (d: Decision)
    ensures d.Next? && d.user.Some? <==> Resolves(users, cookie, verify)
    ensures d.Next? && d.user.Some? ==>
      && d.user == FindOne(users, ById(verify(cookie.value).value))
      && d.user.value in users && d.user.value.id == verify(cookie.value).value
    ensures d.Abort? <==> required && !Resolves(users, cookie, verify)
    ensures d.Abort? ==> d == Abort(401, "Not authenticated")
    ensures d == Next(None) <==> !required && !Resolves(users, cookie, verify)
  {
    match cookie
    case None =>
      if required then Abort(401, "Not authenticated") else Next(None)
    case Some(token) =>
      match verify(token)
      case None =>
        if required then Abort(401, "Not authenticated") else Next(None)
      case Some(id) =>
        match FindOne(users, ById(id))
        case None =>
          if required then Abort(401, "Not authenticated") else Next(None)
        case Some(user) =>
          Next(Some(user))
  }

  /** Required and optional authentication differ only where the first aborts and the second continues anonymously. */
  lemma {:induction false} RequiredDiffersOnlyOnFailure(users: seq<User>, cookie: Option<string>, verify: string -> Option<string>)
    ensures var strict, lax := AuthMiddleware(users, cookie, verify, true), AuthMiddleware(users, cookie, verify, false);
      strict == lax || (strict == Abort(401, "Not authenticated") && lax == Next(None))
  {
  }
}
