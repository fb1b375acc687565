/**
 * Registration and login over the users collection.  Password hashing,
 * hash comparison and token signing are outside the model: the hash of the
 * request's password arrives as a parameter (absent when hashing failed),
 * and comparison and token issue are functions passed in.
 */
module Auth {
  import opened Store
  import opened Http

  datatype User = User(id: string, name: string, email: string, password: string)

  datatype RegisterRequest = RegisterRequest(name: string, email: string, password: string)

  datatype LoginRequest = LoginRequest(email: string, password: string)

  /** A cookie set on the reply: name, value and max-age in seconds. */
  datatype Cookie = Cookie(name: string, value: string, maxAge: int)

  /** The login reply; on success the body is {"token": token} and the token is also a cookie. */
  datatype LoginReply = LoginReply(status: int, body: Body<string>, cookie: Option<Cookie>)

  const TokenMaxAge := 3600

  /** The filter {"email": email}. */
  function ByEmail(email: string): User -> bool
  {
    (u: User) => u.email == email
  }

  /** The filter {"_id": id}. */
  function ById(id: string): User -> bool
  {
    (u: User) => u.id == id
  }

  /** No two users share a non-empty e-mail address. */
  ghost predicate UniqueEmails(users: seq<User>)
  {
    forall i, j :: 0 <= i < j < |users| && users[i].email != "" ==> users[i].email != users[j].email
  }

  /**
   * Register's duplicate check: the first user with the e-mail is a conflict
   * only when its e-mail is non-empty, so an empty e-mail is never a duplicate.
   */
  function EmailTaken(users: seq<User>, email: string): (taken: bool)
    ensures taken <==> email != "" && exists k :: 0 <= k < |users| && users[k].email == email
  {
    match FindOne(users, ByEmail(email))
    case Some(existing) => existing.email != ""
    case None => false
  }

  /** The users collection and the two handlers over it. */
  class AuthApi {
    var usersCollection: seq<User>

    constructor ()
      ensures usersCollection == []
    {
      usersCollection := [];
    }

    /**
     * POST /auth/register.  `hashed` is the outcome of hashing the request's
     * password; `freshID` is the new user's id.
     */
    method Register(body: Bind<RegisterRequest>, hashed: Option<string>, freshID: string) returns (reply: Reply<Body<string>>)
      modifies this
      ensures body.Invalid? ==> reply == Reply(BadRequest, Error("Invalid request body"))
      ensures body.Valid? && hashed.None? ==> reply == Reply(InternalServerError, Error("Could not hash password"))
      ensures body.Valid? && hashed.Some? && EmailTaken(old(usersCollection), body.value.email) ==>
        reply == Reply(Conflict, Error("Email already registered"))
      ensures reply.status != Created ==> usersCollection == old(usersCollection)
      ensures reply.status == Created <==>
        body.Valid? && hashed.Some? && !EmailTaken(old(usersCollection), body.value.email)
      ensures reply.status == Created ==>
        && reply == Reply(Created, Message("User created"))
        && usersCollection == old(usersCollection) + [User(freshID, body.value.name, body.value.email, hashed.value)]
      ensures UniqueEmails(old(usersCollection)) ==> UniqueEmails(usersCollection)
    {
      if body.Invalid? {
        return Reply(BadRequest, Error("Invalid request body"));
      }
      var req := body.value;
      if hashed.None? {
        return Reply(InternalServerError, Error("Could not hash password"));
      }
      if EmailTaken(usersCollection, req.email) {
        return Reply(Conflict, Error("Email already registered"));
      }
      var newUser := User(freshID, req.name, req.email, hashed.value);
      usersCollection := usersCollection + [newUser];
      reply := Reply(Created, Message("User created"));
    }

    /**
     * POST /auth/login.  `passwordMatches(hash, plain)` stands for the hash
     * comparison and `issue(id)` for the token signed for user `id`.
     */
    method Login(body: Bind<LoginRequest>, passwordMatches: (string, string) -> bool, issue: string -> string)
      returns (reply: LoginReply)
      ensures body.Invalid? ==> reply == LoginReply(BadRequest, Error("Invalid request body"), None)
      ensures reply.status == OK <==>
        && body.Valid?
        && FindOne(usersCollection, ByEmail(body.value.email)).Some?
        && passwordMatches(FindOne(usersCollection, ByEmail(body.value.email)).value.password, body.value.password)
      ensures reply.status == OK ==>
        var user := FindOne(usersCollection, ByEmail(body.value.email)).value;
        && user in usersCollection && user.email == body.value.email
        && reply == LoginReply(OK, Item(issue(user.id)), Some(Cookie("token", issue(user.id), TokenMaxAge)))
      ensures body.Valid? && reply.status != OK ==>
        reply == LoginReply(Unauthorized, Error("Invalid email or password"), None)
    {
      if body.Invalid? {
        return LoginReply(BadRequest, Error("Invalid request body"), None);
      }
      var req := body.value;
      var found := FindOne(usersCollection, ByEmail(req.email));
      if found.None? {
        return LoginReply(Unauthorized, Error("Invalid email or password"), None);
      }
      var user := found.value;
      if !passwordMatches(user.password, req.password) {
        return LoginReply(Unauthorized, Error("Invalid email or password"), None);
      }
      var token := issue(user.id);
      reply := LoginReply(OK, Item(token), Some(Cookie("token", token, TokenMaxAge)));
    }
  }
}
