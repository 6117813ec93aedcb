/** The authentication gate in front of protected routes
    (`src/middleware/auth.ts`): bearer-token extraction, token verification
    attaching the claims to the request, and the role gates. */
module AuthMiddleware {
  import opened Common
  import opened Crypto

  const BearerPrefix: string := "Bearer "

  /** The token of an `Authorization` header: the text after an exact,
      case-sensitive `"Bearer "` prefix; no token for any other header or
      none at all. */
  function BearerToken(header: Option<string>): (token: Option<string>)
    ensures token.Some? <==>
      header.Some? && |header.value| >= |BearerPrefix| && header.value[..|BearerPrefix|] == BearerPrefix
    ensures token.Some? ==> header.value == BearerPrefix + token.value
  {
    if header.Some? && |header.value| >= |BearerPrefix| && header.value[..|BearerPrefix|] == BearerPrefix
    then Some(header.value[|BearerPrefix|..])
    else None
  }

  /** A header built from a token yields that token back. */
  lemma BearerRoundTrip(token: string)
    ensures BearerToken(Some(BearerPrefix + token)) == Some(token)
  {
    assert (BearerPrefix + token)[..|BearerPrefix|] == BearerPrefix;
    assert (BearerPrefix + token)[|BearerPrefix|..] == token;
  }

  /** The decision of a middleware: call `next`, or answer and stop. */
  datatype Gate = Next | Halt(status: nat, message: string)

  /** What `authMiddleware` decides: the verified claims, or a 401. */
  datatype Admission = Admit(user: Claims) | Refuse(status: nat, message: string)

  /** `authMiddleware`'s decision for an `Authorization` header, with the
      server secret and the clock. A missing, non-bearer or empty token is
      refused before verification; a token that fails verification is
      refused with a different message; the claims of a verified token are
      admitted as they are, with no lookup of the user. */
  function Authenticate(header: Option<string>, secret: string, now: nat): (r: Admission)
    ensures r.Refuse? ==> r.status == 401
    ensures !Present(BearerToken(header)) ==> r == Refuse(401, "No token provided")
    ensures Present(BearerToken(header)) ==>
      match Verify(secret, BearerToken(header).value, now)
      case Some(c) => r == Admit(c)
      case None => r == Refuse(401, "Invalid token")
  {
    var token := BearerToken(header);
    if !Present(token) then Refuse(401, "No token provided")
    else
      match Verify(secret, token.value, now)
      case Some(c) => Admit(c)
      case None => Refuse(401, "Invalid token")
  }

  /** A bearer header carrying a token signed with the server secret admits
      exactly the signed claims until the token expires. */
  lemma {:induction false} AuthenticateSigned(secret: string, c: Claims, issued: nat, now: nat)
    ensures Authenticate(Some(BearerPrefix + Sign(secret, c, issued)), secret, now)
         == if now / 1000 < issued / 1000 + TokenLifetime then Admit(c) else Refuse(401, "Invalid token")
  {
    var token := Sign(secret, c, issued);
    BearerRoundTrip(token);
    assert token != [];
    VerifySigned(secret, c, issued, now);
  }

  /** An incoming request: its `Authorization` header and the `req.user` the
      gate attaches. */
  class HttpRequest {
    const authorization: Option<string>
    var user: Option<Claims>

    constructor (authorization: Option<string>)
      ensures this.authorization == authorization && user.None?
    {
      this.authorization := authorization;
      user := None;
    }
  }

  /** `authMiddleware(req, res, next)`: on success sets `req.user` to the
      decoded claims and calls `next`; otherwise answers 401 and leaves the
      request as it was. */
  method Authorize(req: HttpRequest, secret: string, now: nat) returns (g: Gate)
    modifies req
    ensures Authenticate(req.authorization, secret, now).Admit? ==>
      g == Next && req.user == Some(Authenticate(req.authorization, secret, now).user)
    ensures Authenticate(req.authorization, secret, now).Refuse? ==>
      g == Halt(401, Authenticate(req.authorization, secret, now).message) && req.user == old(req.user)
  {
    var token := BearerToken(req.authorization);
    if !Present(token) {
      return Halt(401, "No token provided");
    }
    var decoded := Verify(secret, token.value, now);
    if decoded.None? {
      return Halt(401, "Invalid token");
    }
    req.user := decoded;
    g := Next;
  }

  /** `requireRole(roles)`: 401 without an authenticated user, 403 when the
      user's role is not one of `roles`, otherwise `next`. */
  function RequireRole(roles: seq<string>, user: Option<Claims>): (g: Gate)
    ensures user.None? ==> g == Halt(401, "Authentication required")
    ensures user.Some? ==> (g == Next <==> user.value.role in roles)
    ensures user.Some? && user.value.role !in roles ==> g == Halt(403, "Insufficient permissions")
  {
    if user.None? then Halt(401, "Authentication required")
    else if user.value.role !in roles then Halt(403, "Insufficient permissions")
    else Next
  }

  function RequireMentor(user: Option<Claims>): Gate { RequireRole(["mentor"], user) }
  function RequireMentee(user: Option<Claims>): Gate { RequireRole(["mentee"], user) }
  function RequireAdmin(user: Option<Claims>): Gate { RequireRole(["admin"], user) }
  function RequireMentorOrAdmin(user: Option<Claims>): Gate { RequireRole(["mentor", "admin"], user) }

  /** The four role gates admit exactly the roles they are named after. */
  lemma RoleGates(c: Claims)
    ensures RequireMentor(Some(c)) == Next <==> c.role == "mentor"
    ensures RequireMentee(Some(c)) == Next <==> c.role == "mentee"
    ensures RequireAdmin(Some(c)) == Next <==> c.role == "admin"
    ensures RequireMentorOrAdmin(Some(c)) == Next <==> c.role == "mentor" || c.role == "admin"
  {
  }

  /** `authMiddleware` followed by `requireAdmin`, as the admin routes mount
      them: the claims of an authenticated administrator, or the reply of
      the first gate that stops the request. */
  function AdminGate(header: Option<string>, secret: string, now: nat): (r: Admission)
    ensures r.Admit? <==> Authenticate(header, secret, now).Admit? && Authenticate(header, secret, now).user.role == "admin"
    ensures r.Admit? ==> r.user == Authenticate(header, secret, now).user
    ensures Authenticate(header, secret, now).Refuse? ==> r == Authenticate(header, secret, now)
    ensures Authenticate(header, secret, now).Admit? && !r.Admit? ==> r == Refuse(403, "Insufficient permissions")
  {
    match Authenticate(header, secret, now)
    case Refuse(s, m) => Refuse(s, m)
    case Admit(c) =>
      match RequireAdmin(Some(c))
      case Next => Admit(c)
      case Halt(s, m) => Refuse(s, m)
  }
}
