/** The account routes (`src/routes/auth.ts`): register, login, the
    token-checked `/me`, and logout. */
module AuthRoutes {
  import opened Common
  import opened Crypto
  import opened Json
  import opened Http
  import opened UserModel
  import opened AuthMiddleware

  const MissingRegistrationFields: string := "Please provide all required fields: email, password, firstName, lastName"
  const EmailTaken: string := "User already exists with this email"
  const RegistrationFailed: string := "Server error during registration"
  const MissingCredentials: string := "Please provide both email and password"
  const InvalidCredentials: string := "Invalid email or password"

  /** The claims a token is signed with for a stored user. */
  function TokenClaims(id: Id, u: User): (c: Claims)
    ensures c.userId == id && c.email == u.email && c.role == RoleName(u.role)
  {
    Claims(id, u.email, RoleName(u.role))
  }

  /** The user `newUser.save()` stores for a registration whose required
      fields are present, or `None` where the save's validation throws: the
      role is the supplied one or `mentee` and must be one of the three, the
      password is stored hashed, and the record must pass the schema. */
  function RegistrationRecord(email: string, password: string, firstName: string, lastName: string,
                              role: Option<string>, now: nat): (r: Option<User>)
    ensures r.Some? <==> (OrElse(role, "mentee") in RoleNames
      && SatisfiesSchema(NewUser(email, Hash(password), firstName, lastName, ParseRole(OrElse(role, "mentee")).value, now)))
    ensures r.Some? ==> WellFormed(r.value)
    ensures r.Some? ==> r.value.email == NormalizeEmail(email) && RoleName(r.value.role) == OrElse(role, "mentee")
    ensures r.Some? ==> r.value.password == Hash(password) && r.value.password != password
    ensures r.Some? ==> r.value.profile == EmptyProfile && r.value.isActive && r.value.createdAt == now
  {
    match ParseRole(OrElse(role, "mentee"))
    case None => None
    case Some(rl) =>
      var u := NewUser(email, Hash(password), firstName, lastName, rl, now);
      if SatisfiesSchema(u) then Some(u) else None
  }

  /** `POST /register` at clock reading `now`, signing with `secret`. */
  method Register(db: UserStore, email: Option<string>, password: Option<string>, firstName: Option<string>,
                  lastName: Option<string>, role: Option<string>, secret: string, now: nat)
    returns (reply: Reply<Doc>, cookie: CookieOp)
    requires db.Valid()
    modifies db
    ensures db.Valid()
    ensures !(Present(email) && Present(password) && Present(firstName) && Present(lastName)) ==>
      reply == Error(400, MissingRegistrationFields) && cookie == KeepCookie && db.users == old(db.users)
    ensures Present(email) && Present(password) && Present(firstName) && Present(lastName) ==>
      if FindByEmail(old(db.users), NormalizeEmail(email.value)).Some? then
        reply == Error(400, EmailTaken) && cookie == KeepCookie && db.users == old(db.users)
      else
        match RegistrationRecord(email.value, password.value, firstName.value, lastName.value, role, now)
        case None =>
          reply == Error(500, RegistrationFailed) && cookie == KeepCookie && db.users == old(db.users)
        case Some(u) =>
          && db.users == old(db.users) + [u]
          && reply == Reply(201, "User created successfully", Some(AccountSummary(|old(db.users)|, u)))
          && cookie == SetTokenCookie(Sign(secret, TokenClaims(|old(db.users)|, u), now))
  {
    if !(Present(email) && Present(password) && Present(firstName) && Present(lastName)) {
      return Error(400, MissingRegistrationFields), KeepCookie;
    }
    var existing := FindByEmail(db.users, NormalizeEmail(email.value));
    if existing.Some? {
      return Error(400, EmailTaken), KeepCookie;
    }
    var record := RegistrationRecord(email.value, password.value, firstName.value, lastName.value, role, now);
    if record.None? {
      return Error(500, RegistrationFailed), KeepCookie;
    }
    var id := |db.users|;
    AppendKeepsValid(db.users, record.value);
    db.users := db.users + [record.value];
    var token := Sign(secret, TokenClaims(id, record.value), now);
    reply := Reply(201, "User created successfully", Some(AccountSummary(id, record.value)));
    cookie := SetTokenCookie(token);
  }

  /** `POST /login` at clock reading `now`, signing with `secret`. An unknown
      email and a wrong password get the same reply. */
  method Login(db: UserStore, email: Option<string>, password: Option<string>, secret: string, now: nat)
    returns (reply: Reply<Doc>, cookie: CookieOp)
    ensures !(Present(email) && Present(password)) ==> reply == Error(400, MissingCredentials) && cookie == KeepCookie
    ensures Present(email) && Present(password) ==>
      match FindByEmail(db.users, NormalizeEmail(email.value))
      case None => reply == Error(401, InvalidCredentials) && cookie == KeepCookie
      case Some(i) =>
        if Compare(password.value, db.users[i].password) then
          && reply == Reply(200, "Success", Some(AccountSummary(i, db.users[i])))
          && cookie == SetTokenCookie(Sign(secret, TokenClaims(i, db.users[i]), now))
        else reply == Error(401, InvalidCredentials) && cookie == KeepCookie
  {
    if !(Present(email) && Present(password)) {
      return Error(400, MissingCredentials), KeepCookie;
    }
    var found := FindByEmail(db.users, NormalizeEmail(email.value));
    if found.None? {
      return Error(401, InvalidCredentials), KeepCookie;
    }
    var user := db.users[found.value];
    if !Compare(password.value, user.password) {
      return Error(401, InvalidCredentials), KeepCookie;
    }
    var token := Sign(secret, TokenClaims(found.value, user), now);
    reply := Reply(200, "Success", Some(AccountSummary(found.value, user)));
    cookie := SetTokenCookie(token);
  }

  /** A registration that went through leaves an account that logging in
      with the same email (in any case, with any surrounding blanks) and the
      same password finds, whose password checks, and whose email no later
      registration can take. */
  lemma {:induction false} RegisteredUserCanLogIn(users: seq<User>, email: string, password: string,
                                                  firstName: string, lastName: string, role: Option<string>,
                                                  now: nat, loginEmail: string)
    requires FindByEmail(users, NormalizeEmail(email)).None?
    requires RegistrationRecord(email, password, firstName, lastName, role, now).Some?
    requires NormalizeEmail(loginEmail) == NormalizeEmail(email)
    ensures var u := RegistrationRecord(email, password, firstName, lastName, role, now).value;
      && FindByEmail(users + [u], NormalizeEmail(loginEmail)) == Some(|users|)
      && Compare(password, u.password)
      && forall other :: other != password ==> !Compare(other, u.password)
  {
    var u := RegistrationRecord(email, password, firstName, lastName, role, now).value;
    FindAfterAppend(users, u, NormalizeEmail(email));
    forall other | other != password
      ensures !Compare(other, u.password)
    {
      CompareHash(password, other);
    }
    CompareHash(password, password);
  }

  /** Appending a user whose email is new makes that email found at the end. */
  lemma {:induction false} FindAfterAppend(users: seq<User>, u: User, email: string)
    requires FindByEmail(users, email).None? && u.email == email
    ensures FindByEmail(users + [u], email) == Some(|users|)
  {
    if users != [] {
      assert (users + [u])[1..] == users[1..] + [u];
      FindAfterAppend(users[1..], u, email);
    }
  }

  /** The token a successful login or registration sets is admitted by the
      authentication gate, as exactly the stored user's id, email and role,
      for seven days. */
  lemma IssuedTokenAdmits(secret: string, id: Id, u: User, issued: nat, now: nat)
    requires now / 1000 < issued / 1000 + TokenLifetime
    ensures Authenticate(Some(BearerPrefix + Sign(secret, TokenClaims(id, u), issued)), secret, now)
         == Admit(Claims(id, u.email, RoleName(u.role)))
  {
    AuthenticateSigned(secret, TokenClaims(id, u), issued, now);
  }

  /** `GET /me`: reads and verifies the bearer token itself, then sends the
      token's user without the password. */
  method Me(db: UserStore, authorization: Option<string>, secret: string, now: nat) returns (reply: Reply<Doc>)
    ensures !Present(BearerToken(authorization)) ==> reply == Error(401, "No token provided")
    ensures Present(BearerToken(authorization)) ==>
      match Verify(secret, BearerToken(authorization).value, now)
      case None => reply == Error(401, "Invalid token")
      case Some(c) =>
        if c.userId < |db.users| then
          reply.status == 200 && reply.body.Some? && IsView(reply.body.value, c.userId, db.users[c.userId], {"password"})
        else reply == Error(404, "User not found")
  {
    var token := BearerToken(authorization);
    if !Present(token) {
      return Error(401, "No token provided");
    }
    var decoded := Verify(secret, token.value, now);
    if decoded.None? {
      return Error(401, "Invalid token");
    }
    reply := CurrentUser(db, decoded.value.userId);
  }

  /** The user an admitted token names, without the password. */
  method CurrentUser(db: UserStore, id: Id) returns (reply: Reply<Doc>)
    ensures id < |db.users| ==>
      reply.status == 200 && reply.body.Some? && IsView(reply.body.value, id, db.users[id], {"password"})
    ensures id >= |db.users| ==> reply == Error(404, "User not found")
  {
    if id >= |db.users| {
      return Error(404, "User not found");
    }
    var user := RenderUser(id, db.users[id], {"password"});
    reply := Reply(200, "", Some(user));
  }

  /** `POST /logout`: clears the token cookie and always succeeds. */
  function Logout(): (r: (Reply<Doc>, CookieOp))
    ensures r.0.status == 200 && r.0.message == "Logged out"
    ensures r.1 == ClearTokenCookie
  {
    (Reply(200, "Logged out", None), ClearTokenCookie)
  }
}
