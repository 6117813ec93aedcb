/** The administrator routes (`src/routes/admin.ts`). Both are mounted
    behind the authentication gate and the administrator gate, so each
    starts from the decision those two make for the request's
    `Authorization` header. */
module AdminRoutes {
  import opened Common
  import opened Json
  import opened Http
  import opened UserModel
  import opened AuthMiddleware
  import opened Decimal

  /** The identifiers of a whole collection, in insertion order. */
  function AllIds(n: nat): (ids: seq<Id>)
    ensures |ids| == n && forall k :: 0 <= k < n ==> ids[k] == k
  {
    seq(n, k requires 0 <= k < n => k)
  }

  /** `GET /users`: every user, without passwords. */
  method ListAllUsers(db: UserStore, authorization: Option<string>, secret: string, now: nat)
    returns (reply: Reply<seq<Doc>>)
    ensures AdminGate(authorization, secret, now).Refuse? ==>
      reply == Error(AdminGate(authorization, secret, now).status, AdminGate(authorization, secret, now).message)
    ensures AdminGate(authorization, secret, now).Admit? ==>
      && reply.status == 200 && reply.body.Some? && |reply.body.value| == |db.users|
      && forall k :: 0 <= k < |db.users| ==> IsView(reply.body.value[k], k, db.users[k], {"password"})
  {
    var gate := AdminGate(authorization, secret, now);
    if gate.Refuse? {
      return Error(gate.status, gate.message);
    }
    var docs := RenderUsers(db.users, AllIds(|db.users|), {"password"});
    reply := Reply(200, "", Some(docs));
  }

  /** `PUT /users/:id/role` at clock reading `now`: after the gates, a role
      outside the three is refused before any lookup; then the user's role
      is set and `updatedAt` stamped, and nothing else changes. */
  method SetRole(db: UserStore, authorization: Option<string>, secret: string, now: nat, param: string, role: Option<string>)
    returns (reply: Reply<Doc>)
    requires db.Valid()
    modifies db
    ensures db.Valid()
    ensures AdminGate(authorization, secret, now).Refuse? ==>
      && reply == Error(AdminGate(authorization, secret, now).status, AdminGate(authorization, secret, now).message)
      && db.users == old(db.users)
    ensures AdminGate(authorization, secret, now).Admit? && !(role.Some? && role.value in RoleNames) ==>
      reply == Error(400, "Invalid role") && db.users == old(db.users)
    ensures AdminGate(authorization, secret, now).Admit? && role.Some? && role.value in RoleNames ==>
      match ParamId(param)
      case None => reply == Error(500, ServerError) && db.users == old(db.users)
      case Some(id) =>
        if id < |old(db.users)| then
          && db.users == old(db.users)[id := old(db.users)[id].(role := ParseRole(role.value).value, updatedAt := now)]
          && RoleName(db.users[id].role) == role.value
          && reply.status == 200 && reply.message == "Role updated"
          && reply.body.Some? && IsView(reply.body.value, id, db.users[id], {"password"})
        else reply == Error(404, "User not found") && db.users == old(db.users)
  {
    var gate := AdminGate(authorization, secret, now);
    if gate.Refuse? {
      return Error(gate.status, gate.message);
    }
    if !(role.Some? && role.value in RoleNames) {
      return Error(400, "Invalid role");
    }
    var id := ParamId(param);
    if id.None? {
      return Error(500, ServerError);
    }
    if id.value >= |db.users| {
      return Error(404, "User not found");
    }
    var user := ApplyRole(db, id.value, ParseRole(role.value).value, now);
    reply := Reply(200, "Role updated", Some(user));
  }

  /** `findByIdAndUpdate(id, {role}, {new: true}).select('-password')` on a
      user that exists. */
  method ApplyRole(db: UserStore, id: Id, r: Role, now: nat) returns (view: Doc)
    requires db.Valid() && id < |db.users|
    modifies db
    ensures db.Valid()
    ensures db.users == old(db.users)[id := old(db.users)[id].(role := r, updatedAt := now)]
    ensures IsView(view, id, db.users[id], {"password"})
  {
    var updated := db.users[id].(role := r, updatedAt := now);
    db.Replace(id, updated);
    view := RenderUser(id, updated, {"password"});
  }

  /** Only an administrator's valid token gets past the gates: a caller whose
      token is admitted with any other role is refused with 403. */
  lemma {:induction false} OnlyAdminsPass(secret: string, c: Crypto.Claims, issued: nat, now: nat)
    requires now / 1000 < issued / 1000 + Crypto.TokenLifetime
    ensures AdminGate(Some(BearerPrefix + Crypto.Sign(secret, c, issued)), secret, now)
         == if c.role == "admin" then Admit(c) else Refuse(403, "Insufficient permissions")
  {
    AuthenticateSigned(secret, c, issued, now);
  }
}
