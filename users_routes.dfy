/** The user routes (`src/routes/users.ts`): the caller's own record, the
    profile replacement, the public view of any user, and the filtered,
    paginated listing. The `/me` routes run after the authentication gate
    and receive the claims it admitted. */
module UsersRoutes {
  import opened Common
  import opened Decimal
  import opened Json
  import opened Http
  import opened Query
  import opened UserModel
  import Crypto

  /** `GET /me`: the caller's record without the password. */
  method GetMe(db: UserStore, caller: Crypto.Claims) returns (reply: Reply<Doc>)
    ensures caller.userId >= |db.users| ==> reply == Error(404, "User not found")
    ensures caller.userId < |db.users| ==>
      reply.status == 200 && reply.body.Some? && IsView(reply.body.value, caller.userId, db.users[caller.userId], {"password"})
  {
    if caller.userId >= |db.users| {
      return Error(404, "User not found");
    }
    var user := RenderUser(caller.userId, db.users[caller.userId], {"password"});
    reply := Reply(200, "", Some(user));
  }

  /** The profile members of a `PUT /me/profile` body; `None` where a member
      is missing or falsy. */
  datatype ProfileInput = ProfileInput(
    bio: Option<string>,
    skills: Option<seq<string>>,
    interests: Option<seq<string>>,
    experience: Option<string>,
    education: Option<string>,
    linkedinUrl: Option<string>,
    githubUrl: Option<string>,
    portfolioUrl: Option<string>)

  /** The profile the `$set` writes: every one of the eight members, each
      the supplied value or the empty one. The old profile plays no part. */
  function ReplacementProfile(input: ProfileInput): (p: Profile)
    ensures p.bio == OrElse(input.bio, "") && p.experience == OrElse(input.experience, "")
    ensures p.education == OrElse(input.education, "") && p.linkedinUrl == OrElse(input.linkedinUrl, "")
    ensures p.githubUrl == OrElse(input.githubUrl, "") && p.portfolioUrl == OrElse(input.portfolioUrl, "")
    ensures p.skills == ListOrEmpty(input.skills) && p.interests == ListOrEmpty(input.interests)
  {
    Profile(
      OrElse(input.bio, ""),
      ListOrEmpty(input.skills),
      ListOrEmpty(input.interests),
      OrElse(input.experience, ""),
      OrElse(input.education, ""),
      OrElse(input.linkedinUrl, ""),
      OrElse(input.githubUrl, ""),
      OrElse(input.portfolioUrl, ""))
  }

  /** The update replaces rather than patches: a body that leaves every
      member out resets the profile to the one a new user starts with, and a
      body that supplies every member of a profile (with no empty strings)
      sets exactly that profile. */
  lemma ReplacementNotPatch(p: Profile)
    ensures ReplacementProfile(ProfileInput(None, None, None, None, None, None, None, None)) == EmptyProfile
    ensures (p.bio != "" && p.experience != "" && p.education != "" && p.linkedinUrl != ""
             && p.githubUrl != "" && p.portfolioUrl != "") ==>
      ReplacementProfile(ProfileInput(Some(p.bio), Some(p.skills), Some(p.interests), Some(p.experience),
                                      Some(p.education), Some(p.linkedinUrl), Some(p.githubUrl), Some(p.portfolioUrl))) == p
  {
  }

  /** `PUT /me/profile` at clock reading `now`: replaces the caller's profile
      and stamps `updatedAt`; nothing else about any user changes. */
  method UpdateProfile(db: UserStore, caller: Crypto.Claims, input: ProfileInput, now: nat) returns (reply: Reply<Doc>)
    requires db.Valid()
    modifies db
    ensures db.Valid()
    ensures caller.userId >= |old(db.users)| ==> reply == Error(404, "User not found") && db.users == old(db.users)
    ensures caller.userId < |old(db.users)| ==>
      && db.users == old(db.users)[caller.userId := old(db.users)[caller.userId].(profile := ReplacementProfile(input), updatedAt := now)]
      && reply.status == 200 && reply.message == "Profile updated successfully"
      && reply.body.Some? && IsView(reply.body.value, caller.userId, db.users[caller.userId], {"password"})
  {
    var id := caller.userId;
    if id >= |db.users| {
      return Error(404, "User not found");
    }
    var updated := db.users[id].(profile := ReplacementProfile(input), updatedAt := now);
    db.Replace(id, updated);
    var user := RenderUser(id, updated, {"password"});
    reply := Reply(200, "Profile updated successfully", Some(user));
  }

  /** `GET /:id`: any user's public view, without password or email. */
  method GetUser(db: UserStore, param: string) returns (reply: Reply<Doc>)
    ensures ParamId(param).None? ==> reply == Error(500, ServerError)
    ensures ParamId(param).Some? && ParamId(param).value >= |db.users| ==> reply == Error(404, "User not found")
    ensures ParamId(param).Some? && ParamId(param).value < |db.users| ==>
      && reply.status == 200 && reply.body.Some?
      && IsView(reply.body.value, ParamId(param).value, db.users[ParamId(param).value], {"password", "email"})
      && "email" !in reply.body.value && "password" !in reply.body.value
  {
    var id := ParamId(param);
    if id.None? {
      return Error(500, ServerError);
    }
    if id.value >= |db.users| {
      return Error(404, "User not found");
    }
    var user := RenderUser(id.value, db.users[id.value], {"password", "email"});
    ViewContents(user, id.value, db.users[id.value], {"password", "email"});
    reply := Reply(200, "", Some(user));
  }

  /** The listing filter: the exact role when one is given, and at least one
      of the given skills when any are. */
  predicate MatchesFilter(u: User, role: Option<string>, skills: seq<string>) {
    && (Present(role) ==> RoleName(u.role) == role.value)
    && (skills != [] ==> exists s :: s in skills && s in u.profile.skills)
  }

  /** The filter as a function on one user. */
  function Selects(role: Option<string>, skills: seq<string>): User -> bool {
    (u: User) => MatchesFilter(u, role, skills)
  }

  /** The users the filter selects, in insertion order. */
  function Matching(users: seq<User>, role: Option<string>, skills: seq<string>): (ids: seq<Id>)
    ensures forall k :: 0 <= k < |ids| ==> ids[k] < |users| && MatchesFilter(users[ids[k]], role, skills)
    ensures forall i :: 0 <= i < |users| && MatchesFilter(users[i], role, skills) ==> i in ids
    ensures Increasing(ids)
  {
    Where(users, Selects(role, skills))
  }

  /** The users the filter selects, each once, newest first. */
  function OrderedMatches(users: seq<User>, role: Option<string>, skills: seq<string>): (ids: seq<Id>)
    ensures multiset(ids) == multiset(Matching(users, role, skills))
    ensures |ids| == |Matching(users, role, skills)|
    ensures forall k :: 0 <= k < |ids| ==> ids[k] < |users| && MatchesFilter(users[ids[k]], role, skills)
    ensures Distinct(ids)
    ensures forall i, j :: 0 <= i < j < |ids| ==> users[ids[i]].createdAt >= users[ids[j]].createdAt
  {
    var ordered := NewestFirstWhere(users, Selects(role, skills), (u: User) => u.createdAt);
    assert |ordered| == |multiset(ordered)| == |multiset(Matching(users, role, skills))|;
    ordered
  }

  /** The users on page `page` of `limit` users each: the window of the
      newest-first matches that starts after the first `Skip(page, limit)`,
      as long as `limit` or as what is left. */
  function ListingIds(users: seq<User>, role: Option<string>, skills: seq<string>, page: Positive, limit: Positive): (ids: seq<Id>)
    ensures var ordered := OrderedMatches(users, role, skills);
      var skip := Skip(page, limit);
      && |ids| == (if skip >= |ordered| then 0 else if |ordered| - skip < limit then |ordered| - skip else limit)
      && forall k :: 0 <= k < |ids| ==> ids[k] == ordered[skip + k]
    ensures |ids| <= limit
    ensures forall k :: 0 <= k < |ids| ==> ids[k] < |users| && MatchesFilter(users[ids[k]], role, skills)
  {
    Page(OrderedMatches(users, role, skills), Skip(page, limit), limit)
  }

  datatype Pagination = Pagination(page: nat, limit: nat, total: nat, pages: nat)
  datatype UserPage = UserPage(users: seq<Doc>, pagination: Pagination)

  /** `GET /` with the query's role, skills, page and limit (page 1 and 10
      when absent). */
  method ListUsers(db: UserStore, role: Option<string>, skills: seq<string>, page: Option<Positive>, limit: Option<Positive>)
    returns (reply: Reply<UserPage>)
    ensures reply.status == 200 && reply.body.Some?
    ensures var p := if page.Some? then page.value else 1;
      var l := if limit.Some? then limit.value else 10;
      var ids := ListingIds(db.users, role, skills, p, l);
      var total := |Matching(db.users, role, skills)|;
      && reply.body.value.pagination == Pagination(p, l, total, PageCount(total, l))
      && |reply.body.value.users| == |ids|
      && forall k :: 0 <= k < |ids| ==> IsView(reply.body.value.users[k], ids[k], db.users[ids[k]], {"password", "email"})
  {
    var p: Positive := if page.Some? then page.value else 1;
    var l: Positive := if limit.Some? then limit.value else 10;
    var ids := ListingIds(db.users, role, skills, p, l);
    var docs := RenderUsers(db.users, ids, {"password", "email"});
    var total := |Matching(db.users, role, skills)|;
    reply := Reply(200, "", Some(UserPage(docs, Pagination(p, l, total, PageCount(total, l)))));
  }

  /** Every user the filter selects appears on some page from 1 to `pages`. */
  lemma {:induction false} EveryMatchListed(users: seq<User>, role: Option<string>, skills: seq<string>, limit: Positive, i: Id)
    requires i < |users| && MatchesFilter(users[i], role, skills)
    ensures var pages := PageCount(|Matching(users, role, skills)|, limit);
      exists page: Positive :: page <= pages && i in ListingIds(users, role, skills, page, limit)
  {
    var ordered := OrderedMatches(users, role, skills);
    assert i in multiset(Matching(users, role, skills));
    assert i in multiset(ordered);
    var k :| 0 <= k < |ordered| && ordered[k] == i;
    var page := PagedPosition(ordered, k, limit);
    assert i in ListingIds(users, role, skills, page, limit);
  }

  /** Fifteen matches at ten per page: the second page holds five users and
      there are two pages. */
  lemma PaginationExample(users: seq<User>, role: Option<string>, skills: seq<string>)
    requires |Matching(users, role, skills)| == 15
    ensures |ListingIds(users, role, skills, 2, 10)| == 5
    ensures PageCount(|Matching(users, role, skills)|, 10) == 2
  {
    assert Skip(2, 10) == 10;
  }
}
