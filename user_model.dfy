/** The User record (`src/models/User.ts`): its fields, the schema's
    setters, validators and defaults, the stored document and the `toJSON`
    transform applied when a user is sent, and the collection of users. */
module UserModel {
  import opened Common
  import opened Text
  import opened Decimal
  import opened Json

  datatype Role = Mentor | Mentee | Admin

  /** The role names the schema's enum admits. */
  const RoleNames: seq<string> := ["mentor", "mentee", "admin"]

  function RoleName(r: Role): (s: string)
    ensures s in RoleNames
  {
    match r
    case Mentor => "mentor"
    case Mentee => "mentee"
    case Admin => "admin"
  }

  /** The enum check: the role a name denotes, if it is one of the three. */
  function ParseRole(s: string): (r: Option<Role>)
    ensures r.Some? <==> s in RoleNames
    ensures r.Some? ==> RoleName(r.value) == s
  {
    if s == "mentor" then Some(Mentor)
    else if s == "mentee" then Some(Mentee)
    else if s == "admin" then Some(Admin)
    else None
  }

  /** Every role survives being written as its name and read back. */
  lemma ParseRoleName(r: Role)
    ensures ParseRole(RoleName(r)) == Some(r)
  {
  }

  datatype Profile = Profile(
    bio: string,
    skills: seq<string>,
    interests: seq<string>,
    experience: string,
    education: string,
    linkedinUrl: string,
    githubUrl: string,
    portfolioUrl: string)

  /** The profile a new user starts with. */
  const EmptyProfile: Profile := Profile("", [], [], "", "", "", "", "")

  /** A stored user; `createdAt` and `updatedAt` are clock readings. */
  datatype User = User(
    email: string,
    password: string,
    firstName: string,
    lastName: string,
    role: Role,
    profile: Profile,
    isActive: bool,
    createdAt: nat,
    updatedAt: nat)

  const NameMaxLength: nat := 50
  const PasswordMinLength: nat := 6

  /** The email setters `lowercase: true, trim: true`: the input with the
      blanks around it removed, lower-cased. */
  function NormalizeEmail(e: string): (r: string)
    ensures |r| <= |e| && Trimmed(r)
    ensures forall i :: 0 <= i < |r| ==> !IsUpperAscii(r[i])
    ensures exists lo, hi :: 0 <= lo <= hi <= |e| && r == ToLower(e[lo..hi])
                             && AllWhitespace(e[..lo]) && AllWhitespace(e[hi..])
  {
    var lower := ToLower(e);
    TrimKeepsLower(lower);
    TrimOfLower(e);
    Trim(lower)
  }

  /** Lower-casing keeps blanks where they are, so trimming the lower-cased
      text is lower-casing the trimmed part of `e`. */
  lemma TrimOfLower(e: string)
    ensures exists lo, hi :: 0 <= lo <= hi <= |e| && Trim(ToLower(e)) == ToLower(e[lo..hi])
                             && AllWhitespace(e[..lo]) && AllWhitespace(e[hi..])
  {
    var s := ToLower(e);
    var (lo, hi) := TrimBounds(s);
    LowerSlice(e, lo, hi);
    BlankEnds(e, lo, hi);
    assert Trim(ToLower(e)) == ToLower(e[lo..hi]) && AllWhitespace(e[..lo]) && AllWhitespace(e[hi..]);
  }

  lemma LowerSlice(e: string, lo: nat, hi: nat)
    requires lo <= hi <= |e|
    ensures ToLower(e)[lo..hi] == ToLower(e[lo..hi])
  {
    var a := ToLower(e)[lo..hi];
    var b := ToLower(e[lo..hi]);
    forall i | 0 <= i < hi - lo
      ensures a[i] == b[i]
    {
      assert e[lo..hi][i] == e[lo + i];
    }
  }

  lemma BlankEnds(e: string, lo: nat, hi: nat)
    requires (lo, hi) == TrimBounds(ToLower(e))
    ensures AllWhitespace(e[..lo]) && AllWhitespace(e[hi..])
  {
    var s := ToLower(e);
    forall i | 0 <= i < lo
      ensures IsWhitespace(e[..lo][i])
    {
      assert IsWhitespace(s[i]);
    }
    forall i | 0 <= i < |e| - hi
      ensures IsWhitespace(e[hi..][i])
    {
      assert IsWhitespace(s[hi + i]);
    }
  }

  /** Trimming keeps only characters of the string, so a string without
      upper-case letters stays without them. */
  lemma TrimKeepsLower(s: string)
    requires forall i :: 0 <= i < |s| ==> !IsUpperAscii(s[i])
    ensures forall i :: 0 <= i < |Trim(s)| ==> !IsUpperAscii(Trim(s)[i])
  {
    var r := Trim(s);
    var lo := TrimBounds(s).0;
    forall i | 0 <= i < |r|
      ensures !IsUpperAscii(r[i])
    {
      assert r[i] == s[lo + i];
    }
  }

  /** An email the setters have already normalised is left as it is. */
  lemma {:induction false} NormalizeEmailIdempotent(e: string)
    ensures NormalizeEmail(NormalizeEmail(e)) == NormalizeEmail(e)
  {
    var n := NormalizeEmail(e);
    assert ToLower(n) == n;
    TrimOfTrimmed(n);
  }

  /** The regular expression class `\w`. */
  predicate IsWordChar(c: char) {
    ('a' <= c <= 'z') || ('A' <= c <= 'Z') || ('0' <= c <= '9') || c == '_'
  }

  /** What `\w+([.-]?\w+)*` matches: word characters and single '.' or '-'
      separators, starting and ending with a word character. */
  predicate IsDotted(s: string) {
    && s != []
    && IsWordChar(s[0]) && IsWordChar(s[|s| - 1])
    && (forall i :: 0 <= i < |s| ==> IsWordChar(s[i]) || s[i] == '.' || s[i] == '-')
    && (forall i :: 0 <= i < |s| - 1 ==> IsWordChar(s[i]) || IsWordChar(s[i + 1]))
  }

  /** What `\w+([.-]?\w+)*(\.\w{2,3})+` matches: a dotted name, a '.', and a
      final label of two or three word characters (earlier `.xx` labels are
      part of the dotted name). */
  predicate IsEmailDomain(d: string) {
    match LastIndexOf(d, '.')
    case None => false
    case Some(j) =>
      && IsDotted(d[..j])
      && 2 <= |d| - (j + 1) <= 3
      && forall k :: j < k < |d| ==> IsWordChar(d[k])
  }

  /** The schema's `match` validator for the email (`src/models/User.ts:47`):
      a dotted local part, an '@', and an email domain. */
  predicate MatchesEmailPattern(e: string) {
    match IndexOf(e, '@')
    case None => false
    case Some(i) => IsDotted(e[..i]) && IsEmailDomain(e[i + 1..])
  }

  /** The validators a save runs: required email, password and names, the
      email pattern, the password minimum and the name maximum. */
  predicate SatisfiesSchema(u: User) {
    && u.email != "" && MatchesEmailPattern(u.email)
    && u.password != "" && |u.password| >= PasswordMinLength
    && u.firstName != "" && |u.firstName| <= NameMaxLength
    && u.lastName != "" && |u.lastName| <= NameMaxLength
  }

  /** What the setters guarantee of every stored user. */
  predicate SettersApplied(u: User) {
    && u.email == NormalizeEmail(u.email)
    && u.firstName == Trim(u.firstName)
    && u.lastName == Trim(u.lastName)
  }

  predicate WellFormed(u: User) {
    SatisfiesSchema(u) && SettersApplied(u)
  }

  /** `new User({...})` as the register route builds it at clock reading
      `now`: the setters normalise the email and trim the names, the profile
      is empty, the account is active and both timestamps are `now`. */
  function NewUser(email: string, passwordHash: string, firstName: string, lastName: string, role: Role, now: nat): (u: User)
    ensures SettersApplied(u)
    ensures u.profile == EmptyProfile && u.isActive && u.role == role
    ensures u.password == passwordHash && u.createdAt == now && u.updatedAt == now
  {
    NormalizeEmailIdempotent(email);
    TrimIdempotent(firstName);
    TrimIdempotent(lastName);
    User(NormalizeEmail(email), passwordHash, Trim(firstName), Trim(lastName), role, EmptyProfile, true, now, now)
  }

  function ProfileJson(p: Profile): Json {
    JObj(map[
      "bio" := JStr(p.bio),
      "skills" := Strings(p.skills),
      "interests" := Strings(p.interests),
      "experience" := JStr(p.experience),
      "education" := JStr(p.education),
      "linkedinUrl" := JStr(p.linkedinUrl),
      "githubUrl" := JStr(p.githubUrl),
      "portfolioUrl" := JStr(p.portfolioUrl)])
  }

  /** A stored user as the driver returns it, before any transform. */
  function UserDocument(id: Id, u: User): (d: Doc)
    ensures "_id" in d && d["_id"] == JStr(IdString(id))
    ensures "password" in d && d["password"] == JStr(u.password)
    ensures "email" in d && d["email"] == JStr(u.email)
  {
    map[
      "_id" := JStr(IdString(id)),
      "__v" := JNum(0.0),
      "email" := JStr(u.email),
      "password" := JStr(u.password),
      "firstName" := JStr(u.firstName),
      "lastName" := JStr(u.lastName),
      "role" := JStr(RoleName(u.role)),
      "profile" := ProfileJson(u.profile),
      "isActive" := JBool(u.isActive),
      "createdAt" := JNum(u.createdAt as real),
      "updatedAt" := JNum(u.updatedAt as real)]
  }

  /** The keys `toJSON` never lets out. */
  const Withheld: set<string> := {"_id", "__v", "password"}

  /** `out` is what the `toJSON` transform makes of `ret`: the same members
      except `_id`, `__v` and `password`, plus `id` holding the string form
      of `_id`. */
  predicate IsTransformOf(out: Doc, ret: Doc)
    requires "_id" in ret
  {
    && out.Keys == ret.Keys - Withheld + {"id"}
    && "id" in out && out["id"] == ret["_id"]
    && forall k :: k in out && k != "id" ==> k in ret && out[k] == ret[k]
  }

  /** The schema's `toJSON` transform. */
  method ToJsonTransform(ret: Doc) returns (out: Doc)
    requires "_id" in ret && ret["_id"].JStr?
    ensures IsTransformOf(out, ret)
  {
    out := ret;
    out := out["id" := ret["_id"]];
    out := out - {"_id"};
    out := out - {"__v"};
    out := out - {"password"};
  }

  /** `out` is the user sent after `select` dropped the `hidden` members. */
  predicate IsView(out: Doc, id: Id, u: User, hidden: set<string>) {
    "_id" !in hidden && IsTransformOf(out, UserDocument(id, u) - hidden)
  }

  /** `findById(id).select(...)` sent through `res.json`. */
  method RenderUser(id: Id, u: User, hidden: set<string>) returns (out: Doc)
    requires "_id" !in hidden
    ensures IsView(out, id, u, hidden)
  {
    out := ToJsonTransform(UserDocument(id, u) - hidden);
  }

  /** `res.json` of an array of users, each through the transform. */
  method RenderUsers(users: seq<User>, ids: seq<Id>, hidden: set<string>) returns (docs: seq<Doc>)
    requires "_id" !in hidden
    requires forall k :: 0 <= k < |ids| ==> ids[k] < |users|
    ensures |docs| == |ids|
    ensures forall k :: 0 <= k < |ids| ==> IsView(docs[k], ids[k], users[ids[k]], hidden)
  {
    docs := [];
    for k := 0 to |ids|
      invariant |docs| == k
      invariant forall m :: 0 <= m < k ==> IsView(docs[m], ids[m], users[ids[m]], hidden)
    {
      var d := RenderUser(ids[k], users[ids[k]], hidden);
      docs := docs + [d];
    }
  }

  /** A sent user never carries the password, carries its identifier's string
      form as `id`, and otherwise carries exactly the stored members that were
      not deselected. */
  lemma ViewContents(out: Doc, id: Id, u: User, hidden: set<string>)
    requires IsView(out, id, u, hidden)
    ensures "password" !in out && "_id" !in out && "__v" !in out
    ensures out["id"] == JStr(IdString(id))
    ensures "email" in out <==> "email" !in hidden
    ensures "email" in out ==> out["email"] == JStr(u.email)
    ensures forall k :: k in UserDocument(id, u) && k !in Withheld && k !in hidden ==> k in out && out[k] == UserDocument(id, u)[k]
  {
  }

  /** The `user` object the register and login routes send: identifier,
      email, names, role and profile. */
  function AccountSummary(id: Id, u: User): (d: Doc)
    ensures "password" !in d
    ensures "id" in d && d["id"] == JStr(IdString(id))
  {
    map[
      "id" := JStr(IdString(id)),
      "email" := JStr(u.email),
      "firstName" := JStr(u.firstName),
      "lastName" := JStr(u.lastName),
      "role" := JStr(RoleName(u.role)),
      "profile" := ProfileJson(u.profile)]
  }

  /** No two users share an email (the schema's `unique: true`). */
  predicate UniqueEmails(users: seq<User>) {
    forall i, j :: 0 <= i < j < |users| ==> users[i].email != users[j].email
  }

  /** `findOne({email})`: the user with that email, if any. */
  function FindByEmail(users: seq<User>, email: string): (r: Option<Id>)
    ensures r.Some? ==> r.value < |users| && users[r.value].email == email
    ensures r.None? ==> forall i :: 0 <= i < |users| ==> users[i].email != email
  {
    if users == [] then None
    else if users[0].email == email then Some(0)
    else
      match FindByEmail(users[1..], email)
      case None => None
      case Some(i) => Some(i + 1)
  }

  /** Every stored user passed the schema, and emails are unique. */
  predicate ValidUsers(users: seq<User>) {
    UniqueEmails(users) && forall i {:trigger WellFormed(users[i])} :: 0 <= i < |users| ==> WellFormed(users[i])
  }

  /** Adding a well-formed user whose email is not taken keeps the
      collection valid. */
  lemma AppendKeepsValid(users: seq<User>, u: User)
    requires ValidUsers(users) && FindByEmail(users, u.email).None? && WellFormed(u)
    ensures ValidUsers(users + [u])
  {
    AppendKeepsUnique(users, u);
    AllAppend(users, u, WellFormed);
  }

  lemma AppendKeepsUnique(users: seq<User>, u: User)
    requires UniqueEmails(users) && FindByEmail(users, u.email).None?
    ensures UniqueEmails(users + [u])
  {
  }

  /** The schema and the setters look only at the email, the password and
      the names. */
  lemma WellFormedByAccount(a: User, b: User)
    requires WellFormed(a)
    requires b.email == a.email && b.password == a.password
    requires b.firstName == a.firstName && b.lastName == a.lastName
    ensures WellFormed(b)
  {
  }

  /** Replacing a user by one with the same email, password and names (a
      profile or role change) keeps the collection valid. */
  lemma SameAccountKeepsValid(users: seq<User>, k: nat, u: User)
    requires ValidUsers(users) && k < |users|
    requires u.email == users[k].email && u.password == users[k].password
    requires u.firstName == users[k].firstName && u.lastName == users[k].lastName
    ensures ValidUsers(users[k := u])
  {
    WellFormedByAccount(users[k], u);
    AllUpdate(users, k, u, users[k := u], WellFormed);
    UpdateKeepsUnique(users, k, u);
  }

  lemma UpdateKeepsUnique(users: seq<User>, k: nat, u: User)
    requires UniqueEmails(users) && k < |users| && u.email == users[k].email
    ensures UniqueEmails(users[k := u])
  {
    var ys := users[k := u];
    forall i, j | 0 <= i < j < |ys|
      ensures ys[i].email != ys[j].email
    {
      assert ys[i].email == users[i].email;
      assert ys[j].email == users[j].email;
    }
  }

  /** The users collection. */
  class UserStore {
    var users: seq<User>

    predicate Valid()
      reads this
    {
      ValidUsers(users)
    }

    constructor ()
      ensures users == [] && Valid()
    {
      users := [];
    }

    /** `findByIdAndUpdate` of members other than the account's email,
        password and names: user `k` becomes `u`, and no other user changes. */
    method Replace(k: Id, u: User)
      requires Valid() && k < |users|
      requires u.email == users[k].email && u.password == users[k].password
      requires u.firstName == users[k].firstName && u.lastName == users[k].lastName
      modifies this
      ensures Valid() && users == old(users)[k := u]
    {
      SameAccountKeepsValid(users, k, u);
      users := users[k := u];
    }
  }
}
