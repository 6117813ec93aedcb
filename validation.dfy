/** The request validators (`src/middleware/validation.ts`): the email and
    Mongo-id predicates, three validators that collect errors in a fixed
    order, and the in-place sanitiser. No route mounts them, so each is a
    standalone operation on a request body. */
module Validation {
  import opened Common
  import opened Text
  import opened Json
  import UserModel

  // ---- isValidEmail ----

  /** `[^\s@]`. */
  predicate PlainChar(c: char) {
    c != '@' && !IsWhitespace(c)
  }

  /** The split `L@D.T` at positions `i` ('@') and `j` ('.'), with `L`, `D`
      and `T` non-empty and free of '@' and whitespace; since '.' is plain,
      that is: every character but the '@' at `i` is plain. */
  predicate EmailSplit(s: string, i: int, j: int) {
    && 0 < i && i + 1 < j < |s| - 1 && s[i] == '@' && s[j] == '.'
    && forall k :: 0 <= k < |s| && k != i ==> PlainChar(s[k])
  }

  /** `/^[^\s@]+@[^\s@]+\.[^\s@]+$/`: the address splits as `L@D.T` (the
      parts may hold dots). */
  predicate IsValidEmail(s: string) {
    exists i, j :: 0 < i < |s| && 0 < j < |s| && EmailSplit(s, i, j)
  }

  /** The same test read off the string with `indexOf`: no whitespace, an
      '@' that is not first and is the only one, and a '.' after it that is
      neither right after it nor last. */
  predicate EmailShape(s: string) {
    && (forall k :: 0 <= k < |s| ==> !IsWhitespace(s[k]))
    && match IndexOf(s, '@')
       case None => false
       case Some(i) =>
         && i > 0 && (forall k :: i < k < |s| ==> s[k] != '@')
         && exists j :: i + 1 < j < |s| - 1 && s[j] == '.'
  }

  lemma EmailShapeIff(s: string)
    ensures IsValidEmail(s) <==> EmailShape(s)
  {
    if IsValidEmail(s) {
      var i, j :| 0 < i < |s| && 0 < j < |s| && EmailSplit(s, i, j);
      var r := IndexOf(s, '@');
      assert r.Some? by {
        assert s[i] in s;
      }
    }
    if EmailShape(s) {
      var i := IndexOf(s, '@').value;
      var j :| i + 1 < j < |s| - 1 && s[j] == '.';
      forall k | 0 <= k < i
        ensures s[k] != '@'
      {
        assert s[k] == s[..i][k];
      }
      assert EmailSplit(s, i, j);
    }
  }

  /** The validator is looser than the schema: every address the User
      schema's pattern accepts passes `isValidEmail`, but not conversely. */
  lemma SchemaEmailIsValidEmail(e: string)
    requires UserModel.MatchesEmailPattern(e)
    ensures IsValidEmail(e)
  {
    var i := IndexOf(e, '@').value;
    var local, d := e[..i], e[i + 1..];
    DottedIsPlain(local);
    var j := DomainIsPlain(d);
    forall k | 0 <= k < |e| && k != i
      ensures PlainChar(e[k])
    {
      if k < i {
        assert e[k] == local[k];
      } else {
        assert e[k] == d[k - i - 1];
      }
    }
    assert EmailSplit(e, i, i + 1 + j);
  }

  /** A dotted name is non-empty and holds only plain characters. */
  lemma DottedIsPlain(s: string)
    requires UserModel.IsDotted(s)
    ensures s != [] && forall k :: 0 <= k < |s| ==> PlainChar(s[k])
  {
  }

  /** An email domain holds only plain characters and has a '.' that is
      neither first nor among the last two. */
  lemma DomainIsPlain(d: string) returns (j: nat)
    requires UserModel.IsEmailDomain(d)
    ensures 0 < j && j + 2 < |d| && d[j] == '.'
    ensures forall k :: 0 <= k < |d| ==> PlainChar(d[k])
  {
    j := LastIndexOf(d, '.').value;
    var name := d[..j];
    DottedIsPlain(name);
    forall k | 0 <= k < |d|
      ensures PlainChar(d[k])
    {
      if k < j {
        assert d[k] == name[k];
      }
    }
  }

  lemma ValidEmailNotInSchema()
    ensures IsValidEmail("a@b.c") && !UserModel.MatchesEmailPattern("a@b.c")
  {
    var e := "a@b.c";
    assert EmailSplit(e, 1, 3);
    assert IndexOf(e, '@') == Some(1);
    assert e[2..] == "b.c";
    assert LastIndexOf(e[2..], '.') == Some(1);
  }

  // ---- isValidMongoId ----

  predicate IsHexDigit(c: char) {
    ('0' <= c <= '9') || ('a' <= c <= 'f') || ('A' <= c <= 'F')
  }

  /** `/^[a-fA-F0-9]{24}$/`: exactly 24 characters, all hexadecimal digits. */
  predicate IsValidMongoId(s: string) {
    |s| == 24 && forall k :: 0 <= k < |s| ==> IsHexDigit(s[k])
  }

  /** The pattern read as a matcher: `n` hexadecimal digits, then the end. */
  predicate HexRun(s: string, n: nat)
    decreases n
  {
    if n == 0 then s == [] else s != [] && IsHexDigit(s[0]) && HexRun(s[1..], n - 1)
  }

  lemma {:induction false} HexRunIff(s: string, n: nat)
    ensures HexRun(s, n) <==> |s| == n && forall k :: 0 <= k < |s| ==> IsHexDigit(s[k])
    decreases n
  {
    if n > 0 && s != [] {
      HexRunIff(s[1..], n - 1);
      assert forall k :: 1 <= k < |s| ==> s[k] == s[1..][k - 1];
    }
  }

  lemma MongoIdIsHexRun(s: string)
    ensures IsValidMongoId(s) <==> HexRun(s, 24)
  {
    HexRunIff(s, 24);
  }

  // ---- Error lists ----

  /** One test of a validator: whether it fails, and the error it pushes. */
  datatype Check = Check(fails: bool, message: string)

  /** The errors the failing checks push, in check order. */
  function Failed(checks: seq<Check>): seq<string> {
    if checks == [] then []
    else
      var last := checks[|checks| - 1];
      Failed(checks[..|checks| - 1]) + Pushed(last)
  }

  function Pushed(c: Check): seq<string> {
    if c.fails then [c.message] else []
  }

  /** `if (fails) errors.push(message)`. */
  method PushIf(errors: seq<string>, fails: bool, message: string) returns (r: seq<string>)
    ensures r == errors + Pushed(Check(fails, message))
  {
    r := errors;
    if fails {
      r := r + [message];
    }
  }

  /** The list is empty exactly when no check fails, holds the error of
      every failing check, and holds nothing else. */
  lemma {:induction false} FailedContents(checks: seq<Check>)
    ensures |Failed(checks)| <= |checks|
    ensures Failed(checks) == [] <==> forall i :: 0 <= i < |checks| ==> !checks[i].fails
    ensures forall i :: 0 <= i < |checks| && checks[i].fails ==> checks[i].message in Failed(checks)
    ensures forall m :: m in Failed(checks) ==> exists i :: 0 <= i < |checks| && checks[i].fails && checks[i].message == m
  {
    if checks != [] {
      var front := checks[..|checks| - 1];
      FailedContents(front);
      assert forall i :: 0 <= i < |front| ==> front[i] == checks[i];
    }
  }

  /** One more check: its error, if it fails, goes after the others. */
  lemma FailedSnoc(checks: seq<Check>, n: nat)
    requires n < |checks|
    ensures Failed(checks[..n + 1]) == Failed(checks[..n]) + Pushed(checks[n])
  {
    assert checks[..n + 1][..n] == checks[..n];
  }

  /** What a validator does with the request: pass it on with `next()`, or
      answer it. */
  datatype Outcome = Proceed | Stop(status: nat, message: string, errors: seq<string>)

  /** 400 with the errors when there are any, `next()` otherwise. */
  function Verdict(errors: seq<string>): (o: Outcome)
    ensures o.Proceed? <==> errors == []
    ensures o.Stop? ==> o == Stop(400, "Validation failed", errors)
  {
    if errors == [] then Proceed else Stop(400, "Validation failed", errors)
  }

  /** A `TypeError` thrown inside a validator reaches the application's
      error handler (`src/app.ts:40-45`). */
  const Thrown: Outcome := Stop(500, "Something went wrong!", [])

  function Member(body: Doc, key: string): Option<Json> {
    if key in body then Some(body[key]) else None
  }

  /** `v && (!Array.isArray(v) || v.some(x => typeof x !== 'string'))`. */
  predicate NotStringList(v: Option<Json>) {
    v.Some? && Truthy(v) && !IsStringArray(v.value)
  }

  /** `v && !urlRegex.test(v)`; `isUrl` stands for the pattern. */
  predicate BadUrl(v: Option<Json>, isUrl: string -> bool) {
    v.Some? && Truthy(v) && !(v.value.JStr? && isUrl(v.value.s))
  }

  // ---- validateProfile ----

  function ProfileChecks(body: Doc, isUrl: string -> bool): (checks: seq<Check>)
    ensures |checks| == 5
  {
    [ Check(NotStringList(Member(body, "skills")), "Skills must be an array of strings"),
      Check(NotStringList(Member(body, "interests")), "Interests must be an array of strings"),
      Check(BadUrl(Member(body, "linkedinUrl"), isUrl), "Invalid LinkedIn URL format"),
      Check(BadUrl(Member(body, "githubUrl"), isUrl), "Invalid GitHub URL format"),
      Check(BadUrl(Member(body, "portfolioUrl"), isUrl), "Invalid Portfolio URL format") ]
  }

  /** `validateProfile`: the errors of the failing checks, in check order. */
  method ValidateProfile(body: Doc, isUrl: string -> bool) returns (outcome: Outcome)
    ensures outcome == Verdict(Failed(ProfileChecks(body, isUrl)))
  {
    var errors := PushIf([], NotStringList(Member(body, "skills")), "Skills must be an array of strings");
    errors := PushIf(errors, NotStringList(Member(body, "interests")), "Interests must be an array of strings");
    errors := PushIf(errors, BadUrl(Member(body, "linkedinUrl"), isUrl), "Invalid LinkedIn URL format");
    errors := PushIf(errors, BadUrl(Member(body, "githubUrl"), isUrl), "Invalid GitHub URL format");
    errors := PushIf(errors, BadUrl(Member(body, "portfolioUrl"), isUrl), "Invalid Portfolio URL format");
    FailedOfFive(ProfileChecks(body, isUrl));
    if |errors| > 0 {
      return Stop(400, "Validation failed", errors);
    }
    return Proceed;
  }

  // ---- validateMentorshipRequest ----

  const MessageTooShort := "Message must be at least 10 characters long"
  const MessageTooLong := "Message cannot exceed 500 characters"

  /** The mentor identifier check reads the text of a string; a value of
      another type is counted as invalid. */
  predicate BadMentorId(v: Option<Json>) {
    !Truthy(v) || !(v.value.JStr? && IsValidMongoId(v.value.s))
  }

  predicate ShortMessage(v: Option<Json>) {
    !Truthy(v) || !v.value.JStr? || |Trim(v.value.s)| < 10
  }

  /** `message && message.length > 500`, on any value with a length,
      including an object with a `length` member. */
  predicate LongMessage(v: Option<Json>) {
    v.Some? && Truthy(v) && LengthOf(v.value).Some? && LengthOf(v.value).value > 500.0
  }

  function MentorshipChecks(body: Doc): (checks: seq<Check>)
    ensures |checks| == 4
  {
    [ Check(BadMentorId(Member(body, "mentorId")), "Valid mentorId is required"),
      Check(ShortMessage(Member(body, "message")), MessageTooShort),
      Check(LongMessage(Member(body, "message")), MessageTooLong),
      Check(NotStringList(Member(body, "goals")), "Goals must be an array of strings") ]
  }

  /** `validateMentorshipRequest`. */
  method ValidateMentorshipRequest(body: Doc) returns (outcome: Outcome)
    ensures outcome == Verdict(Failed(MentorshipChecks(body)))
  {
    var errors := PushIf([], BadMentorId(Member(body, "mentorId")), "Valid mentorId is required");
    errors := PushIf(errors, ShortMessage(Member(body, "message")), MessageTooShort);
    errors := PushIf(errors, LongMessage(Member(body, "message")), MessageTooLong);
    errors := PushIf(errors, NotStringList(Member(body, "goals")), "Goals must be an array of strings");
    FailedOfFour(MentorshipChecks(body));
    if |errors| > 0 {
      return Stop(400, "Validation failed", errors);
    }
    return Proceed;
  }

  /** The two message checks are independent: a long message of nothing but
      spaces fails both, the short-message error first. */
  lemma BlankLongMessage(id: string)
    requires IsValidMongoId(id)
    ensures var body := map["mentorId" := JStr(id), "message" := JStr(seq(501, _ => ' '))];
      Failed(MentorshipChecks(body)) == [MessageTooShort, MessageTooLong]
  {
    var blank: string := seq(501, _ => ' ');
    assert AllWhitespace(blank);
    var body := map["mentorId" := JStr(id), "message" := JStr(blank)];
    FailedOfFour(MentorshipChecks(body));
  }

  /** `.length` reads any object's `length` member: a message that is an
      object whose `length` is above 500 gets the too-long error as well as
      the not-a-string one. */
  lemma LongLengthMember(n: real)
    requires n > 500.0
    ensures var body := map["message" := JObj(map["length" := JNum(n)])];
      Failed(MentorshipChecks(body)) == ["Valid mentorId is required", MessageTooShort, MessageTooLong]
  {
    var body := map["message" := JObj(map["length" := JNum(n)])];
    FailedOfFour(MentorshipChecks(body));
  }

  // ---- validateRegistration ----

  const RoleNames: set<string> := {"mentee", "mentor", "admin"}

  predicate BadEmail(v: Option<Json>) {
    !Truthy(v) || !(v.value.JStr? && IsValidEmail(v.value.s))
  }

  /** `!password || password.length < 6`; a value without a length passes,
      and an object is judged by its `length` member. */
  predicate ShortPassword(v: Option<Json>) {
    !Truthy(v) || (LengthOf(v.value).Some? && LengthOf(v.value).value < 6.0)
  }

  /** `!name || name.trim().length < 2`, for a name that is a string. */
  predicate ShortName(v: Option<Json>) {
    !Truthy(v) || (v.value.JStr? && |Trim(v.value.s)| < 2)
  }

  /** A truthy name that is not a string has no `trim`: the call throws. */
  predicate NameThrows(v: Option<Json>) {
    v.Some? && Truthy(v) && !v.value.JStr?
  }

  predicate BadRole(v: Option<Json>) {
    v.Some? && Truthy(v) && !(v.value.JStr? && v.value.s in RoleNames)
  }

  function RegistrationChecks(body: Doc): (checks: seq<Check>)
    ensures |checks| == 5
  {
    [ Check(BadEmail(Member(body, "email")), "Valid email is required"),
      Check(ShortPassword(Member(body, "password")), "Password must be at least 6 characters long"),
      Check(ShortName(Member(body, "firstName")), "First name must be at least 2 characters long"),
      Check(ShortName(Member(body, "lastName")), "Last name must be at least 2 characters long"),
      Check(BadRole(Member(body, "role")), "Role must be either mentee, mentor, or admin") ]
  }

  /** `validateRegistration`: a name that is truthy but not a string makes
      the validator throw, whatever the other checks found. */
  method ValidateRegistration(body: Doc) returns (outcome: Outcome)
    ensures NameThrows(Member(body, "firstName")) || NameThrows(Member(body, "lastName")) ==> outcome == Thrown
    ensures !NameThrows(Member(body, "firstName")) && !NameThrows(Member(body, "lastName")) ==>
      outcome == Verdict(Failed(RegistrationChecks(body)))
  {
    var errors := PushIf([], BadEmail(Member(body, "email")), "Valid email is required");
    errors := PushIf(errors, ShortPassword(Member(body, "password")), "Password must be at least 6 characters long");
    if NameThrows(Member(body, "firstName")) {
      return Thrown;
    }
    errors := PushIf(errors, ShortName(Member(body, "firstName")), "First name must be at least 2 characters long");
    if NameThrows(Member(body, "lastName")) {
      return Thrown;
    }
    errors := PushIf(errors, ShortName(Member(body, "lastName")), "Last name must be at least 2 characters long");
    errors := PushIf(errors, BadRole(Member(body, "role")), "Role must be either mentee, mentor, or admin");
    FailedOfFive(RegistrationChecks(body));
    if |errors| > 0 {
      return Stop(400, "Validation failed", errors);
    }
    return Proceed;
  }

  /** A registration passes exactly when the email is valid, the password
      has no length below six, both names are strings trimming to at least
      two characters, and the role, if truthy, is one of the three. */
  lemma RegistrationPasses(body: Doc)
    ensures Failed(RegistrationChecks(body)) == [] <==>
      && !BadEmail(Member(body, "email")) && !ShortPassword(Member(body, "password"))
      && !ShortName(Member(body, "firstName")) && !ShortName(Member(body, "lastName"))
      && !BadRole(Member(body, "role"))
  {
    FailedOfFive(RegistrationChecks(body));
  }

  /** A password that is an object is judged by its `length` member: the
      password error is reported exactly when that member is below six. */
  lemma ShortLengthMember(body: Doc, n: real)
    requires Member(body, "password") == Some(JObj(map["length" := JNum(n)]))
    ensures "Password must be at least 6 characters long" in Failed(RegistrationChecks(body)) <==> n < 6.0
  {
    FailedOfFive(RegistrationChecks(body));
  }

  lemma FailedOfFour(cs: seq<Check>)
    requires |cs| == 4
    ensures Failed(cs) == [] + Pushed(cs[0]) + Pushed(cs[1]) + Pushed(cs[2]) + Pushed(cs[3])
  {
    assert cs[..0] == [];
    FailedSnoc(cs, 0);
    FailedSnoc(cs, 1);
    FailedSnoc(cs, 2);
    FailedSnoc(cs, 3);
    assert cs[..4] == cs;
  }

  lemma FailedOfFive(cs: seq<Check>)
    requires |cs| == 5
    ensures Failed(cs) == [] + Pushed(cs[0]) + Pushed(cs[1]) + Pushed(cs[2]) + Pushed(cs[3]) + Pushed(cs[4])
  {
    FailedOfFour(cs[..4]);
    assert cs[..4][..4] == cs[..4];
  }

  // ---- sanitizeInput ----

  /** `req.body`, which the sanitiser rewrites in place. */
  class Body {
    var fields: Doc

    constructor (fields: Doc)
      ensures this.fields == fields
    {
      this.fields := fields;
    }
  }

  /** A string member with script blocks removed (`strip` stands for the
      pattern's replacement) and then trimmed; any other member as it is. */
  function Sanitized(v: Json, strip: string -> string): (w: Json)
    ensures w.JStr? <==> v.JStr?
    ensures v.JStr? ==> w.s == Trim(strip(v.s)) && Trimmed(w.s)
    ensures !v.JStr? ==> w == v
  {
    if v.JStr? then JStr(Trim(strip(v.s))) else v
  }

  /** `sanitizeInput`: rewrites every top-level string member of the body,
      keeps the same members, and always passes the request on. */
  method SanitizeInput(body: Body, strip: string -> string) returns (outcome: Outcome)
    modifies body
    ensures outcome == Proceed
    ensures body.fields.Keys == old(body.fields).Keys
    ensures forall k :: k in body.fields ==> body.fields[k] == Sanitized(old(body.fields)[k], strip)
  {
    ghost var original := body.fields;
    var pending := body.fields.Keys;
    while pending != {}
      invariant pending <= original.Keys && body.fields.Keys == original.Keys
      invariant forall k :: k in pending ==> body.fields[k] == original[k]
      invariant forall k :: k in original && k !in pending ==> body.fields[k] == Sanitized(original[k], strip)
      decreases |pending|
    {
      var k :| k in pending;
      if body.fields[k].JStr? {
        body.fields := body.fields[k := JStr(Trim(strip(body.fields[k].s)))];
      }
      pending := pending - {k};
    }
    outcome := Proceed;
  }

  /** After sanitising, every string member is trimmed, so sanitising again
      with a `strip` that removes nothing further changes nothing. */
  lemma SanitizeStable(v: Json, strip: string -> string)
    requires v.JStr? ==> strip(Trim(strip(v.s))) == Trim(strip(v.s))
    ensures Sanitized(Sanitized(v, strip), strip) == Sanitized(v, strip)
  {
    if v.JStr? {
      TrimIdempotent(strip(v.s));
    }
  }
}
