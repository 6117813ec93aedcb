# Mentor-match backend in Dafny

A model of the Express/Mongoose backend of a mentorship platform. Mentees and
mentors register and log in with a JSON Web Token. They keep profiles, browse
users, send and answer mentorship requests, book sessions and leave feedback.
Administrators list users and change roles. The model covers:

- the authentication gate and the role gates (`AuthMiddleware`), and the auth
  routes: register, login, logout, `/me` (`AuthRoutes`);
- the User record: its schema setters and validators, and the JSON transform
  that withholds `_id`, `__v` and `password` (`UserModel`);
- the user routes: the caller's record, the profile replacement, the public
  view, and the filtered newest-first paginated listing (`UsersRoutes`, `Query`);
- the administrator routes (`AdminRoutes`);
- the MentorshipRequest record and the rule its routes keep: at most one
  pending or accepted request per mentee and mentor (`RequestModel`), and the
  request routes (`MentorshipRoutes`);
- the Session record and the session routes (`SessionModel`, `SessionsRoutes`);
- the standalone validators and the sanitiser (`Validation`), and the cookie
  reader (`Cookie`).

Collections are classes holding a `seq` of records. A document's identifier
is its position in the collection; no route deletes a document. Route
handlers that write are methods that `modify` the store. They keep its
validity predicate: the schema holds of every record, emails are unique, and
at most one request per pair is active. Each handler states its reply and
the new collection for every branch, in the source's order of checks.

The clock is a parameter `now`, in milliseconds. The server secret is a
parameter. Hashing and signing are replaced by concrete stand-ins with the
properties the routes rely on:
- `Crypto.Hash` is injective and never returns the password itself;
- a signed token verifies under its own secret only, returns exactly its
  claims, and expires seven days after issue, counted in whole seconds.

Where the text of the code and a literal reading differ, the model follows
what the code does:

- Register and login look the email up after lower-casing and trimming it.
  Mongoose applies the schema's `lowercase` and `trim` setters to query
  filters, so `findOne({ email })` matches regardless of case and of
  surrounding blanks.
- The schema's minimum password length applies to the stored bcrypt hash,
  not to the password the user typed. A one-character password therefore
  registers.
- `GET /requests/:id` compares populated documents. See "## Findings".

## Model

| member | source | states |
|---|---|---|
| Decimal.ParamId | src/routes/users.ts:71 | a path parameter names a document exactly when it is a non-empty string of digits; anything else is a cast error |
| Decimal.IdString | src/models/User.ts:94 | the text of an identifier parses back to that identifier |
| Decimal.ParseRendering | src/models/User.ts:94 | rendering an identifier as text and parsing it gives it back |
| Crypto.Hash | src/routes/auth.ts:33-35 | the stored hash is longer than, and different from, the password |
| Crypto.CompareHash | src/routes/auth.ts:118-123 | comparing against a password's hash succeeds for that password and for no other |
| Crypto.Secret | src/middleware/auth.ts:29-32 | the secret is never empty, and it is the configured one whenever that is set |
| Crypto.VerifySigned | src/routes/auth.ts:59-67 | a token signed with a secret verifies under that secret to exactly its claims until seven days after issue, and not from then on |
| Crypto.VerifyOtherSecret | src/middleware/auth.ts:29-32 | a token signed with one secret never verifies under another |
| Crypto.VerifyUniqueSecret | src/middleware/auth.ts:29-32 | any token, whoever made it, verifies under at most one secret |
| Crypto.SignedTokenExpires | src/routes/auth.ts:66 | from seven days after issue, a token no longer verifies |
| AuthMiddleware.BearerToken | src/middleware/auth.ts:19-22 | there is a token exactly when the header starts with "Bearer ", and the token is the rest of the header |
| AuthMiddleware.BearerRoundTrip | src/middleware/auth.ts:20-21 | "Bearer " followed by a token yields that token |
| AuthMiddleware.Authenticate | src/middleware/auth.ts:17-40 | a missing or empty token gets 401 "No token provided"; a token that fails verification gets 401 "Invalid token"; a verified token admits its claims unchanged |
| AuthMiddleware.AuthenticateSigned | src/middleware/auth.ts:29-35 | a token signed with the server secret is admitted with its claims until it expires, and refused with 401 "Invalid token" after |
| AuthMiddleware.Authorize | src/middleware/auth.ts:17-40 | on admission the request carries the claims and `next` runs; otherwise a 401 reply and the request is unchanged |
| AuthMiddleware.RequireRole | src/middleware/auth.ts:43-57 | no user gets 401; the request passes exactly when the user's role is listed, and otherwise gets 403 "Insufficient permissions" |
| AuthMiddleware.RoleGates | src/middleware/auth.ts:59-63 | each named gate passes exactly the roles it lists |
| AuthMiddleware.AdminGate | src/routes/admin.ts:8 | the two gates together admit exactly the verified claims whose role is admin; an authentication refusal passes through, and any other role gets 403 |
| AuthRoutes.TokenClaims | src/routes/auth.ts:59-67 | a token carries the user's id, email and role name |
| AuthRoutes.RegistrationRecord | src/routes/auth.ts:33-56 | the saved user exists exactly when the role (default mentee) is valid and the schema accepts the record; its email is normalised, its password hashed, its profile empty, and it is active |
| AuthRoutes.Register | src/routes/auth.ts:14-96 | missing fields give 400; a taken email gives 400; a record the schema rejects gives 500; otherwise the user is appended and the reply is 201 with the summary and a token cookie for the new id |
| AuthRoutes.Login | src/routes/auth.ts:99-167 | missing fields give 400; an unknown email and a wrong password both give 401 "Invalid email or password"; otherwise 200 with the summary and a token cookie; nothing is stored |
| AuthRoutes.RegisteredUserCanLogIn | src/routes/auth.ts:27-123 | after a registration, login with the same email (any case, any surrounding blanks) finds the new user, and the password checks against exactly the registered one |
| AuthRoutes.FindAfterAppend | src/routes/auth.ts:112 | the lookup finds a newly appended user whose email was free |
| AuthRoutes.IssuedTokenAdmits | src/routes/auth.ts:126-134 | a token issued at login is admitted by the gate, with the user's id, email and role, for seven days |
| AuthRoutes.CurrentUser | src/routes/auth.ts:213-219 | 404 when the token's user no longer exists; otherwise 200 with that user's record without the password |
| AuthRoutes.Me | src/routes/auth.ts:196-224 | the gate's 401 replies; 404 for a token whose user is gone; otherwise 200 with the user's record without the password |
| AuthRoutes.Logout | src/routes/auth.ts:190-192 | 200 "Logged out" and the token cookie cleared |
| UserModel.RoleName | src/models/User.ts:66-71 | every role's name is one of the three |
| UserModel.ParseRole | src/models/User.ts:66-71 | a string names a role exactly when it is mentor, mentee or admin, and the role's name is that string |
| UserModel.ParseRoleName | src/models/User.ts:66-71 | parsing a role's name gives that role back |
| UserModel.NormalizeEmail | src/models/User.ts:45-46 | the stored email is the input with its surrounding blanks removed, lower-cased: so it has no surrounding blanks, no upper-case letters and is no longer than the input |
| UserModel.NormalizeEmailIdempotent | src/models/User.ts:45-46 | normalising an email twice is normalising it once |
| UserModel.NewUser | src/models/User.ts:72-90 | a new user has the setters applied, the empty profile, is active, and has both timestamps at creation |
| UserModel.UserDocument | src/models/User.ts:15-26 | the stored document carries the identifier, the password and the email |
| UserModel.ToJsonTransform | src/models/User.ts:91-99 | the output is the document with `id` set to the text of `_id` and `_id`, `__v` and `password` removed |
| UserModel.RenderUser | src/models/User.ts:91-99 | the reply is a view of the user with the selected fields withheld |
| UserModel.RenderUsers | src/routes/admin.ts:10 | each reply entry is the view of the user with the matching identifier |
| UserModel.ViewContents | src/models/User.ts:91-99 | a view never holds the password, `_id` or `__v`; it holds `id`, and the email exactly when it is not withheld; every other field is the stored one |
| UserModel.AccountSummary | src/routes/auth.ts:79-86 | the summary has the id and no password |
| UserModel.FindByEmail | src/routes/auth.ts:27 | the lookup finds a user with that email, or there is none |
| UserModel.AppendKeepsValid | src/models/User.ts:40-48 | appending a well-formed user whose email is free keeps every record well formed and emails unique |
| UserModel.AppendKeepsUnique | src/models/User.ts:44 | appending a user with a free email keeps emails unique |
| UserModel.UserStore.Replace | src/routes/users.ts:36-51 | the update keeps the collection valid, and only the one user changes, to the given record |
| UserModel.SameAccountKeepsValid | src/routes/users.ts:36-51 | replacing a user by one with the same email, password and names keeps the collection valid |
| UsersRoutes.GetMe | src/routes/users.ts:8-20 | 404 for a missing user, else 200 with the caller's view without the password |
| UsersRoutes.ReplacementProfile | src/routes/users.ts:36-48 | each of the eight profile fields is the supplied value, or empty when it is falsy |
| UsersRoutes.ReplacementNotPatch | src/routes/users.ts:39-48 | an empty body resets the profile to the initial one, and a full body sets exactly the supplied profile |
| UsersRoutes.UpdateProfile | src/routes/users.ts:23-66 | 404 for a missing caller; otherwise only the caller's profile and `updatedAt` change, and the reply is 200 with the new view |
| UsersRoutes.GetUser | src/routes/users.ts:69-81 | a malformed id gives 500; an unknown id gives 404; otherwise 200 with a view holding neither password nor email |
| UsersRoutes.Matching | src/routes/users.ts:88-93 | the listing selects exactly the users with the given role and at least one of the given skills, in insertion order |
| UsersRoutes.OrderedMatches | src/routes/users.ts:97-101 | the selected users, each once, newest first |
| UsersRoutes.ListingIds | src/routes/users.ts:95-101 | the page is the window of the newest-first matches after `(page-1)*limit`, at most `limit` long |
| UsersRoutes.ListUsers | src/routes/users.ts:84-118 | 200 with the page's views (no password, no email) and pagination (page, limit, total matches, ceil(total/limit)) |
| UsersRoutes.EveryMatchListed | src/routes/users.ts:95-111 | every selected user appears on some page numbered from 1 to the page count |
| UsersRoutes.PaginationExample | src/routes/users.ts:95-111 | fifteen matches at ten per page make two pages, the second holding five |
| Query.Where | src/routes/users.ts:97 | a find returns the identifiers of exactly the matching documents, ascending |
| Query.InsertDescSorted | src/routes/users.ts:101 | inserting into a list sorted by descending key keeps it sorted, and the new first entry is the inserted one or the old first one |
| Query.SortDesc | src/routes/users.ts:101 | sorting keeps the same identifiers and orders them by descending key |
| Query.NewestFirstWhere | src/routes/mentorship.ts:60-62 | exactly the matching documents, each once, by descending key |
| Query.Page | src/routes/users.ts:99-100 | skip and limit give the window starting at `skip`, as long as `limit` or as what is left |
| Query.PageCount | src/routes/users.ts:111 | the page count is the least number of pages of `limit` entries that hold all of them |
| Query.PagedPosition | src/routes/users.ts:95-111 | every entry of a list falls on a page no greater than the page count |
| AdminRoutes.ListAllUsers | src/routes/admin.ts:8-16 | a gate refusal passes through; otherwise 200 with every user's view without the password, in order |
| AdminRoutes.SetRole | src/routes/admin.ts:19-42 | after the gates, an invalid role gives 400 before any lookup, a malformed id 500, an unknown id 404; otherwise only that user's role and `updatedAt` change, with 200 "Role updated" |
| AdminRoutes.ApplyRole | src/routes/admin.ts:27-31 | the update sets the role of one existing user and returns its view |
| AdminRoutes.OnlyAdminsPass | src/middleware/auth.ts:59-62 | an unexpired token signed with the server secret passes the administrator gates exactly when its role is admin, and gets 403 "Insufficient permissions" otherwise |
| RequestModel.ParseResponse | src/routes/mentorship.ts:90-95 | a response status is accepted exactly for "accepted" and "rejected" |
| RequestModel.TrimAll | src/models/mentorshipRequest.ts:30-34 | each goal is trimmed |
| RequestModel.NewRequest | src/models/mentorshipRequest.ts:24-43 | a new request saves exactly when the trimmed message is non-empty and at most 500 long and every trimmed goal at most 100; it is pending, with no response time |
| RequestModel.FindActive | src/routes/mentorship.ts:19-23 | the duplicate check finds a pending or accepted request for the pair, or there is none |
| RequestModel.AppendKeepsValid | src/routes/mentorship.ts:19-40 | appending a well-formed request for a pair with no active request keeps the collection valid |
| RequestModel.AppendKeepsOneActive | src/routes/mentorship.ts:19-30 | the duplicate check is what keeps at most one active request per pair |
| RequestModel.Answer | src/routes/mentorship.ts:115-121 | answering sets the status and the response time and changes nothing else |
| RequestModel.AnswerKeepsValid | src/routes/mentorship.ts:110-121 | answering a pending request keeps the collection valid |
| RequestModel.AnswerKeepsOneActive | src/routes/mentorship.ts:115-121 | an answer never creates a second active request for a pair |
| RequestModel.EvolvesTransitive | src/routes/mentorship.ts:86-133 | requests are only added or answered while pending, and two such changes in a row are one |
| RequestModel.DecidedIsFinal | src/routes/mentorship.ts:110-113 | an accepted or rejected request never changes again |
| RequestModel.InsertWithoutCheckBreaksRule | src/routes/mentorship.ts:19-30 | the index (src/models/mentorshipRequest.ts:49-50) is not unique, so an active request appended for a pair that already has one, without the route's duplicate check, breaks the rule |
| MentorshipRoutes.Create | src/routes/mentorship.ts:8-55 | missing fields give 400; a malformed mentor id gives 500; an active request for the pair gives 400; a message or goal the schema rejects gives 500; otherwise the request is appended with 201 |
| MentorshipRoutes.RequestAgainAfterRejection | src/routes/mentorship.ts:19-30 | a pending request blocks its pair, and once it is rejected the pair may ask again |
| MentorshipRoutes.SentIds | src/routes/mentorship.ts:60-62 | exactly the caller's sent requests, each once, newest first |
| MentorshipRoutes.ReceivedIds | src/routes/mentorship.ts:74-76 | exactly the caller's received requests, each once, newest first |
| MentorshipRoutes.Sent | src/routes/mentorship.ts:58-69 | 200 with the sent requests in that order |
| MentorshipRoutes.Received | src/routes/mentorship.ts:72-83 | 200 with the received requests in that order |
| MentorshipRoutes.Respond | src/routes/mentorship.ts:86-133 | checked in order: a bad status gives 400, a malformed id 500, an unknown id 404, a caller who is not the mentor 403, and an answered request 400; otherwise only that request is answered, with 200 |
| MentorshipRoutes.GetRequest | src/routes/mentorship.ts:136-160 | a malformed id gives 500; an unknown id gives 404; a caller who is neither mentee nor mentor gets 403; otherwise 200 with the request |
| MentorshipRoutes.AccessAsWritten | src/routes/mentorship.ts:147-153 | the check as written throws when a populated party is missing, and grants only a caller whose id equals a field's text |
| MentorshipRoutes.IdStringIsNotInspection | src/routes/mentorship.ts:147-150 | an identifier's text never looks like a populated document's text |
| MentorshipRoutes.AsWrittenDeniesParticipants | src/routes/mentorship.ts:147-153 | as written, the check grants nobody access to a request with populated parties |
| MentorshipRoutes.AsWrittenCounterexample | src/routes/mentorship.ts:147-153 | the mentee of a request is a participant, yet the check as written denies them |
| SessionModel.NewSession | src/models/Session.ts:15-24 | a new session is scheduled, without feedback, with the given parties, time and duration |
| SessionModel.WithFeedback | src/routes/sessions.ts:63-65 | the save succeeds exactly when a present rating is within 1 to 5; then feedback is the given rating and comment, the status is completed, and nothing else changes |
| SessionModel.FeedbackOverwrites | src/routes/sessions.ts:63-65 | a second submission leaves what the second alone would |
| SessionModel.StoredRatingInRange | src/models/Session.ts:25-28 | every stored rating lies between 1 and 5 |
| SessionsRoutes.BookedDuration | src/routes/sessions.ts:18 | a missing or zero duration books 30 minutes; any other number, fractional or not, is kept; the schema's 60 only appears when supplied |
| SessionsRoutes.Schedule | src/routes/sessions.ts:7-26 | missing fields give 400; a malformed mentor id or date gives 500; otherwise the caller's session is appended as scheduled with 201 |
| SessionsRoutes.MenteeSessions | src/routes/sessions.ts:28-37 | exactly the caller's sessions as mentee, each once, in booking order |
| SessionsRoutes.MentorSessions | src/routes/sessions.ts:39-48 | exactly the caller's sessions as mentor, each once, in booking order |
| SessionsRoutes.SubmitFeedback | src/routes/sessions.ts:50-72 | a malformed id gives 500; an unknown id gives 404; anyone but the mentee gets 403; a rating out of range gives 500 and no change; otherwise only that session changes, with 200 |
| Validation.EmailShapeIff | src/middleware/validation.ts:3-6 | the email pattern holds exactly when there is no whitespace, a single '@' that is not first, and a '.' after it that is neither adjacent to it nor last |
| Validation.SchemaEmailIsValidEmail | src/middleware/validation.ts:3-6 | every email the User schema's pattern accepts passes the validator |
| Validation.ValidEmailNotInSchema | src/models/User.ts:47 | the validator accepts "a@b.c", which the schema's pattern rejects |
| Validation.HexRunIff | src/middleware/validation.ts:8-10 | matching n hexadecimal digits is having length n and only hexadecimal digits |
| Validation.MongoIdIsHexRun | src/middleware/validation.ts:8-10 | an id is valid exactly when it is 24 hexadecimal digits |
| Validation.FailedContents | src/middleware/validation.ts:39-47 | the error list is empty exactly when no check fails, holds every failing check's error, and holds nothing else |
| Validation.Verdict | src/middleware/validation.ts:39-47 | a validator calls `next` exactly when there are no errors, and otherwise answers 400 "Validation failed" with them |
| Validation.ValidateProfile | src/middleware/validation.ts:12-48 | the errors of the five profile checks, in check order |
| Validation.ValidateMentorshipRequest | src/middleware/validation.ts:50-80 | the errors of the four request checks, in check order |
| Validation.LongLengthMember | src/middleware/validation.ts:63-64 | a message that is an object whose `length` member is above 500 gets the too-long error as well as the mentor-id and not-a-string errors |
| Validation.BlankLongMessage | src/middleware/validation.ts:59-65 | a 501-space message gets both message errors, the short one first |
| Validation.ValidateRegistration | src/middleware/validation.ts:82-116 | a truthy name that is not a string throws (500); otherwise the errors of the five registration checks, in order |
| Validation.RegistrationPasses | src/middleware/validation.ts:86-105 | a registration passes exactly when the email is valid, the password is not short, both names trim to two or more characters, and any role is one of the three. "Not short" means no `length` below six, and for an object that is its own `length` member |
| Validation.ShortLengthMember | src/middleware/validation.ts:90-91 | a password that is an object gets the password error exactly when its `length` member is below six |
| Validation.Sanitized | src/middleware/validation.ts:120-122 | a string member becomes its script-stripped, trimmed text; other members stay as they are |
| Validation.SanitizeInput | src/middleware/validation.ts:119-132 | every top-level member is replaced by its sanitised value, the members stay the same, and the request passes on |
| Validation.SanitizeStable | src/middleware/validation.ts:120-128 | sanitising again changes nothing when stripping removes nothing more |
| Cookie.SegmentParts | src/utils/cookieUtils.ts:5-7 | after trimming a segment, its name is the text before the first '=' and its value the text after it; with no '=' the whole segment is the name and the value is empty |
| Cookie.GetCookie | src/utils/cookieUtils.ts:1-11 | the loop returns what the first-match lookup specifies, and null for a missing or empty header |
| Cookie.FirstMatchWins | src/utils/cookieUtils.ts:4-7 | the first segment with the name decides the value |
| Cookie.NoMatch | src/utils/cookieUtils.ts:10 | with no segment of that name the result is null |
| Cookie.MatchHasSource | src/utils/cookieUtils.ts:4-10 | a value always comes from a segment of that name |
| Cookie.CookieRoundTrip | src/utils/cookieUtils.ts:1-11 | `name=value` at the head of a header reads back as `value` |
| Cookie.LaterEqualsKept | src/utils/cookieUtils.ts:7 | looking up "a" in "a=b=c" gives "b=c" |
| Cookie.BareNameIsEmpty | src/utils/cookieUtils.ts:4-7 | a blank followed by just the name, after a segment of another name, gives the empty value |

## Left out

- The `/test` route of the auth router: it only answers a fixed message.
- Login's second reply (src/routes/auth.ts:170-181): it is sent after the first and fails. The model keeps the first reply.
- Database failures, concurrency between requests, and the `populate` projections of the request and session replies: replies carry the stored records.
- `Crypto.Hash`, `Crypto.Sign`, `Crypto.Verify`: concrete stand-ins for bcrypt and HMAC-SHA256 JWTs. The model keeps the properties the routes use, not the algorithms; bcrypt's 72-byte truncation is not modelled.
- Crypto.Verify: does not promise that an admitted token came from `Sign`. Like `jwt.verify`, it admits any well-formed token whose signature matches its payload under the secret, and the stand-in signature is not a keyed hash that only the secret's holder can compute. What is proved is that the server's own tokens verify to their claims until they expire (`Crypto.VerifySigned`), and that any token verifies under at most one secret (`Crypto.VerifyUniqueSecret`).
- Identifiers are decimal positions, not 24-hex-digit ObjectIds. A parameter that is not one is a cast error, as in the source.
- `Text.ToLower`: lower-cases ASCII letters only; the source's `toLowerCase` covers all of Unicode.
- Lengths count characters, not UTF-16 code units.
- The URL pattern and the script-tag pattern of the validators are parameters (`isUrl`, `strip`) and are not encoded.
- The date conversion of `scheduledAt` is a parameter `parseDate`.
- JSON values of the wrong type are not coerced: route bodies are strings or string lists where the handlers read them.
- Validation.ValidateMentorshipRequest: a non-string mentorId counts as invalid. The source tests the value's text, so a one-element array holding a valid id passes there.
- Validation.ValidateRegistration: a non-string email counts as invalid, on the same grounds.
- Validation.ValidateMentorshipRequest: when the message is an object, its `length` member is read as a number only when it is a number, `null` or a boolean. A string, array or object there counts as having no length, where JavaScript would convert it, so that `"600"` would count as 600.
- Validation.ValidateRegistration: the same holds for a password that is an object.
- Validation.RegistrationPasses: the same holds for the password it judges.
- Validation.ValidateProfile: a non-string URL counts as malformed, on the same grounds.
- UsersRoutes.ListUsers: `page` and `limit` are taken as positive whole numbers. The source's `Number()` conversion of other query text (NaN, zero, fractions) is not modelled.
- UsersRoutes.MatchesFilter: an empty `skills` query means no skill filter.
- SessionModel.WithFeedback: ratings are whole numbers; fractional ratings are not modelled.
- The sessions' `createdAt`/`updatedAt` timestamps are not modelled: no route reads them.
- The authentication gate reads only the `Authorization` header. The `token` cookie set at login is never read by it, and the model follows the code.
- The request and session routes do not check that the mentor exists or is a mentor, or that it differs from the caller; the model follows them.

## Findings

| source | as written | input that shows it | evidently intended | confidence | as-written member | corrected member |
|---|---|---|---|---|---|---|
| src/routes/mentorship.ts:147-153 | After `populate`, `menteeId` and `mentorId` are user documents, and their `toString()` is the document's inspection text (it starts with '{'). That text is compared with the caller's id, so it never matches. | User 7 is the mentee of request 0 and asks `GET /requests/0`: the texts are "{ _id: 7, ... }" and "{ _id: 8, ... }", so the reply is 403 "Access denied" (500 if a party's account is gone) | the mentee and the mentor of a request may read it | high, not executed | MentorshipRoutes.AsWrittenDeniesParticipants | MentorshipRoutes.GetRequest |
