/** The mentorship request routes (`src/routes/mentorship.ts`). All of them
    run after the authentication gate and receive the claims it admitted;
    `now` is the clock reading of the request. */
module MentorshipRoutes {
  import opened Common
  import opened Decimal
  import opened Http
  import opened Query
  import opened RequestModel
  import Crypto

  /** A request together with its identifier, as a reply carries it. */
  datatype StoredRequest = StoredRequest(id: Id, request: MentorshipRequest)

  const MissingFields := "Please provide mentorId and message"
  const DuplicateRequest := "You already have a pending or active request with this mentor"
  const InvalidStatus := "Status must be either \"accepted\" or \"rejected\""
  const NotFound := "Request not found"
  const NotYourRequest := "You can only respond to requests sent to you"
  const AlreadyAnswered := "Request has already been responded to"

  /** `POST /`: a mentee asks a mentor. Both fields must be truthy; an
      identifier that is not one is a cast error (500); an active request
      for the same pair is refused; a message that trims to nothing or is
      too long, or a goal that is too long, fails the save (500). Otherwise
      the trimmed request is stored as pending. */
  method Create(db: RequestStore, caller: Crypto.Claims, mentorId: Option<string>, message: Option<string>,
                goals: Option<seq<string>>, now: nat)
    returns (reply: Reply<StoredRequest>)
    requires db.Valid()
    modifies db
    ensures db.Valid() && Evolves(old(db.requests), db.requests)
    ensures !(Present(mentorId) && Present(message)) ==>
      reply == Error(400, MissingFields) && db.requests == old(db.requests)
    ensures Present(mentorId) && Present(message) ==>
      match ParamId(mentorId.value)
      case None => reply == Error(500, ServerError) && db.requests == old(db.requests)
      case Some(mentor) =>
        if FindActive(old(db.requests), caller.userId, mentor).Some? then
          reply == Error(400, DuplicateRequest) && db.requests == old(db.requests)
        else
          match NewRequest(caller.userId, mentor, message.value, ListOrEmpty(goals), now)
          case None => reply == Error(500, ServerError) && db.requests == old(db.requests)
          case Some(r) =>
            && db.requests == old(db.requests) + [r]
            && reply == Reply(201, "Mentorship request sent successfully", Some(StoredRequest(|old(db.requests)|, r)))
  {
    if !(Present(mentorId) && Present(message)) {
      return Error(400, MissingFields);
    }
    var mentor := ParamId(mentorId.value);
    if mentor.None? {
      return Error(500, ServerError);
    }
    if FindActive(db.requests, caller.userId, mentor.value).Some? {
      return Error(400, DuplicateRequest);
    }
    var r := NewRequest(caller.userId, mentor.value, message.value, ListOrEmpty(goals), now);
    if r.None? {
      return Error(500, ServerError);
    }
    AppendKeepsValid(db.requests, r.value);
    var id := |db.requests|;
    db.requests := db.requests + [r.value];
    reply := Reply(201, "Mentorship request sent successfully", Some(StoredRequest(id, r.value)));
  }

  /** A second request for a pair succeeds only once the first is rejected. */
  lemma RequestAgainAfterRejection(rs: seq<MentorshipRequest>, k: nat, now: nat)
    requires ValidRequests(rs) && k < |rs| && rs[k].status == Pending
    ensures FindActive(rs, rs[k].menteeId, rs[k].mentorId) == Some(k)
    ensures FindActive(rs[k := Answer(rs[k], Rejected, now)], rs[k].menteeId, rs[k].mentorId).None?
  {
    var ys := rs[k := Answer(rs[k], Rejected, now)];
    var found := FindActive(rs, rs[k].menteeId, rs[k].mentorId);
    assert found.Some? by {
      assert rs[k].menteeId == rs[k].menteeId && Active(rs[k]);
    }
    assert found.value == k;
    var again := FindActive(ys, rs[k].menteeId, rs[k].mentorId);
    if again.Some? {
      assert false;
    }
  }

  /** The requests a user sent, each once, newest first. */
  function SentIds(rs: seq<MentorshipRequest>, user: Id): (ids: seq<Id>)
    ensures forall k :: 0 <= k < |ids| ==> ids[k] < |rs| && rs[ids[k]].menteeId == user
    ensures forall i :: 0 <= i < |rs| && rs[i].menteeId == user ==> i in ids
    ensures Distinct(ids)
    ensures forall a, b :: 0 <= a < b < |ids| ==> rs[ids[a]].createdAt >= rs[ids[b]].createdAt
  {
    NewestFirstWhere(rs, (r: MentorshipRequest) => r.menteeId == user, (r: MentorshipRequest) => r.createdAt)
  }

  /** The requests a user received, each once, newest first. */
  function ReceivedIds(rs: seq<MentorshipRequest>, user: Id): (ids: seq<Id>)
    ensures forall k :: 0 <= k < |ids| ==> ids[k] < |rs| && rs[ids[k]].mentorId == user
    ensures forall i :: 0 <= i < |rs| && rs[i].mentorId == user ==> i in ids
    ensures Distinct(ids)
    ensures forall a, b :: 0 <= a < b < |ids| ==> rs[ids[a]].createdAt >= rs[ids[b]].createdAt
  {
    NewestFirstWhere(rs, (r: MentorshipRequest) => r.mentorId == user, (r: MentorshipRequest) => r.createdAt)
  }

  /** The stored requests with the given identifiers, in that order. */
  function Entries(rs: seq<MentorshipRequest>, ids: seq<Id>): (es: seq<StoredRequest>)
    requires forall k :: 0 <= k < |ids| ==> ids[k] < |rs|
    ensures |es| == |ids| && forall k :: 0 <= k < |ids| ==> es[k] == StoredRequest(ids[k], rs[ids[k]])
  {
    seq(|ids|, k requires 0 <= k < |ids| => StoredRequest(ids[k], rs[ids[k]]))
  }

  /** `GET /sent`. */
  method Sent(db: RequestStore, caller: Crypto.Claims) returns (reply: Reply<seq<StoredRequest>>)
    ensures reply.status == 200 && reply.body.Some?
    ensures var ids := SentIds(db.requests, caller.userId);
      |reply.body.value| == |ids|
      && forall k :: 0 <= k < |ids| ==> reply.body.value[k] == StoredRequest(ids[k], db.requests[ids[k]])
  {
    var ids := SentIds(db.requests, caller.userId);
    reply := Reply(200, "", Some(Entries(db.requests, ids)));
  }

  /** `GET /received`. */
  method Received(db: RequestStore, caller: Crypto.Claims) returns (reply: Reply<seq<StoredRequest>>)
    ensures reply.status == 200 && reply.body.Some?
    ensures var ids := ReceivedIds(db.requests, caller.userId);
      |reply.body.value| == |ids|
      && forall k :: 0 <= k < |ids| ==> reply.body.value[k] == StoredRequest(ids[k], db.requests[ids[k]])
  {
    var ids := ReceivedIds(db.requests, caller.userId);
    reply := Reply(200, "", Some(Entries(db.requests, ids)));
  }

  /** `PUT /:id`: the mentor of a pending request accepts or rejects it. The
      status is checked before the lookup; then the request must exist, be
      addressed to the caller and still be pending. */
  method Respond(db: RequestStore, caller: Crypto.Claims, param: string, status: Option<string>, now: nat)
    returns (reply: Reply<StoredRequest>)
    requires db.Valid()
    modifies db
    ensures db.Valid() && Evolves(old(db.requests), db.requests)
    ensures ParseResponse(status).None? ==> reply == Error(400, InvalidStatus) && db.requests == old(db.requests)
    ensures ParseResponse(status).Some? ==>
      match ParamId(param)
      case None => reply == Error(500, ServerError) && db.requests == old(db.requests)
      case Some(id) =>
        if id >= |old(db.requests)| then
          reply == Error(404, NotFound) && db.requests == old(db.requests)
        else if old(db.requests)[id].mentorId != caller.userId then
          reply == Error(403, NotYourRequest) && db.requests == old(db.requests)
        else if old(db.requests)[id].status != Pending then
          reply == Error(400, AlreadyAnswered) && db.requests == old(db.requests)
        else
          && db.requests == old(db.requests)[id := Answer(old(db.requests)[id], ParseResponse(status).value, now)]
          && reply == Reply(200, "Request " + status.value + " successfully", Some(StoredRequest(id, db.requests[id])))
  {
    var s := ParseResponse(status);
    if s.None? {
      return Error(400, InvalidStatus);
    }
    var id := ParamId(param);
    if id.None? {
      return Error(500, ServerError);
    }
    if id.value >= |db.requests| {
      return Error(404, NotFound);
    }
    var r := db.requests[id.value];
    if r.mentorId != caller.userId {
      return Error(403, NotYourRequest);
    }
    if r.status != Pending {
      return Error(400, AlreadyAnswered);
    }
    var answered := Answer(r, s.value, now);
    AnswerKeepsValid(db.requests, id.value, s.value, now);
    db.requests := db.requests[id.value := answered];
    reply := Reply(200, "Request " + status.value + " successfully", Some(StoredRequest(id.value, answered)));
  }

  /** The two parties of a request. */
  predicate Participant(r: MentorshipRequest, user: Id) {
    r.menteeId == user || r.mentorId == user
  }

  /** `GET /:id` with the participant check comparing identifiers: only the
      mentee and the mentor of a request may read it. */
  method GetRequest(db: RequestStore, caller: Crypto.Claims, param: string) returns (reply: Reply<StoredRequest>)
    ensures ParamId(param).None? ==> reply == Error(500, ServerError)
    ensures ParamId(param).Some? ==>
      var id := ParamId(param).value;
      if id >= |db.requests| then reply == Error(404, NotFound)
      else if Participant(db.requests[id], caller.userId) then reply == Reply(200, "", Some(StoredRequest(id, db.requests[id])))
      else reply == Error(403, "Access denied")
  {
    var id := ParamId(param);
    if id.None? {
      return Error(500, ServerError);
    }
    if id.value >= |db.requests| {
      return Error(404, NotFound);
    }
    var r := db.requests[id.value];
    if !Participant(r, caller.userId) {
      return Error(403, "Access denied");
    }
    reply := Reply(200, "", Some(StoredRequest(id.value, r)));
  }

  /** The text `toString()` gives for a reference field after `populate`
      replaced it with the user's document: the document's inspection,
      which opens with a brace. */
  predicate IsInspectionText(s: string) {
    s != [] && s[0] == '{'
  }

  datatype Access = Granted | Denied | Crashed

  /** The participant check of `GET /:id` as the route performs it, on the
      texts of the two populated reference fields: `None` where the
      referenced user is gone and the field is null, so that `toString()`
      throws. */
  function AccessAsWritten(menteeText: Option<string>, mentorText: Option<string>, caller: Id): (a: Access)
    ensures a == Crashed <==> menteeText.None? || mentorText.None?
    ensures a == Granted ==> menteeText == Some(IdString(caller)) || mentorText == Some(IdString(caller))
  {
    if menteeText.None? || mentorText.None? then Crashed
    else if menteeText.value != IdString(caller) && mentorText.value != IdString(caller) then Denied
    else Granted
  }

  /** An identifier's text is all digits, so it never opens with a brace. */
  lemma IdStringIsNotInspection(id: Id)
    ensures !IsInspectionText(IdString(id))
  {
    var s := IdString(id);
    assert ParseNat(s).Some?;
    assert s != [] && IsDigit(s[0]);
  }

  /** As written, the check lets nobody through: with populated fields the
      route answers every caller, mentee and mentor included, with 403 (or
      500 when a party's account is missing). */
  lemma AsWrittenDeniesParticipants(menteeText: Option<string>, mentorText: Option<string>, caller: Id)
    requires menteeText.Some? ==> IsInspectionText(menteeText.value)
    requires mentorText.Some? ==> IsInspectionText(mentorText.value)
    ensures AccessAsWritten(menteeText, mentorText, caller) != Granted
  {
    IdStringIsNotInspection(caller);
  }

  /** A concrete instance: user 7 is the mentee of a request and the
      corrected route gives it to them, but the check as written refuses. */
  lemma AsWrittenCounterexample(db: RequestStore, caller: Crypto.Claims)
    requires |db.requests| == 1 && db.requests[0].menteeId == 7 && caller.userId == 7
    ensures Participant(db.requests[0], caller.userId)
    ensures AccessAsWritten(Some("{ _id: 7, firstName: 'Ada' }"), Some("{ _id: 8, firstName: 'Bo' }"), caller.userId) == Denied
  {
    AsWrittenDeniesParticipants(Some("{ _id: 7, firstName: 'Ada' }"), Some("{ _id: 8, firstName: 'Bo' }"), caller.userId);
  }
}
