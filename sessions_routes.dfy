/** The session routes (`src/routes/sessions.ts`). All of them run after the
    authentication gate and receive the claims it admitted. */
module SessionsRoutes {
  import opened Common
  import opened Decimal
  import opened Http
  import opened Query
  import opened SessionModel
  import Crypto

  /** A session together with its identifier, as a reply carries it. */
  datatype StoredSession = StoredSession(id: Id, session: Session)

  const FeedbackFailed := "Error submitting feedback"

  /** The sessions collection. */
  class SessionStore {
    var sessions: seq<Session>

    predicate Valid()
      reads this
    {
      ValidSessions(sessions)
    }

    constructor ()
      ensures sessions == [] && Valid()
    {
      sessions := [];
    }
  }

  /** `duration || 30`: a missing or zero duration becomes thirty minutes,
      so the schema's own default of sixty never applies to a booking. */
  function BookedDuration(duration: Option<real>): (minutes: real)
    ensures duration.Some? && duration.value != 0.0 ==> minutes == duration.value
    ensures duration.None? || duration.value == 0.0 ==> minutes == 30.0
    ensures minutes == SchemaDefaultDuration ==> duration == Some(SchemaDefaultDuration)
  {
    if duration.Some? && duration.value != 0.0 then duration.value else 30.0
  }

  /** `POST /`: the caller books a session with a mentor. Both fields must be
      truthy; a mentor identifier or a date that does not cast fails the
      create (500). `parseDate` is the date conversion, which is not part of
      this model. */
  method Schedule(db: SessionStore, caller: Crypto.Claims, mentorId: Option<string>, scheduledAt: Option<string>,
                  duration: Option<real>, parseDate: string -> Option<nat>)
    returns (reply: Reply<StoredSession>)
    requires db.Valid()
    modifies db
    ensures db.Valid()
    ensures !(Present(mentorId) && Present(scheduledAt)) ==>
      reply == Error(400, "Missing required fields") && db.sessions == old(db.sessions)
    ensures Present(mentorId) && Present(scheduledAt) ==>
      if ParamId(mentorId.value).None? || parseDate(scheduledAt.value).None? then
        reply == Error(500, ServerError) && db.sessions == old(db.sessions)
      else
        var s := NewSession(ParamId(mentorId.value).value, caller.userId, parseDate(scheduledAt.value).value, BookedDuration(duration));
        && db.sessions == old(db.sessions) + [s]
        && reply == Reply(201, "Session scheduled", Some(StoredSession(|old(db.sessions)|, s)))
  {
    if !(Present(mentorId) && Present(scheduledAt)) {
      return Error(400, "Missing required fields");
    }
    var mentor := ParamId(mentorId.value);
    var at := parseDate(scheduledAt.value);
    if mentor.None? || at.None? {
      return Error(500, ServerError);
    }
    var s := NewSession(mentor.value, caller.userId, at.value, BookedDuration(duration));
    AllAppend(db.sessions, s, WellFormed);
    var id := |db.sessions|;
    db.sessions := db.sessions + [s];
    reply := Reply(201, "Session scheduled", Some(StoredSession(id, s)));
  }

  /** The stored sessions with the given identifiers, in that order. */
  function SessionEntries(ss: seq<Session>, ids: seq<Id>): (es: seq<StoredSession>)
    requires forall k :: 0 <= k < |ids| ==> ids[k] < |ss|
    ensures |es| == |ids| && forall k :: 0 <= k < |ids| ==> es[k] == StoredSession(ids[k], ss[ids[k]])
  {
    seq(|ids|, k requires 0 <= k < |ids| => StoredSession(ids[k], ss[ids[k]]))
  }

  /** `GET /mentee`: exactly the caller's sessions as mentee, each once, in
      booking order. */
  method MenteeSessions(db: SessionStore, caller: Crypto.Claims) returns (reply: Reply<seq<StoredSession>>)
    ensures reply.status == 200 && reply.body.Some?
    ensures forall e :: e in reply.body.value ==>
      e.id < |db.sessions| && e.session == db.sessions[e.id] && e.session.menteeId == caller.userId
    ensures forall i :: 0 <= i < |db.sessions| && db.sessions[i].menteeId == caller.userId ==>
      StoredSession(i, db.sessions[i]) in reply.body.value
    ensures forall a, b :: 0 <= a < b < |reply.body.value| ==> reply.body.value[a].id < reply.body.value[b].id
  {
    var ids := Where(db.sessions, (s: Session) => s.menteeId == caller.userId);
    var es := SessionEntries(db.sessions, ids);
    forall i | 0 <= i < |db.sessions| && db.sessions[i].menteeId == caller.userId
      ensures StoredSession(i, db.sessions[i]) in es
    {
      var k :| 0 <= k < |ids| && ids[k] == i;
      assert es[k] == StoredSession(i, db.sessions[i]);
    }
    reply := Reply(200, "", Some(es));
  }

  /** `GET /mentor`: exactly the caller's sessions as mentor, each once, in
      booking order. */
  method MentorSessions(db: SessionStore, caller: Crypto.Claims) returns (reply: Reply<seq<StoredSession>>)
    ensures reply.status == 200 && reply.body.Some?
    ensures forall e :: e in reply.body.value ==>
      e.id < |db.sessions| && e.session == db.sessions[e.id] && e.session.mentorId == caller.userId
    ensures forall i :: 0 <= i < |db.sessions| && db.sessions[i].mentorId == caller.userId ==>
      StoredSession(i, db.sessions[i]) in reply.body.value
    ensures forall a, b :: 0 <= a < b < |reply.body.value| ==> reply.body.value[a].id < reply.body.value[b].id
  {
    var ids := Where(db.sessions, (s: Session) => s.mentorId == caller.userId);
    var es := SessionEntries(db.sessions, ids);
    forall i | 0 <= i < |db.sessions| && db.sessions[i].mentorId == caller.userId
      ensures StoredSession(i, db.sessions[i]) in es
    {
      var k :| 0 <= k < |ids| && ids[k] == i;
      assert es[k] == StoredSession(i, db.sessions[i]);
    }
    reply := Reply(200, "", Some(es));
  }

  /** `PUT /:id/feedback`: the session's mentee, and nobody else, records a
      rating and comment and marks the session completed, whatever its
      status was; a rejected rating leaves the stored session as it was. */
  method SubmitFeedback(db: SessionStore, caller: Crypto.Claims, param: string, rating: Option<int>, comment: Option<string>)
    returns (reply: Reply<StoredSession>)
    requires db.Valid()
    modifies db
    ensures db.Valid()
    ensures match ParamId(param)
      case None => reply == Error(500, FeedbackFailed) && db.sessions == old(db.sessions)
      case Some(id) =>
        if id >= |old(db.sessions)| then
          reply == Error(404, "Session not found") && db.sessions == old(db.sessions)
        else if old(db.sessions)[id].menteeId != caller.userId then
          reply == Error(403, "Only mentee can leave feedback") && db.sessions == old(db.sessions)
        else
          match WithFeedback(old(db.sessions)[id], rating, comment)
          case None => reply == Error(500, FeedbackFailed) && db.sessions == old(db.sessions)
          case Some(s) =>
            && db.sessions == old(db.sessions)[id := s]
            && reply == Reply(200, "Feedback submitted", Some(StoredSession(id, s)))
  {
    var id := ParamId(param);
    if id.None? {
      return Error(500, FeedbackFailed);
    }
    if id.value >= |db.sessions| {
      return Error(404, "Session not found");
    }
    if db.sessions[id.value].menteeId != caller.userId {
      return Error(403, "Only mentee can leave feedback");
    }
    var updated := WithFeedback(db.sessions[id.value], rating, comment);
    if updated.None? {
      return Error(500, FeedbackFailed);
    }
    AllUpdate(db.sessions, id.value, updated.value, db.sessions[id.value := updated.value], WellFormed);
    db.sessions := db.sessions[id.value := updated.value];
    reply := Reply(200, "Feedback submitted", Some(StoredSession(id.value, updated.value)));
  }
}
