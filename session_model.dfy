/** The Session record (`src/models/Session.ts`): a meeting a mentee books
    with a mentor, its status, and the feedback the mentee leaves. */
module SessionModel {
  import opened Common

  datatype SessionStatus = Scheduled | Completed | Cancelled

  function SessionStatusName(s: SessionStatus): string {
    match s
    case Scheduled => "scheduled"
    case Completed => "completed"
    case Cancelled => "cancelled"
  }

  /** The feedback sub-document; either member may be absent. */
  datatype Feedback = Feedback(rating: Option<int>, comment: Option<string>)

  /** A stored session; `scheduledAt` is a clock reading and `duration` is
      in minutes. */
  datatype Session = Session(
    mentorId: Id,
    menteeId: Id,
    scheduledAt: nat,
    duration: real,
    status: SessionStatus,
    feedback: Option<Feedback>)

  /** The duration the schema fills in when a document has none. */
  const SchemaDefaultDuration: real := 60.0
  const MinRating: int := 1
  const MaxRating: int := 5

  /** The `min`/`max` validators of the rating: they run only on a rating
      that is present. */
  predicate RatingAccepted(rating: Option<int>) {
    rating.Some? ==> MinRating <= rating.value <= MaxRating
  }

  /** What a save guarantees of every stored session. */
  predicate WellFormed(s: Session) {
    s.feedback.Some? ==> RatingAccepted(s.feedback.value.rating)
  }

  predicate ValidSessions(ss: seq<Session>) {
    forall i :: 0 <= i < |ss| ==> WellFormed(ss[i])
  }

  /** A new session as the schema builds it: status `scheduled` (the enum's
      default) and no feedback. */
  function NewSession(mentorId: Id, menteeId: Id, scheduledAt: nat, duration: real): (s: Session)
    ensures WellFormed(s) && s.status == Scheduled && s.feedback.None?
    ensures s.mentorId == mentorId && s.menteeId == menteeId && s.scheduledAt == scheduledAt && s.duration == duration
  {
    Session(mentorId, menteeId, scheduledAt, duration, Scheduled, None)
  }

  /** The session after `feedback = {rating, comment}; status = 'completed'`
      and a save, or `None` where the save's rating validators reject it.
      Whatever the session held before, only those two members change. */
  function WithFeedback(s: Session, rating: Option<int>, comment: Option<string>): (r: Option<Session>)
    ensures r.Some? <==> RatingAccepted(rating)
    ensures r.Some? ==> WellFormed(r.value) && r.value.status == Completed
    ensures r.Some? ==> r.value.feedback == Some(Feedback(rating, comment))
    ensures r.Some? ==> r.value.(status := s.status, feedback := s.feedback) == s
  {
    if RatingAccepted(rating) then Some(s.(feedback := Some(Feedback(rating, comment)), status := Completed))
    else None
  }

  /** Feedback overwrites: a second submission leaves exactly what submitting
      only the second would have, whatever the first was. */
  lemma FeedbackOverwrites(s: Session, r1: Option<int>, c1: Option<string>, r2: Option<int>, c2: Option<string>)
    requires RatingAccepted(r1)
    ensures WithFeedback(WithFeedback(s, r1, c1).value, r2, c2) == WithFeedback(s, r2, c2)
  {
  }

  /** Every accepted rating lies between one and five. */
  lemma StoredRatingInRange(ss: seq<Session>, i: nat)
    requires ValidSessions(ss) && i < |ss|
    requires ss[i].feedback.Some? && ss[i].feedback.value.rating.Some?
    ensures 1 <= ss[i].feedback.value.rating.value <= 5
  {
  }
}
