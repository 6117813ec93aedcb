/** The MentorshipRequest record (`src/models/mentorshipRequest.ts`): its
    fields, the schema's setters, validators and defaults, the collection of
    requests, and the rule the routes keep about active requests. */
module RequestModel {
  import opened Common
  import opened Text

  datatype Status = Pending | Accepted | Rejected

  function StatusName(s: Status): string {
    match s
    case Pending => "pending"
    case Accepted => "accepted"
    case Rejected => "rejected"
  }

  /** The status a response may set: `accepted` or `rejected`, nothing
      else (`pending` included). */
  function ParseResponse(s: Option<string>): (r: Option<Status>)
    ensures r.Some? <==> s.Some? && (s.value == "accepted" || s.value == "rejected")
    ensures r.Some? ==> r.value != Pending && StatusName(r.value) == s.value
  {
    if s == Some("accepted") then Some(Accepted)
    else if s == Some("rejected") then Some(Rejected)
    else None
  }

  /** A stored request; `createdAt` and `respondedAt` are clock readings. */
  datatype MentorshipRequest = MentorshipRequest(
    menteeId: Id,
    mentorId: Id,
    message: string,
    goals: seq<string>,
    status: Status,
    createdAt: nat,
    respondedAt: Option<nat>)

  const MessageMaxLength: nat := 500
  const GoalMaxLength: nat := 100

  /** The validators a save runs: the message is required and at most 500
      characters, each goal at most 100. */
  predicate SatisfiesSchema(r: MentorshipRequest) {
    && r.message != "" && |r.message| <= MessageMaxLength
    && forall i :: 0 <= i < |r.goals| ==> |r.goals[i]| <= GoalMaxLength
  }

  /** What the `trim` setters guarantee of every stored request. */
  predicate SettersApplied(r: MentorshipRequest) {
    && r.message == Trim(r.message)
    && forall i :: 0 <= i < |r.goals| ==> r.goals[i] == Trim(r.goals[i])
  }

  /** A request carries a response time exactly when it has been answered. */
  predicate Consistent(r: MentorshipRequest) {
    r.status == Pending <==> r.respondedAt.None?
  }

  predicate WellFormed(r: MentorshipRequest) {
    SatisfiesSchema(r) && SettersApplied(r) && Consistent(r)
  }

  /** Each goal trimmed (the setter on the array's elements). */
  function TrimAll(goals: seq<string>): (r: seq<string>)
    ensures |r| == |goals|
    ensures forall i :: 0 <= i < |r| ==> r[i] == Trim(goals[i]) && Trim(r[i]) == r[i]
  {
    seq(|goals|, i requires 0 <= i < |goals| => TrimIdempotent(goals[i]); Trim(goals[i]))
  }

  /** The request `new MentorshipRequest({...}).save()` stores at clock
      reading `now`, or `None` where the save's validation throws: the
      message and goals trimmed, status `pending`, no response time. */
  function NewRequest(menteeId: Id, mentorId: Id, message: string, goals: seq<string>, now: nat): (r: Option<MentorshipRequest>)
    ensures r.Some? <==> (Trim(message) != "" && |Trim(message)| <= MessageMaxLength
                          && forall i :: 0 <= i < |goals| ==> |Trim(goals[i])| <= GoalMaxLength)
    ensures r.Some? ==> WellFormed(r.value)
    ensures r.Some? ==> r.value == MentorshipRequest(menteeId, mentorId, Trim(message), TrimAll(goals), Pending, now, None)
  {
    TrimIdempotent(message);
    var req := MentorshipRequest(menteeId, mentorId, Trim(message), TrimAll(goals), Pending, now, None);
    if SatisfiesSchema(req) then Some(req) else None
  }

  /** A request that still blocks a new one for the same pair. */
  predicate Active(r: MentorshipRequest) {
    r.status == Pending || r.status == Accepted
  }

  /** The rule the create route's pre-check exists to keep: between one
      mentee and one mentor there is at most one active request. */
  predicate AtMostOneActive(rs: seq<MentorshipRequest>) {
    forall i, j :: 0 <= i < j < |rs| && rs[i].menteeId == rs[j].menteeId && rs[i].mentorId == rs[j].mentorId
      ==> !(Active(rs[i]) && Active(rs[j]))
  }

  /** `findOne({menteeId, mentorId, status: {$in: ['pending', 'accepted']}})`. */
  function FindActive(rs: seq<MentorshipRequest>, menteeId: Id, mentorId: Id): (r: Option<Id>)
    ensures r.Some? ==>
      r.value < |rs| && rs[r.value].menteeId == menteeId && rs[r.value].mentorId == mentorId && Active(rs[r.value])
    ensures r.None? ==>
      forall i :: 0 <= i < |rs| && rs[i].menteeId == menteeId && rs[i].mentorId == mentorId ==> !Active(rs[i])
  {
    if rs == [] then None
    else if rs[0].menteeId == menteeId && rs[0].mentorId == mentorId && Active(rs[0]) then Some(0)
    else
      match FindActive(rs[1..], menteeId, mentorId)
      case None => None
      case Some(i) => Some(i + 1)
  }

  predicate ValidRequests(rs: seq<MentorshipRequest>) {
    AtMostOneActive(rs) && forall i :: 0 <= i < |rs| ==> WellFormed(rs[i])
  }

  /** Adding a well-formed request for a pair with no active request keeps
      the collection valid. */
  lemma AppendKeepsValid(rs: seq<MentorshipRequest>, r: MentorshipRequest)
    requires ValidRequests(rs) && WellFormed(r)
    requires FindActive(rs, r.menteeId, r.mentorId).None?
    ensures ValidRequests(rs + [r])
  {
    AllAppend(rs, r, WellFormed);
    AppendKeepsOneActive(rs, r);
  }

  lemma AppendKeepsOneActive(rs: seq<MentorshipRequest>, r: MentorshipRequest)
    requires AtMostOneActive(rs) && FindActive(rs, r.menteeId, r.mentorId).None?
    ensures AtMostOneActive(rs + [r])
  {
    var all := rs + [r];
    forall i, j | 0 <= i < j < |all| && all[i].menteeId == all[j].menteeId && all[i].mentorId == all[j].mentorId
      ensures !(Active(all[i]) && Active(all[j]))
    {
      assert all[i] == rs[i];
      if j == |rs| {
        assert all[j] == r;
      } else {
        assert all[j] == rs[j];
      }
    }
  }

  /** The response to a pending request: the new status and the time. */
  function Answer(r: MentorshipRequest, s: Status, now: nat): (a: MentorshipRequest)
    requires r.status == Pending && s != Pending
    ensures a.status == s && a.respondedAt == Some(now)
    ensures a.(status := r.status, respondedAt := r.respondedAt) == r
  {
    r.(status := s, respondedAt := Some(now))
  }

  /** Answering a pending request keeps the collection valid: an accepted
      request stays active in the place of the pending one, and a rejected
      one stops being active. */
  lemma AnswerKeepsValid(rs: seq<MentorshipRequest>, k: nat, s: Status, now: nat)
    requires ValidRequests(rs) && k < |rs| && rs[k].status == Pending && s != Pending
    ensures ValidRequests(rs[k := Answer(rs[k], s, now)])
  {
    var a := Answer(rs[k], s, now);
    AnswerWellFormed(rs[k], s, now);
    AllUpdate(rs, k, a, rs[k := a], WellFormed);
    AnswerKeepsOneActive(rs, k, a);
  }

  lemma AnswerWellFormed(r: MentorshipRequest, s: Status, now: nat)
    requires WellFormed(r) && r.status == Pending && s != Pending
    ensures WellFormed(Answer(r, s, now))
  {
  }

  lemma AnswerKeepsOneActive(rs: seq<MentorshipRequest>, k: nat, a: MentorshipRequest)
    requires AtMostOneActive(rs) && k < |rs|
    requires a.menteeId == rs[k].menteeId && a.mentorId == rs[k].mentorId
    requires Active(a) ==> Active(rs[k])
    ensures AtMostOneActive(rs[k := a])
  {
    var ys := rs[k := a];
    forall i, j | 0 <= i < j < |ys| && ys[i].menteeId == ys[j].menteeId && ys[i].mentorId == ys[j].mentorId
      ensures !(Active(ys[i]) && Active(ys[j]))
    {
      assert Active(ys[i]) ==> Active(rs[i]);
      assert Active(ys[j]) ==> Active(rs[j]);
    }
  }

  /** How the collection may change under the routes: requests are only
      added, and a stored request only changes by being answered while
      pending. */
  predicate Evolves(before: seq<MentorshipRequest>, after: seq<MentorshipRequest>) {
    && |before| <= |after|
    && forall i :: 0 <= i < |before| ==>
      after[i] == before[i]
      || (before[i].status == Pending && after[i].status != Pending
          && after[i] == before[i].(status := after[i].status, respondedAt := after[i].respondedAt))
  }

  /** Changes compose: two evolutions in a row are one. */
  lemma {:induction false} EvolvesTransitive(a: seq<MentorshipRequest>, b: seq<MentorshipRequest>, c: seq<MentorshipRequest>)
    requires Evolves(a, b) && Evolves(b, c)
    ensures Evolves(a, c)
  {
    forall i | 0 <= i < |a|
      ensures c[i] == a[i]
        || (a[i].status == Pending && c[i].status != Pending
            && c[i] == a[i].(status := c[i].status, respondedAt := c[i].respondedAt))
    {
      if b[i] != a[i] {
        assert b[i].status != Pending;
        assert c[i] == b[i];
      }
    }
  }

  /** Accepted and rejected are terminal: once answered, a request stays as
      it is through any evolution, and its decision never changes. */
  lemma DecidedIsFinal(a: seq<MentorshipRequest>, b: seq<MentorshipRequest>, i: nat)
    requires Evolves(a, b) && i < |a| && a[i].status != Pending
    ensures b[i] == a[i]
  {
  }

  /** The index on `{menteeId, mentorId, status}` is not unique, so only the
      create route's pre-check keeps the rule: appending an active request
      for a pair that already has one, as a save that skipped the check
      would, breaks it. With `AppendKeepsOneActive`, the pre-check is
      exactly what decides whether an append of a new pending request
      keeps the rule. */
  lemma InsertWithoutCheckBreaksRule(rs: seq<MentorshipRequest>, r: MentorshipRequest)
    requires Active(r) && FindActive(rs, r.menteeId, r.mentorId).Some?
    ensures !AtMostOneActive(rs + [r])
  {
    var k := FindActive(rs, r.menteeId, r.mentorId).value;
    var all := rs + [r];
    assert all[k] == rs[k] && all[|rs|] == r;
  }

  /** The requests collection. */
  class RequestStore {
    var requests: seq<MentorshipRequest>

    predicate Valid()
      reads this
    {
      ValidRequests(requests)
    }

    constructor ()
      ensures requests == [] && Valid()
    {
      requests := [];
    }
  }
}
