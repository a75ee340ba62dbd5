/** `POST /api/safety/review`: a participant reviews the other participant of a plan. */
module SafetyReview {
  import opened Common
  import opened Store

  /** The JSON body: `{ plan_id, rating, comment? }`. */
  datatype ReviewBody = ReviewBody(planId: Field<string>, rating: Field<real>, comment: Field<string>)

  datatype ReviewInput = ReviewInput(planId: string, rating: int, comment: Option<string>)

  /** `z.number().int().min(1).max(5)`. */
  predicate IsRating(x: real) {
    x == x.Floor as real && 1.0 <= x <= 5.0
  }

  /** The zod schema: a UUID plan id, an integer rating from 1 to 5, and an
      optional nullable comment. */
  function ParseBody(json: Json<ReviewBody>): (r: Option<ReviewInput>)
    ensures r.Some? <==>
      json.Object? &&
      json.body.planId.Val? && IsUuid(json.body.planId.v) &&
      json.body.rating.Val? && IsRating(json.body.rating.v) &&
      !json.body.comment.Mistyped?
    ensures r.Some? ==>
      r.value.planId == json.body.planId.v &&
      r.value.rating as real == json.body.rating.v && 1 <= r.value.rating <= 5 &&
      (r.value.comment.Some? <==> json.body.comment.Val?)
    ensures r.Some? ==> r.value.comment == ValueOf(json.body.comment)
  {
    if !json.Object? then None
    else
      var b := json.body;
      var plan := Required(b.planId, IsUuid);
      var rating := Required(b.rating, IsRating);
      var comment := OptionalNullable(b.comment);
      if plan.None? || rating.None? || comment.None? then None
      else Some(ReviewInput(plan.value, rating.value.Floor, comment.value))
  }

  /** Who `user` reviews on `plan`: the partner when `user` owns the plan,
      otherwise the owner when `user` is the partner, otherwise nobody. */
  function Reviewee(plan: MeetingPlan, user: UserId): (r: Option<UserId>)
    ensures r.Some? <==> IsParticipant(plan, user)
    ensures r.Some? ==> IsParticipant(plan, r.value)
    ensures r.Some? && plan.ownerUserId != plan.partnerUserId ==> r.value != user
    ensures r.Some? && user == plan.ownerUserId ==> r.value == plan.partnerUserId
  {
    if user == plan.ownerUserId then Some(plan.partnerUserId)
    else if user == plan.partnerUserId then Some(plan.ownerUserId)
    else None
  }

  /** The handler. `lookupFails` is an error of the plan query; the insert
      fails with `insertError`. An empty reviewee id is refused like a
      non-participant. */
  method Post(db: Db, session: Option<Caller>, json: Json<ReviewBody>,
              lookupFails: bool, insertError: Option<string>)
    returns (r: Reply<()>)
    modifies db`reviews
    ensures session.None? ==> r == Err(401, Text("Unauthorized"))
    ensures session.Some? && ParseBody(json).None? ==> r == Err(400, SchemaIssues)
    ensures session.Some? && ParseBody(json).Some? &&
            (lookupFails || SinglePlan(db.plans, ParseBody(json).value.planId).None?) ==>
              r == Err(404, Text("Plan not found"))
    ensures session.Some? && ParseBody(json).Some? && !lookupFails &&
            SinglePlan(db.plans, ParseBody(json).value.planId).Some? &&
            (!IsParticipant(SinglePlan(db.plans, ParseBody(json).value.planId).value, session.value.id) ||
             Reviewee(SinglePlan(db.plans, ParseBody(json).value.planId).value, session.value.id).value == "") ==>
              r == Err(403, Text("Not a participant"))
    ensures r.Ok? ==>
              session.Some? && ParseBody(json).Some? && !lookupFails &&
              SinglePlan(db.plans, ParseBody(json).value.planId).Some? && insertError.None? &&
              var input := ParseBody(json).value;
              var plan := SinglePlan(db.plans, input.planId).value;
              var reviewee := Reviewee(plan, session.value.id);
              reviewee.Some? && reviewee.value != "" &&
              db.reviews == old(db.reviews) +
                [MeetingReview(input.planId, session.value.id, reviewee.value, input.rating, input.comment)]
    ensures session.Some? && ParseBody(json).Some? && !lookupFails && insertError.None? &&
            SinglePlan(db.plans, ParseBody(json).value.planId).Some? &&
            IsParticipant(SinglePlan(db.plans, ParseBody(json).value.planId).value, session.value.id) &&
            Reviewee(SinglePlan(db.plans, ParseBody(json).value.planId).value, session.value.id).value != "" ==>
              r.Ok?
    ensures session.Some? && ParseBody(json).Some? && !lookupFails &&
            SinglePlan(db.plans, ParseBody(json).value.planId).Some? &&
            IsParticipant(SinglePlan(db.plans, ParseBody(json).value.planId).value, session.value.id) &&
            Reviewee(SinglePlan(db.plans, ParseBody(json).value.planId).value, session.value.id).value != "" &&
            insertError.Some? ==>
              r == Err(400, StoreError(insertError.value))
    ensures r.Err? ==> db.reviews == old(db.reviews)
  {
    if session.None? {
      return Err(401, Text("Unauthorized"));
    }
    var user := session.value;
    var parsed := ParseBody(json);
    if parsed.None? {
      return Err(400, SchemaIssues);
    }
    var input := parsed.value;
    var plan := SinglePlan(db.plans, input.planId);
    if lookupFails || plan.None? {
      return Err(404, Text("Plan not found"));
    }
    var reviewee: Option<UserId> := None;
    if user.id == plan.value.ownerUserId {
      reviewee := Some(plan.value.partnerUserId);
    } else if user.id == plan.value.partnerUserId {
      reviewee := Some(plan.value.ownerUserId);
    }
    if reviewee.None? || reviewee.value == "" {
      return Err(403, Text("Not a participant"));
    }
    if insertError.Some? {
      return Err(400, StoreError(insertError.value));
    }
    db.reviews := db.reviews + [MeetingReview(input.planId, user.id, reviewee.value, input.rating, input.comment)];
    r := Ok(());
  }

  /** The plan route does not stop a caller naming themself as partner; on
      such a plan the only participant reviews themself. */
  lemma SelfPlanReviewsSelf(plan: MeetingPlan, user: UserId)
    requires plan.ownerUserId == plan.partnerUserId
    ensures Reviewee(plan, user).Some? <==> user == plan.ownerUserId
    ensures user == plan.ownerUserId ==> Reviewee(plan, user) == Some(user)
  {
  }
}
