/** The rows of the tables the core reads and writes, and the database as one
    object holding a sequence of rows per table. Rows are kept in insertion
    order; `created_at` defaults to the insertion time, so "most recent by
    `created_at`" is the last row inserted. */
module Store {
  import opened Common

  datatype MeetingPlan = MeetingPlan(
    id: string,
    ownerUserId: UserId,
    partnerUserId: UserId,
    startTime: Option<Millis>,
    locationText: Option<string>,
    notes: Option<string>,
    placeName: Option<string>,
    placeAddress: Option<string>,
    status: string)

  datatype CheckInKind = OnTheWay | Arrived | Safe | Cancel

  datatype CheckIn = CheckIn(
    planId: string,
    userId: UserId,
    kind: CheckInKind,
    note: Option<string>,
    lat: Option<real>,
    lng: Option<real>)

  datatype TrustedContact = TrustedContact(
    userId: UserId,
    name: Option<string>,
    email: Option<string>,
    phone: Option<string>,
    notifyEmail: bool,
    notifySms: bool)

  datatype PanicEvent = PanicEvent(
    id: string,
    userId: UserId,
    planId: Option<string>,
    note: Option<string>,
    lat: Option<real>,
    lng: Option<real>,
    status: string,
    createdAt: Millis,
    resolvedAt: Option<Millis>,
    resolvedBy: Option<UserId>)

  datatype MeetingReview = MeetingReview(
    planId: string,
    reviewerUserId: UserId,
    revieweeUserId: UserId,
    rating: int,
    comment: Option<string>)

  /** `status` is the table default, "open", on insert. */
  datatype UserReport = UserReport(
    reporterUserId: UserId,
    reportedUserId: UserId,
    reason: string,
    details: Option<string>,
    status: string)

  datatype UserBlock = UserBlock(blockerUserId: UserId, blockedUserId: UserId)

  datatype Verification = Verification(
    userId: UserId,
    status: string,
    selfieLiveness: string,
    ninLast4: Option<string>,
    dob: Option<string>)

  /** `data.plan` of a Paystack event, or what was stored from it: a plan
      object with its `plan_code`, or a plain string. */
  datatype PlanValue = PlanObject(planCode: Option<string>) | PlanText(text: string)

  /** One `subscriptions` row. The two webhooks write different columns: the
      first `current_period_end` and `plan`, the second `expires_at`,
      `plan_code`, `amount_kobo`, `paystack_reference` and `starts_at`. */
  datatype Subscription = Subscription(
    userId: UserId,
    status: string,
    expiresAt: Option<Millis>,
    currentPeriodEnd: Option<Millis>,
    provider: Option<string>,
    plan: Option<PlanValue>,
    planCode: Option<string>,
    amountKobo: Option<real>,
    reference: Option<string>,
    startsAt: Option<Millis>)

  datatype Transaction = Transaction(
    provider: string,
    providerRef: string,
    status: Option<string>,
    amount: int,
    currency: string,
    userId: Option<UserId>)

  /** One `profiles` row. Some deployments key it by `id`, others by `user_id`. */
  datatype Profile = Profile(
    id: Option<UserId>,
    userId: Option<UserId>,
    email: Option<string>,
    displayName: Option<string>,
    avatarPublicId: Option<string>,
    legalFullName: Option<string>,
    legalBirthdate: Option<string>,
    legalGender: Option<string>)

  /** The database reached through the service-role client. */
  class Db {
    var plans: seq<MeetingPlan>
    var checkins: seq<CheckIn>
    var contacts: seq<TrustedContact>
    var panics: seq<PanicEvent>
    var reviews: seq<MeetingReview>
    var reports: seq<UserReport>
    var blocks: seq<UserBlock>
    var verifications: seq<Verification>
    var subscriptions: seq<Subscription>
    var transactions: seq<Transaction>
    var profiles: seq<Profile>

    constructor ()
      ensures plans == [] && checkins == [] && contacts == [] && panics == []
      ensures reviews == [] && reports == [] && blocks == [] && verifications == []
      ensures subscriptions == [] && transactions == [] && profiles == []
    {
      plans, checkins, contacts, panics := [], [], [], [];
      reviews, reports, blocks, verifications := [], [], [], [];
      subscriptions, transactions, profiles := [], [], [];
    }
  }

  // ---------- single-row lookups ----------

  /** The plans with a given id. */
  function PlansWithId(plans: seq<MeetingPlan>, id: string): (r: seq<MeetingPlan>)
    ensures forall p | p in r :: p in plans && p.id == id
    ensures forall p | p in plans && p.id == id :: p in r
  {
    Filter(plans, (p: MeetingPlan) => p.id == id)
  }

  /** `.eq("id", id).single()`: the one plan with that id; no plan, or more
      than one, is an error. */
  function SinglePlan(plans: seq<MeetingPlan>, id: string): (r: Option<MeetingPlan>)
    ensures r.Some? <==> |PlansWithId(plans, id)| == 1
    ensures r.Some? ==> r.value in plans && r.value.id == id
    ensures r.Some? ==> forall p | p in plans && p.id == id :: p == r.value
  {
    var found := PlansWithId(plans, id);
    if |found| == 1 then
      assert forall p | p in plans && p.id == id :: p == found[0] by {
        forall p | p in plans && p.id == id ensures p == found[0] {
          assert p in found;
        }
      }
      Some(found[0])
    else None
  }

  /** Whether `user` is the owner or the partner of `plan`. */
  predicate IsParticipant(plan: MeetingPlan, user: UserId) {
    user == plan.ownerUserId || user == plan.partnerUserId
  }
}
