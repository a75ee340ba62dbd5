/** `POST /api/safety/plan`: create a meeting plan owned by the caller. */
module SafetyPlan {
  import opened Common
  import opened Store

  /** The JSON body: `{ partner_user_id, start_time, location_text?, notes? }`. */
  datatype PlanBody = PlanBody(
    partnerUserId: Field<string>,
    startTime: Field<string>,
    locationText: Field<string>,
    notes: Field<string>)

  datatype PlanInput = PlanInput(
    partnerUserId: UserId,
    startTime: string,
    locationText: Option<string>,
    notes: Option<string>)

  predicate AtLeast10(s: string) { |s| >= 10 }

  /** The zod schema: a UUID partner, a `start_time` of at least 10
      characters, optional nullable location and notes. A body that is not
      JSON reads as `null` and fails. */
  function ParseBody(json: Json<PlanBody>): (r: Option<PlanInput>)
    ensures r.Some? <==>
      json.Object? &&
      json.body.partnerUserId.Val? && IsUuid(json.body.partnerUserId.v) &&
      json.body.startTime.Val? && |json.body.startTime.v| >= 10 &&
      !json.body.locationText.Mistyped? && !json.body.notes.Mistyped?
    ensures r.Some? ==>
      r.value.partnerUserId == json.body.partnerUserId.v &&
      r.value.startTime == json.body.startTime.v &&
      (r.value.locationText.Some? <==> json.body.locationText.Val?) &&
      (r.value.notes.Some? <==> json.body.notes.Val?)
    ensures r.Some? ==>
      r.value.locationText == ValueOf(json.body.locationText) && r.value.notes == ValueOf(json.body.notes)
  {
    if !json.Object? then None
    else
      var b := json.body;
      var partner := Required(b.partnerUserId, IsUuid);
      var start := Required(b.startTime, AtLeast10);
      var location := OptionalNullable(b.locationText);
      var notes := OptionalNullable(b.notes);
      if partner.None? || start.None? || location.None? || notes.None? then None
      else Some(PlanInput(partner.value, start.value, location.value, notes.value))
  }

  /** The row the handler inserts for `owner`. */
  function NewPlan(id: string, owner: UserId, input: PlanInput, start: Millis): (p: MeetingPlan)
    ensures p.id == id && p.ownerUserId == owner && p.partnerUserId == input.partnerUserId
    ensures p.status == "planned" && p.startTime == Some(start)
    ensures p.locationText == input.locationText && p.notes == input.notes
    ensures p.placeName.None? && p.placeAddress.None?
  {
    MeetingPlan(id, owner, input.partnerUserId, Some(start), input.locationText, input.notes,
                None, None, "planned")
  }

  /** The handler. `parseDate` is `new Date(s).getTime()`, `None` for NaN;
      the store issues `newId` for the inserted row, or fails with
      `insertError`. Nothing checks that the partner differs from the caller. */
  method Post(db: Db, session: Option<Caller>, json: Json<PlanBody>,
              parseDate: string -> Option<Millis>, newId: string, insertError: Option<string>)
    returns (r: Reply<string>)
    modifies db`plans
    ensures session.None? ==> r == Err(401, Text("Unauthorized"))
    ensures session.Some? && ParseBody(json).None? ==> r == Err(400, SchemaIssues)
    ensures session.Some? && ParseBody(json).Some? && parseDate(ParseBody(json).value.startTime).None? ==>
              r == Err(400, Text("Invalid date format"))
    ensures r.Ok? <==>
              session.Some? && ParseBody(json).Some? &&
              parseDate(ParseBody(json).value.startTime).Some? && insertError.None?
    ensures r.Ok? ==>
              var input := ParseBody(json).value;
              r.value == newId &&
              db.plans == old(db.plans) +
                [NewPlan(newId, session.value.id, input, parseDate(input.startTime).value)]
    ensures session.Some? && ParseBody(json).Some? && parseDate(ParseBody(json).value.startTime).Some? &&
            insertError.Some? ==>
              r == Err(400, StoreError(insertError.value))
    ensures r.Err? ==> db.plans == old(db.plans)
  {
    if session.None? {
      return Err(401, Text("Unauthorized"));
    }
    var user := session.value;
    var parsed := ParseBody(json);
    if parsed.None? {
      return Err(400, SchemaIssues);
    }
    var input := parsed.value;
    var d := parseDate(input.startTime);
    if d.None? {
      return Err(400, Text("Invalid date format"));
    }
    if insertError.Some? {
      return Err(400, StoreError(insertError.value));
    }
    db.plans := db.plans + [NewPlan(newId, user.id, input, d.value)];
    r := Ok(newId);
  }

  /** The signed-in user's plan list on the safety page: plans the user owns
      or is partner of, newest first. */
  function PlansOf(plans: seq<MeetingPlan>, user: UserId): (r: seq<MeetingPlan>)
    ensures forall p | p in r :: p in plans && IsParticipant(p, user)
    ensures forall p | p in plans && IsParticipant(p, user) :: p in r
  {
    Reverse(Filter(plans, (p: MeetingPlan) => IsParticipant(p, user)))
  }
}
