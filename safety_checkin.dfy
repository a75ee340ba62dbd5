/** `POST /api/safety/checkin`: a participant of a plan appends a check-in. */
module SafetyCheckin {
  import opened Common
  import opened Store

  /** The wire name of each check-in kind. */
  function KindName(k: CheckInKind): string {
    match k
    case OnTheWay => "on_the_way"
    case Arrived => "arrived"
    case Safe => "safe"
    case Cancel => "cancel"
  }

  /** `z.enum(["on_the_way", "arrived", "safe", "cancel"])`. */
  function ParseKind(s: string): (r: Option<CheckInKind>)
    ensures r.Some? ==> KindName(r.value) == s
  {
    if s == "on_the_way" then Some(OnTheWay)
    else if s == "arrived" then Some(Arrived)
    else if s == "safe" then Some(Safe)
    else if s == "cancel" then Some(Cancel)
    else None
  }

  /** The enum accepts exactly the four wire names, and each names one kind. */
  lemma ParseKindExact(s: string, k: CheckInKind)
    ensures ParseKind(s) == Some(k) <==> s == KindName(k)
  {
    match k
    case OnTheWay =>
    case Arrived =>
    case Safe =>
    case Cancel =>
  }

  /** The JSON body: `{ plan_id, kind, note?, lat?, lng? }`. */
  datatype CheckinBody = CheckinBody(
    planId: Field<string>,
    kind: Field<string>,
    note: Field<string>,
    lat: Field<real>,
    lng: Field<real>)

  datatype CheckinInput = CheckinInput(
    planId: string,
    kind: CheckInKind,
    note: Option<string>,
    lat: Option<real>,
    lng: Option<real>)

  predicate IsKindName(s: string) { ParseKind(s).Some? }

  /** The zod schema: a UUID plan id, a known kind, and optional nullable
      note and coordinates. */
  function ParseBody(json: Json<CheckinBody>): (r: Option<CheckinInput>)
    ensures r.Some? <==>
      json.Object? &&
      json.body.planId.Val? && IsUuid(json.body.planId.v) &&
      json.body.kind.Val? && ParseKind(json.body.kind.v).Some? &&
      !json.body.note.Mistyped? && !json.body.lat.Mistyped? && !json.body.lng.Mistyped?
    ensures r.Some? ==>
      r.value.planId == json.body.planId.v &&
      KindName(r.value.kind) == json.body.kind.v &&
      (r.value.note.Some? <==> json.body.note.Val?) &&
      (r.value.lat.Some? <==> json.body.lat.Val?) &&
      (r.value.lng.Some? <==> json.body.lng.Val?)
    ensures r.Some? ==>
      r.value.note == ValueOf(json.body.note) &&
      r.value.lat == ValueOf(json.body.lat) && r.value.lng == ValueOf(json.body.lng)
  {
    if !json.Object? then None
    else
      var b := json.body;
      var plan := Required(b.planId, IsUuid);
      var kind := Required(b.kind, IsKindName);
      var note := OptionalNullable(b.note);
      var lat := OptionalNullable(b.lat);
      var lng := OptionalNullable(b.lng);
      if plan.None? || kind.None? || note.None? || lat.None? || lng.None? then None
      else Some(CheckinInput(plan.value, ParseKind(kind.value).value, note.value, lat.value, lng.value))
  }

  /** The handler. `lookupFails` is an error of the plan query; the insert
      fails with `insertError`. Earlier check-ins of the plan are never read:
      any kind is accepted in any order, as often as it is sent. */
  method Post(db: Db, session: Option<Caller>, json: Json<CheckinBody>,
              lookupFails: bool, insertError: Option<string>)
    returns (r: Reply<()>)
    modifies db`checkins
    ensures session.None? ==> r == Err(401, Text("Unauthorized"))
    ensures session.Some? && ParseBody(json).None? ==> r == Err(400, SchemaIssues)
    ensures session.Some? && ParseBody(json).Some? &&
            (lookupFails || SinglePlan(db.plans, ParseBody(json).value.planId).None?) ==>
              r == Err(404, Text("Plan not found"))
    ensures session.Some? && ParseBody(json).Some? && !lookupFails &&
            SinglePlan(db.plans, ParseBody(json).value.planId).Some? &&
            !IsParticipant(SinglePlan(db.plans, ParseBody(json).value.planId).value, session.value.id) ==>
              r == Err(403, Text("Not a participant"))
    ensures r.Ok? <==>
              session.Some? && ParseBody(json).Some? && !lookupFails &&
              SinglePlan(db.plans, ParseBody(json).value.planId).Some? &&
              IsParticipant(SinglePlan(db.plans, ParseBody(json).value.planId).value, session.value.id) &&
              insertError.None?
    ensures r.Ok? ==>
              var input := ParseBody(json).value;
              db.checkins == old(db.checkins) +
                [CheckIn(input.planId, session.value.id, input.kind, input.note, input.lat, input.lng)]
    ensures session.Some? && ParseBody(json).Some? && !lookupFails &&
            SinglePlan(db.plans, ParseBody(json).value.planId).Some? &&
            IsParticipant(SinglePlan(db.plans, ParseBody(json).value.planId).value, session.value.id) &&
            insertError.Some? ==>
              r == Err(400, StoreError(insertError.value))
    ensures r.Err? ==> db.checkins == old(db.checkins)
  {
    if session.None? {
      return Err(401, Text("Unauthorized"));
    }
    var user := session.value;
    var parsed := ParseBody(json);
    if parsed.None? {
      return Err(400, SchemaIssues);
    }
    var input := parsed.value;
    var plan := SinglePlan(db.plans, input.planId);
    if lookupFails || plan.None? {
      return Err(404, Text("Plan not found"));
    }
    if user.id != plan.value.ownerUserId && user.id != plan.value.partnerUserId {
      return Err(403, Text("Not a participant"));
    }
    if insertError.Some? {
      return Err(400, StoreError(insertError.value));
    }
    db.checkins := db.checkins + [CheckIn(input.planId, user.id, input.kind, input.note, input.lat, input.lng)];
    r := Ok(());
  }
}
