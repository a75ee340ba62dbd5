/** `POST /api/safety/panic`: record a panic event, then alert the caller's
    trusted contacts by email and SMS and count the alerts sent. */
module SafetyPanic {
  import opened Common
  import opened Store

  /** At most this many trusted contacts are loaded. */
  const ContactLimit: nat := 20

  /** The JSON body: `{ plan_id?, note?, lat?, lng? }`. */
  datatype PanicBody = PanicBody(planId: Field<string>, note: Field<string>, lat: Field<real>, lng: Field<real>)

  datatype PanicInput = PanicInput(planId: Option<string>, note: Option<string>, lat: Option<real>, lng: Option<real>)

  predicate AnyString(s: string) { true }
  predicate AnyNumber(x: real) { true }

  /** The zod schema: every property optional and none nullable. A body that
      is not JSON reads as `{}` and passes. */
  function ParseBody(json: Json<PanicBody>): (r: Option<PanicInput>)
    ensures json.NotJson? ==> r == Some(PanicInput(None, None, None, None))
    ensures json.NonObject? ==> r.None?
    ensures json.Object? ==>
      (r.Some? <==>
        (json.body.planId.Absent? || (json.body.planId.Val? && IsUuid(json.body.planId.v))) &&
        (json.body.note.Absent? || json.body.note.Val?) &&
        (json.body.lat.Absent? || json.body.lat.Val?) &&
        (json.body.lng.Absent? || json.body.lng.Val?))
    ensures r.Some? && json.Object? ==>
      (r.value.planId.Some? <==> json.body.planId.Val?) &&
      (r.value.note.Some? <==> json.body.note.Val?) &&
      (r.value.lat.Some? <==> json.body.lat.Val?) &&
      (r.value.lng.Some? <==> json.body.lng.Val?)
    ensures r.Some? && json.Object? ==>
      r.value.planId == ValueOf(json.body.planId) && r.value.note == ValueOf(json.body.note) &&
      r.value.lat == ValueOf(json.body.lat) && r.value.lng == ValueOf(json.body.lng)
  {
    match json
    case NotJson => Some(PanicInput(None, None, None, None))
    case NonObject => None
    case Object(b) =>
      var plan := Optional(b.planId, IsUuid);
      var note := Optional(b.note, AnyString);
      var lat := Optional(b.lat, AnyNumber);
      var lng := Optional(b.lng, AnyNumber);
      if plan.None? || note.None? || lat.None? || lng.None? then None
      else Some(PanicInput(plan.value, note.value, lat.value, lng.value))
  }

  /** The row inserted for the caller: status "open", absent fields null. */
  function NewPanic(id: string, user: UserId, input: PanicInput, now: Millis): (e: PanicEvent)
    ensures e.id == id && e.userId == user && e.status == "open" && e.createdAt == now
    ensures e.planId == input.planId && e.note == input.note && e.lat == input.lat && e.lng == input.lng
    ensures e.resolvedAt.None? && e.resolvedBy.None?
  {
    PanicEvent(id, user, input.planId, input.note, input.lat, input.lng, "open", now, None, None)
  }

  // ---------- the alert ----------

  /** The plan line of the alert: start time (if any), place name ("Unknown
      place" when absent), place address (if truthy). */
  datatype PlanContext = PlanContext(when: Option<Millis>, placeName: string, placeAddress: Option<string>)

  /** The parts of the alert text that are present. The text itself (date
      formatting, site URL) is not modelled. */
  datatype Alert = Alert(
    sender: string,
    at: Millis,
    plan: Option<PlanContext>,
    note: Option<string>,
    location: Option<(real, real)>)

  datatype Notification =
    | Email(to: string, greeting: string, alert: Alert)
    | Sms(to: string, sender: string, plan: Option<PlanContext>, location: Option<(real, real)>)

  /** `.eq("id", plan_id).maybeSingle()`: no row is `null`, more than one is
      an error. The place name falls back to "Unknown place" only when it is
      missing (`??`); the address is shown only when truthy. */
  function PlanContextOf(plans: seq<MeetingPlan>, planId: Option<string>, lookupFails: bool): (r: Option<PlanContext>)
    ensures r.Some? <==> Truthy(planId) && !lookupFails && |PlansWithId(plans, planId.value)| == 1
    ensures r.Some? ==>
              forall p | p in plans && p.id == planId.value ::
                r.value.when == p.startTime &&
                r.value.placeName == (if p.placeName.Some? then p.placeName.value else "Unknown place") &&
                r.value.placeAddress == (if Truthy(p.placeAddress) then p.placeAddress else None)
  {
    if !Truthy(planId) || lookupFails then None
    else
      var found := PlansWithId(plans, planId.value);
      if |found| != 1 then None
      else
        var p := found[0];
        assert forall q | q in plans && q.id == planId.value :: q == p by {
          forall q | q in plans && q.id == planId.value ensures q == p {
            assert q in found;
          }
        }
        Some(PlanContext(p.startTime, Nullish(p.placeName, "Unknown place"),
                         if Truthy(p.placeAddress) then p.placeAddress else None))
  }

  /** `lat && lng`: both present and non-zero. */
  function MapLink(lat: Option<real>, lng: Option<real>): (r: Option<(real, real)>)
    ensures r.Some? <==> lat.Some? && lng.Some? && lat.value != 0.0 && lng.value != 0.0
    ensures r.Some? ==> r.value == (lat.value, lng.value)
  {
    if lat.Some? && lng.Some? && lat.value != 0.0 && lng.value != 0.0 then Some((lat.value, lng.value)) else None
  }

  // ---------- the fan-out ----------

  predicate EmailEligible(c: TrustedContact) { c.notifyEmail && Truthy(c.email) }
  predicate SmsEligible(c: TrustedContact) { c.notifySms && Truthy(c.phone) }

  /** The number of contacts an email goes to: as many as there are
      contacts that want email and have an address. */
  function EmailCount(cs: seq<TrustedContact>): (n: nat)
    ensures n <= |cs|
  {
    if cs == [] then 0
    else EmailCount(cs[..|cs| - 1]) + (if EmailEligible(cs[|cs| - 1]) then 1 else 0)
  }

  /** The number of contacts an SMS goes to: as many as there are contacts
      that want SMS and have a phone. */
  function SmsCount(cs: seq<TrustedContact>): (n: nat)
    ensures n <= |cs|
  {
    if cs == [] then 0
    else SmsCount(cs[..|cs| - 1]) + (if SmsEligible(cs[|cs| - 1]) then 1 else 0)
  }

  /** The messages one contact gets: an email, then an SMS, each when the
      contact asked for it and has the address. */
  function MessagesFor(c: TrustedContact, alert: Alert, smsSender: string): (ms: seq<Notification>)
    ensures |ms| == (if EmailEligible(c) then 1 else 0) + (if SmsEligible(c) then 1 else 0)
  {
    (if EmailEligible(c) then [Email(c.email.value, OrElse(c.name, ""), alert)] else []) +
    (if SmsEligible(c) then [Sms(c.phone.value, smsSender, alert.plan, alert.location)] else [])
  }

  /** Every message sent, contact by contact: one per eligible channel of
      each contact. */
  function Dispatch(cs: seq<TrustedContact>, alert: Alert, smsSender: string): (ms: seq<Notification>)
    ensures |ms| == EmailCount(cs) + SmsCount(cs)
  {
    if cs == [] then []
    else Dispatch(cs[..|cs| - 1], alert, smsSender) + MessagesFor(cs[|cs| - 1], alert, smsSender)
  }

  /** The loop of the handler. Both senders always succeed, so each eligible
      channel of each contact is sent and counted. */
  method FanOut(contacts: seq<TrustedContact>, alert: Alert, smsSender: string)
    returns (emails: nat, sms: nat, sent: seq<Notification>)
    ensures emails == EmailCount(contacts) && sms == SmsCount(contacts)
    ensures sent == Dispatch(contacts, alert, smsSender)
  {
    emails, sms, sent := 0, 0, [];
    for i := 0 to |contacts|
      invariant emails == EmailCount(contacts[..i]) && sms == SmsCount(contacts[..i])
      invariant sent == Dispatch(contacts[..i], alert, smsSender)
    {
      var c := contacts[i];
      ghost var before, e0, s0 := sent, emails, sms;
      if c.notifyEmail && Truthy(c.email) {
        sent := sent + [Email(c.email.value, OrElse(c.name, ""), alert)];
        emails := emails + 1;
      }
      ghost var mailed := sent;
      if c.notifySms && Truthy(c.phone) {
        sent := sent + [Sms(c.phone.value, smsSender, alert.plan, alert.location)];
        sms := sms + 1;
      }
      assert sent == before + MessagesFor(c, alert, smsSender) by {
        assert mailed == before + (if EmailEligible(c) then [Email(c.email.value, OrElse(c.name, ""), alert)] else []);
      }
      assert emails == e0 + (if EmailEligible(c) then 1 else 0);
      assert sms == s0 + (if SmsEligible(c) then 1 else 0);
      PrefixStep(contacts, i, alert, smsSender);
    }
    assert contacts[..|contacts|] == contacts;
  }

  /** One more contact adds its own counts and messages. */
  lemma PrefixStep(contacts: seq<TrustedContact>, i: nat, alert: Alert, smsSender: string)
    requires i < |contacts|
    ensures var c := contacts[i];
            EmailCount(contacts[..i + 1]) == EmailCount(contacts[..i]) + (if EmailEligible(c) then 1 else 0) &&
            SmsCount(contacts[..i + 1]) == SmsCount(contacts[..i]) + (if SmsEligible(c) then 1 else 0) &&
            Dispatch(contacts[..i + 1], alert, smsSender) ==
              Dispatch(contacts[..i], alert, smsSender) + MessagesFor(c, alert, smsSender)
  {
    assert contacts[..i + 1][..i] == contacts[..i];
  }

  /** The caller's trusted contacts, in table order (`.eq("user_id", me.id)`). */
  function OwnContacts(contacts: seq<TrustedContact>, user: UserId): seq<TrustedContact> {
    Filter(contacts, (c: TrustedContact) => c.userId == user)
  }

  /** The contacts the handler loads (`.limit(20)`): the first 20 of the
      caller's, or all of them when there are no more than 20; none when the
      query fails (`tc.data || []`). */
  function Recipients(contacts: seq<TrustedContact>, user: UserId, queryFails: bool): (r: seq<TrustedContact>)
    ensures |r| <= ContactLimit
    ensures forall c | c in r :: c in contacts && c.userId == user
    ensures queryFails ==> r == []
    ensures !queryFails && |OwnContacts(contacts, user)| <= ContactLimit ==> r == OwnContacts(contacts, user)
    ensures !queryFails && |OwnContacts(contacts, user)| > ContactLimit ==>
              |r| == ContactLimit && r == OwnContacts(contacts, user)[..ContactLimit]
  {
    if queryFails then [] else Take(OwnContacts(contacts, user), ContactLimit)
  }

  datatype PanicResult = PanicResult(id: string, emails: nat, sms: nat)

  /** The handler. The store issues `newId` for the event, or fails with
      `insertError`; `contactsFail` and `planLookupFails` are errors of the
      two later queries, which only shrink what is sent. `sent` is what went
      to the email and SMS senders. */
  method Post(db: Db, session: Option<Caller>, json: Json<PanicBody>, now: Millis,
              newId: string, insertError: Option<string>, contactsFail: bool, planLookupFails: bool)
    returns (r: Reply<PanicResult>, sent: seq<Notification>)
    modifies db`panics
    ensures session.None? ==> r == Err(401, Text("Unauthorized"))
    ensures session.Some? && ParseBody(json).None? ==> r == Err(400, SchemaIssues)
    ensures session.Some? && ParseBody(json).Some? && insertError.Some? ==>
              r == Err(400, StoreError(insertError.value))
    ensures r.Ok? <==> session.Some? && ParseBody(json).Some? && insertError.None?
    ensures r.Err? ==> sent == [] && db.panics == old(db.panics)
    ensures r.Ok? ==>
              var me := session.value;
              var input := ParseBody(json).value;
              var targets := Recipients(db.contacts, me.id, contactsFail);
              var alert := Alert(OrElse(me.email, "your contact"), now,
                                 PlanContextOf(db.plans, input.planId, planLookupFails),
                                 if Truthy(input.note) then input.note else None,
                                 MapLink(input.lat, input.lng));
              db.panics == old(db.panics) + [NewPanic(newId, me.id, input, now)] &&
              r.value == PanicResult(newId, EmailCount(targets), SmsCount(targets)) &&
              sent == Dispatch(targets, alert, OrElse(me.email, "contact"))
  {
    sent := [];
    if session.None? {
      return Err(401, Text("Unauthorized")), sent;
    }
    var me := session.value;
    var parsed := ParseBody(json);
    if parsed.None? {
      return Err(400, SchemaIssues), sent;
    }
    var input := parsed.value;

    // 1) the event is recorded before anything is sent
    if insertError.Some? {
      return Err(400, StoreError(insertError.value)), sent;
    }
    db.panics := db.panics + [NewPanic(newId, me.id, input, now)];

    // 2) the caller's trusted contacts
    var targets := Recipients(db.contacts, me.id, contactsFail);

    // 3) the plan line, when the plan can be read
    var planText: Option<PlanContext> := None;
    if Truthy(input.planId) {
      planText := PlanContextOf(db.plans, input.planId, planLookupFails);
    }

    var alert := Alert(OrElse(me.email, "your contact"), now, planText,
                       if Truthy(input.note) then input.note else None,
                       MapLink(input.lat, input.lng));
    var emails, sms;
    emails, sms, sent := FanOut(targets, alert, OrElse(me.email, "contact"));
    r := Ok(PanicResult(newId, emails, sms));
  }

  // ---------- properties of the fan-out ----------

  /** Counting splits over a split contact list. */
  lemma {:induction false} CountsAppend(a: seq<TrustedContact>, b: seq<TrustedContact>)
    ensures EmailCount(a + b) == EmailCount(a) + EmailCount(b)
    ensures SmsCount(a + b) == SmsCount(a) + SmsCount(b)
    decreases |b|
  {
    if b == [] {
      assert a + b == a;
    } else {
      var b' := b[..|b| - 1];
      assert (a + b)[..|a + b| - 1] == a + b';
      CountsAppend(a, b');
    }
  }

  /** Failure isolation: what one part of the list gets does not depend on
      the rest of the list. */
  lemma {:induction false} DispatchAppend(a: seq<TrustedContact>, b: seq<TrustedContact>, alert: Alert, s: string)
    ensures Dispatch(a + b, alert, s) == Dispatch(a, alert, s) + Dispatch(b, alert, s)
    decreases |b|
  {
    if b == [] {
      assert a + b == a;
    } else {
      var b' := b[..|b| - 1];
      assert (a + b)[..|a + b| - 1] == a + b';
      assert (a + b)[|a + b| - 1] == b[|b| - 1];
      DispatchAppend(a, b', alert, s);
    }
  }

  /** The email count is exactly the number of emails sent. */
  lemma {:induction false} DispatchCounts(cs: seq<TrustedContact>, alert: Alert, s: string)
    ensures |Filter(Dispatch(cs, alert, s), (n: Notification) => n.Email?)| == EmailCount(cs)
  {
    if cs != [] {
      var init := cs[..|cs| - 1];
      var c := cs[|cs| - 1];
      DispatchCounts(init, alert, s);
      FilterAppend(Dispatch(init, alert, s), MessagesFor(c, alert, s), (n: Notification) => n.Email?);
    }
  }

  /** Every message goes to an address the contact registered, on a channel
      the contact opted into. */
  lemma {:induction false} DispatchTargets(cs: seq<TrustedContact>, alert: Alert, s: string, n: Notification)
    requires n in Dispatch(cs, alert, s)
    ensures n.Email? ==> exists c | c in cs :: EmailEligible(c) && n.to == c.email.value
    ensures n.Sms? ==> exists c | c in cs :: SmsEligible(c) && n.to == c.phone.value
  {
    var init := cs[..|cs| - 1];
    var c := cs[|cs| - 1];
    if n in Dispatch(init, alert, s) {
      DispatchTargets(init, alert, s, n);
      assert forall d | d in init :: d in cs;
    } else {
      assert n in MessagesFor(c, alert, s);
      assert c in cs;
    }
  }

  /** No email goes out iff no contact wants email and has an address. */
  lemma {:induction false} NoEmailIffNoneEligible(cs: seq<TrustedContact>)
    ensures EmailCount(cs) == 0 <==> forall c | c in cs :: !EmailEligible(c)
  {
    if cs != [] {
      var init := cs[..|cs| - 1];
      NoEmailIffNoneEligible(init);
      assert forall c | c in cs :: c in init || c == cs[|cs| - 1];
    }
  }

  /** No SMS goes out iff no contact wants SMS and has a phone. */
  lemma {:induction false} NoSmsIffNoneEligible(cs: seq<TrustedContact>)
    ensures SmsCount(cs) == 0 <==> forall c | c in cs :: !SmsEligible(c)
  {
    if cs != [] {
      var init := cs[..|cs| - 1];
      NoSmsIffNoneEligible(init);
      assert forall c | c in cs :: c in init || c == cs[|cs| - 1];
    }
  }

  /** At most 20 of each are sent. */
  lemma CountsBounded(contacts: seq<TrustedContact>, user: UserId, queryFails: bool)
    ensures EmailCount(Recipients(contacts, user, queryFails)) <= ContactLimit
    ensures SmsCount(Recipients(contacts, user, queryFails)) <= ContactLimit
  {
  }
}
