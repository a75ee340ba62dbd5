/** `POST /api/paystack/webhook`: on `charge.success`, finds the payer by
    email and gives their newest subscription row (or a new one) thirty
    days from now. */
module PaystackWebhook {
  import opened Common
  import opened Store
  import opened Paystack
  import opened Subscriptions

  /** `{ ok: true, ignored: true }` or `{ ok: true }`. */
  datatype Outcome = Ignored | Applied

  const PlanCode: string := "ng-monthly-5000"
  const DefaultAmountKobo: real := 500000.0

  /** `.from("profiles").select("id").eq("email", email).limit(1)`: the id of
      the first profile with that email. A profile without an `id` column
      makes the select fail, which the handler treats like no profile. */
  function UserIdByEmail(profiles: seq<Profile>, email: string): (r: Option<UserId>)
    ensures r.Some? ==> exists p | p in profiles :: p.email == Some(email) && p.id == r
    ensures (forall p | p in profiles :: p.email != Some(email)) ==> r.None?
    ensures forall i | 0 <= i < |profiles| && profiles[i].email == Some(email) &&
                       (forall j | 0 <= j < i :: profiles[j].email != Some(email)) ::
              r == profiles[i].id
  {
    if profiles == [] then None
    else if profiles[0].email == Some(email) then profiles[0].id
    else
      var r := UserIdByEmail(profiles[1..], email);
      assert forall i | 1 <= i < |profiles| :: profiles[i] == profiles[1..][i - 1];
      r
  }

  /** The payload's columns written over a row. */
  function Paid(s: Subscription, reference: string, amountKobo: real, now: Millis): Subscription {
    s.(planCode := Some(PlanCode), amountKobo := Some(amountKobo), status := "active",
       reference := Some(reference), startsAt := Some(now), expiresAt := Some(now + ThirtyDaysMs))
  }

  /** The position of the user's newest row, or -1 when the user has none
      (`.eq("user_id").order(created_at desc).limit(1)`). */
  function NewestIndex(subs: seq<Subscription>, user: UserId): (i: int)
    ensures -1 <= i < |subs|
    ensures i >= 0 ==> subs[i].userId == user
    ensures forall j | i < j < |subs| :: subs[j].userId != user
  {
    LastIndex(subs, (s: Subscription) => s.userId == user)
  }

  /** The row `insert(payload)` starts from: the user's, with every other
      column empty. */
  function BlankRow(user: UserId): Subscription {
    Subscription(user, "", None, None, None, None, None, None, None, None)
  }

  /** The subscriptions after the payment: the user's newest row (found
      unless `existingFails`) takes the payload, otherwise a new row with it
      is added. */
  function Renew(subs: seq<Subscription>, user: UserId, reference: string, amountKobo: real, now: Millis,
                 existingFails: bool): (r: seq<Subscription>)
    ensures |subs| <= |r| <= |subs| + 1
    ensures forall i | 0 <= i < |subs| && subs[i].userId != user :: r[i] == subs[i]
    ensures |r| == |subs| + 1 ==> r[|subs|].userId == user
    ensures LatestOf(r, user).Some? &&
            LatestOf(r, user).value.status == "active" &&
            LatestOf(r, user).value.expiresAt == Some(now + ThirtyDaysMs) &&
            LatestOf(r, user).value.reference == Some(reference)
    ensures !existingFails && NewestIndex(subs, user) >= 0 ==>
              var i := NewestIndex(subs, user);
              r == subs[i := Paid(subs[i], reference, amountKobo, now)]
    ensures existingFails || NewestIndex(subs, user) < 0 ==>
              r == subs + [Paid(BlankRow(user), reference, amountKobo, now)]
  {
    var keep := (s: Subscription) => s.userId == user;
    var i := if existingFails then -1 else NewestIndex(subs, user);
    if i >= 0 then
      var r := subs[i := Paid(subs[i], reference, amountKobo, now)];
      assert LastIndex(r, keep) == i by {
        SameLastIndex(subs, r, keep);
      }
      r
    else
      var r := subs + [Paid(BlankRow(user), reference, amountKobo, now)];
      assert LastIndex(r, keep) == |subs|;
      r
  }

  /** The handler. `expected` is the HMAC of the body; `profileFails` is a
      failure of the profile lookup, `existingFails` one of the lookup of
      the user's newest subscription (its error is not looked at), and
      `writeError` one of the update or insert. */
  method Post(db: Db, signature: Option<string>, expected: string, json: Json<PaystackEvent>, now: Millis,
              profileFails: bool, existingFails: bool, writeError: Option<string>)
    returns (r: Reply<Outcome>)
    modifies db`subscriptions
    ensures !SignatureValid(signature, expected) ==> r == Err(401, Text("Bad signature"))
    ensures SignatureValid(signature, expected) && json.NotJson? ==> r == Err(500, Thrown)
    ensures SignatureValid(signature, expected) && !json.NotJson? &&
            EventOf(json).event != Some("charge.success") ==>
              r == Ok(Ignored)
    ensures SignatureValid(signature, expected) && !json.NotJson? &&
            EventOf(json).event == Some("charge.success") &&
            !(Truthy(EventOf(json).customerEmail) && Truthy(EventOf(json).reference)) ==>
              r == Err(400, Text("Missing fields"))
    ensures SignatureValid(signature, expected) && !json.NotJson? &&
            EventOf(json).event == Some("charge.success") &&
            Truthy(EventOf(json).customerEmail) && Truthy(EventOf(json).reference) &&
            (profileFails || UserIdByEmail(old(db.profiles), EventOf(json).customerEmail.value).None?) ==>
              r == Err(404, Text("User not found"))
    ensures SignatureValid(signature, expected) && json.Object? &&
            json.body.event == Some("charge.success") &&
            Truthy(json.body.customerEmail) && Truthy(json.body.reference) &&
            !profileFails && UserIdByEmail(old(db.profiles), json.body.customerEmail.value).Some? &&
            writeError.Some? ==>
              r == Err(500, StoreError(writeError.value))
    ensures r == Ok(Applied) <==>
              SignatureValid(signature, expected) && json.Object? &&
              json.body.event == Some("charge.success") &&
              Truthy(json.body.customerEmail) && Truthy(json.body.reference) &&
              !profileFails && UserIdByEmail(old(db.profiles), json.body.customerEmail.value).Some? &&
              writeError.None?
    ensures r != Ok(Applied) ==> db.subscriptions == old(db.subscriptions)
    ensures r == Ok(Applied) ==>
              var e := json.body;
              db.subscriptions ==
                Renew(old(db.subscriptions), UserIdByEmail(old(db.profiles), e.customerEmail.value).value,
                      e.reference.value, if e.amount.Some? then e.amount.value else DefaultAmountKobo,
                      now, existingFails)
  {
    if !SignatureValid(signature, expected) {
      return Err(401, Text("Bad signature"));
    }
    if json.NotJson? {
      // JSON.parse throws and nothing catches it
      return Err(500, Thrown);
    }
    var e := EventOf(json);
    if e.event != Some("charge.success") {
      return Ok(Ignored);
    }
    if !Truthy(e.customerEmail) || !Truthy(e.reference) {
      return Err(400, Text("Missing fields"));
    }
    var user := UserIdByEmail(db.profiles, e.customerEmail.value);
    if profileFails || user.None? {
      return Err(404, Text("User not found"));
    }
    if writeError.Some? {
      return Err(500, StoreError(writeError.value));
    }
    var amount := if e.amount.Some? then e.amount.value else DefaultAmountKobo;
    db.subscriptions := Renew(db.subscriptions, user.value, e.reference.value, amount, now, existingFails);
    r := Ok(Applied);
  }

  /** After a payment the payer has access for the thirty days that follow,
      and not after. */
  lemma PaymentGrantsThirtyDays(subs: seq<Subscription>, user: Caller, reference: string, amountKobo: real,
                                now: Millis, existingFails: bool, later: Millis)
    ensures GetActiveSubscription(Some(user), Renew(subs, user.id, reference, amountKobo, now, existingFails),
                                  later, false).active
            <==> later < now + ThirtyDaysMs
  {
  }

  /** The expiry is reset, not extended: a payment while a longer period is
      still running shortens it to thirty days from now. */
  lemma RenewalResetsExpiry(subs: seq<Subscription>, user: UserId, reference: string, amountKobo: real,
                            now: Millis, existingFails: bool)
    requires LatestOf(subs, user).Some? && LatestOf(subs, user).value.expiresAt.Some?
    requires LatestOf(subs, user).value.expiresAt.value > now + ThirtyDaysMs
    ensures LatestOf(Renew(subs, user, reference, amountKobo, now, existingFails), user).value.expiresAt.value <
            LatestOf(subs, user).value.expiresAt.value
  {
  }
}
