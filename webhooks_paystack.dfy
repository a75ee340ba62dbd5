/** `POST /api/webhooks/paystack`: records every referenced event as a
    transaction and, on `charge.success`, activates or extends the user's
    subscription by thirty days. */
module WebhooksPaystack {
  import opened Common
  import opened Store
  import opened Paystack
  import opened Subscriptions

  // ---------- the transaction ----------

  /** `Math.round(kobo / 100)`: the nearest whole naira, halves rounded up. */
  function KoboToNaira(kobo: real): (r: int)
    ensures 100.0 * (r as real) - 50.0 <= kobo < 100.0 * (r as real) + 50.0
  {
    (kobo / 100.0 + 0.5).Floor
  }

  /** On whole kobo the rounding is integer division: `(k + 50) / 100`. */
  lemma KoboToNairaWhole(k: int)
    ensures KoboToNaira(k as real) == (k + 50) / 100
  {
    var r := KoboToNaira(k as real);
    assert 100 * r - 50 <= k < 100 * r + 50 by {
      assert 100.0 * (r as real) - 50.0 <= k as real < 100.0 * (r as real) + 50.0;
    }
    var q := (k + 50) / 100;
    assert 100 * q <= k + 50 < 100 * q + 100;
  }

  /** The row upserted for an event with reference `ref`: amount and
      currency fall back to 0 and "NGN" only when missing (`??`). */
  function TransactionOf(e: PaystackEvent, ref: string): (t: Transaction)
    ensures t.providerRef == ref && t.provider == "paystack" && t.status == e.event
    ensures t.userId == e.metadataUserId
    ensures e.amount.None? ==> t.amount == 0
    ensures e.amount.Some? ==> 100.0 * (t.amount as real) - 50.0 <= e.amount.value < 100.0 * (t.amount as real) + 50.0
    ensures e.currency.None? ==> t.currency == "NGN"
    ensures e.currency.Some? ==> t.currency == e.currency.value
  {
    Transaction("paystack", ref, e.event, KoboToNaira(Nullish(e.amount, 0.0)),
                Nullish(e.currency, "NGN"), e.metadataUserId)
  }

  /** The unique constraint on `provider_ref`. */
  predicate RefsUnique(txs: seq<Transaction>) {
    forall i, j | 0 <= i < j < |txs| :: txs[i].providerRef != txs[j].providerRef
  }

  /** `.upsert(t, { onConflict: "provider_ref" })`: the row with the same
      reference is overwritten, or `t` is added. */
  function UpsertByRef(txs: seq<Transaction>, t: Transaction): (r: seq<Transaction>)
    ensures t in r
    ensures forall x | x in r :: x == t || (x in txs && x.providerRef != t.providerRef)
    ensures forall x | x in txs && x.providerRef != t.providerRef :: x in r
  {
    if exists x | x in txs :: x.providerRef == t.providerRef then
      var r := seq(|txs|, i requires 0 <= i < |txs| => if txs[i].providerRef == t.providerRef then t else txs[i]);
      assert forall x | x in txs && x.providerRef != t.providerRef :: x in r by {
        forall x | x in txs && x.providerRef != t.providerRef ensures x in r {
          var i :| 0 <= i < |txs| && txs[i] == x;
          assert r[i] == x;
        }
      }
      var x :| x in txs && x.providerRef == t.providerRef;
      var i :| 0 <= i < |txs| && txs[i] == x;
      assert r[i] == t;
      r
    else
      txs + [t]
  }

  /** After the upsert the reference has exactly one row, the new one, and
      references stay unique. */
  lemma UpsertByRefKeepsUnique(txs: seq<Transaction>, t: Transaction)
    requires RefsUnique(txs)
    ensures RefsUnique(UpsertByRef(txs, t))
  {
    var r := UpsertByRef(txs, t);
    if exists x | x in txs :: x.providerRef == t.providerRef {
      forall i, j | 0 <= i < j < |r| ensures r[i].providerRef != r[j].providerRef {
        assert r[i].providerRef == txs[i].providerRef && r[j].providerRef == txs[j].providerRef;
      }
    } else {
      forall i, j | 0 <= i < j < |r| ensures r[i].providerRef != r[j].providerRef {
        if j == |txs| {
          assert r[i] == txs[i] && txs[i] in txs;
        } else {
          assert r[i] == txs[i] && r[j] == txs[j];
        }
      }
    }
  }

  /** Delivering the same event again changes nothing more; a later event
      with the same reference replaces the earlier one's row. */
  lemma RedeliveryIdempotent(txs: seq<Transaction>, t1: Transaction, t2: Transaction)
    requires t1.providerRef == t2.providerRef
    ensures UpsertByRef(UpsertByRef(txs, t1), t2) == UpsertByRef(txs, t2)
    ensures UpsertByRef(UpsertByRef(txs, t1), t1) == UpsertByRef(txs, t1)
  {
    var once := UpsertByRef(txs, t1);
    assert t1 in once;
    if !(exists x | x in txs :: x.providerRef == t1.providerRef) {
      var a := UpsertByRef(once, t2);
      var b := UpsertByRef(txs, t2);
      assert |a| == |b|;
      forall i | 0 <= i < |a| ensures a[i] == b[i] {
        if i < |txs| {
          assert once[i] == txs[i];
        }
      }
    }
  }

  // ---------- the subscription ----------

  /** The new period starts from the current period end when that is still
      in the future, otherwise from now. */
  function NewPeriodEnd(current: Option<Millis>, now: Millis): (r: Millis)
    ensures r >= now + ThirtyDaysMs
    ensures current.Some? ==> r >= current.value + ThirtyDaysMs
    ensures r == now + ThirtyDaysMs || (current.Some? && r == current.value + ThirtyDaysMs)
  {
    var baseline := if current.Some? && current.value > now then current.value else now;
    baseline + ThirtyDaysMs
  }

  /** `current_period_end` of the first row of the user the store returns
      (`.limit(1)` with no order: here the first in table order). */
  function FirstPeriodEnd(subs: seq<Subscription>, user: UserId): (r: Option<Millis>)
    ensures r.Some? ==> exists s | s in subs :: s.userId == user && s.currentPeriodEnd == r
    ensures (forall s | s in subs :: s.userId != user) ==> r.None?
    ensures forall i | 0 <= i < |subs| && subs[i].userId == user && (forall j | 0 <= j < i :: subs[j].userId != user) ::
              r == subs[i].currentPeriodEnd
  {
    if subs == [] then None
    else if subs[0].userId == user then subs[0].currentPeriodEnd
    else
      var r := FirstPeriodEnd(subs[1..], user);
      assert forall i | 1 <= i < |subs| :: subs[i] == subs[1..][i - 1];
      r
  }

  /** `data.plan.plan_code || data.plan || "monthly"`: a non-empty plan code,
      else the plan value itself when truthy (an object is), else
      "monthly". */
  function ChoosePlan(plan: Option<PlanValue>): (r: PlanValue)
    ensures r != PlanText("")
    ensures plan.Some? && plan.value.PlanObject? && Truthy(plan.value.planCode) ==>
              r == PlanText(plan.value.planCode.value)
    ensures plan.Some? && plan.value.PlanObject? && !Truthy(plan.value.planCode) ==> r == plan.value
    ensures plan.Some? && plan.value.PlanText? && plan.value.text != "" ==> r == plan.value
    ensures plan.None? || plan == Some(PlanText("")) ==> r == PlanText("monthly")
  {
    match plan
    case Some(PlanObject(code)) => if Truthy(code) then PlanText(code.value) else plan.value
    case Some(PlanText(t)) => if t != "" then plan.value else PlanText("monthly")
    case None => PlanText("monthly")
  }

  /** The payload's columns written over an existing row. */
  function Activated(s: Subscription, plan: PlanValue, end: Millis): Subscription {
    s.(provider := Some("paystack"), status := "active", plan := Some(plan), currentPeriodEnd := Some(end))
  }

  /** `.upsert({ user_id, provider, status: "active", plan,
      current_period_end }, { onConflict: "user_id" })`: the user's rows take
      those columns and keep the others; a user without a row gets a new
      one whose other columns are unset. */
  function UpsertByUser(subs: seq<Subscription>, user: UserId, plan: PlanValue, end: Millis): (r: seq<Subscription>)
    ensures (exists s | s in subs :: s.userId == user) ==>
              |r| == |subs| &&
              forall i | 0 <= i < |r| ::
                r[i] == if subs[i].userId == user then Activated(subs[i], plan, end) else subs[i]
    ensures (forall s | s in subs :: s.userId != user) ==>
              r == subs + [Subscription(user, "active", None, Some(end), Some("paystack"), Some(plan),
                                        None, None, None, None)]
  {
    if exists s | s in subs :: s.userId == user then
      seq(|subs|, i requires 0 <= i < |subs| =>
        if subs[i].userId == user then Activated(subs[i], plan, end) else subs[i])
    else
      subs + [Subscription(user, "active", None, Some(end), Some("paystack"), Some(plan), None, None, None, None)]
  }

  /** Whether the event touches subscriptions: `charge.success` with a
      truthy `metadata.user_id`. */
  predicate Activates(e: PaystackEvent) {
    e.event == Some("charge.success") && Truthy(e.metadataUserId)
  }

  /** The handler. `expected` is the HMAC of the body; `txFails`,
      `lookupFails` and `subFails` are failures of the three store calls,
      whose errors the handler does not look at. */
  method Post(db: Db, signature: Option<string>, expected: string, json: Json<PaystackEvent>, now: Millis,
              txFails: bool, lookupFails: bool, subFails: bool)
    returns (r: Reply<()>)
    modifies db`transactions, db`subscriptions
    ensures !SignatureValid(signature, expected) ==> r == Err(401, Text("Bad signature"))
    ensures SignatureValid(signature, expected) && json.NotJson? ==> r == Err(400, Text("Invalid JSON"))
    ensures r.Ok? <==> SignatureValid(signature, expected) && !json.NotJson?
    ensures r.Err? ==> db.transactions == old(db.transactions) && db.subscriptions == old(db.subscriptions)
    ensures r.Ok? ==>
              var e := EventOf(json);
              db.transactions ==
                if Truthy(e.reference) && !txFails
                then UpsertByRef(old(db.transactions), TransactionOf(e, e.reference.value))
                else old(db.transactions)
    ensures r.Ok? ==>
              var e := EventOf(json);
              db.subscriptions ==
                if Activates(e) && !subFails
                then
                  var user := e.metadataUserId.value;
                  var current := if lookupFails then None else FirstPeriodEnd(old(db.subscriptions), user);
                  UpsertByUser(old(db.subscriptions), user, ChoosePlan(e.plan), NewPeriodEnd(current, now))
                else old(db.subscriptions)
  {
    if !SignatureValid(signature, expected) {
      return Err(401, Text("Bad signature"));
    }
    if json.NotJson? {
      return Err(400, Text("Invalid JSON"));
    }
    var e := EventOf(json);
    if Truthy(e.reference) && !txFails {
      db.transactions := UpsertByRef(db.transactions, TransactionOf(e, e.reference.value));
    }
    if Activates(e) {
      var user := e.metadataUserId.value;
      var current := if lookupFails then None else FirstPeriodEnd(db.subscriptions, user);
      var end := NewPeriodEnd(current, now);
      if !subFails {
        db.subscriptions := UpsertByUser(db.subscriptions, user, ChoosePlan(e.plan), end);
      }
    }
    r := Ok(());
  }

  /** This handler writes `current_period_end`, never `expires_at`, which is
      what the entitlement checks read: after it the user has access exactly
      when their newest row already carried an unexpired `expires_at`
      written elsewhere. A first payment through this handler alone grants
      no access. */
  lemma ActivationSeenOnlyThroughExpiresAt(subs: seq<Subscription>, user: Caller, plan: PlanValue,
                                          end: Millis, now: Millis)
    ensures GetActiveSubscription(Some(user), UpsertByUser(subs, user.id, plan, end), now, false).active <==>
              LatestOf(subs, user.id).Some? && LatestOf(subs, user.id).value.expiresAt.Some? &&
              LatestOf(subs, user.id).value.expiresAt.value > now
  {
    var after := UpsertByUser(subs, user.id, plan, end);
    var keep := (s: Subscription) => s.userId == user.id;
    if exists s | s in subs :: s.userId == user.id {
      SameLastIndex(subs, after, keep);
      var i := LastIndex(subs, keep);
      assert after[i] == Activated(subs[i], plan, end);
    } else {
      assert after[|after| - 1].userId == user.id;
      assert LatestOf(after, user.id) == Some(after[|after| - 1]);
    }
  }

  /** Two payments while a period is running add up: the second extends
      from the end the first set. */
  lemma ExtensionsAccumulate(current: Millis, now: Millis, later: Millis)
    requires current > now && now <= later < current + ThirtyDaysMs
    ensures NewPeriodEnd(Some(NewPeriodEnd(Some(current), now)), later) == current + 2 * ThirtyDaysMs
  {
  }
}
