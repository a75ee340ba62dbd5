/** `getActiveSubscription`: whether the signed-in user's newest
    subscription row is active and unexpired. */
module Subscriptions {
  import opened Common
  import opened Store

  /** The columns the entitlement checks select: `status, expires_at`. */
  datatype SubRow = SubRow(status: string, expiresAt: Option<Millis>)

  /** `{ active, info? }`. */
  datatype ActiveSubscription = ActiveSubscription(active: bool, info: Option<SubRow>)

  function RowOf(s: Subscription): SubRow {
    SubRow(s.status, s.expiresAt)
  }

  /** A row grants access when its status is "active" and its `expires_at`
      is set and strictly later than now. */
  predicate IsActive(row: SubRow, now: Millis) {
    row.status == "active" && row.expiresAt.Some? && row.expiresAt.value > now
  }

  /** The user's newest subscription row. */
  function LatestOf(subs: seq<Subscription>, user: UserId): (r: Option<Subscription>)
    ensures r.Some? ==> r.value in subs && r.value.userId == user
    ensures r.None? <==> forall s | s in subs :: s.userId != user
  {
    Latest(subs, (s: Subscription) => s.userId == user)
  }

  /** `getActiveSubscription()` for `user` at time `now`; the query fails
      when `queryError` holds. */
  function GetActiveSubscription(user: Option<Caller>, subs: seq<Subscription>, now: Millis,
                                 queryError: bool): (r: ActiveSubscription)
    ensures user.None? ==> r == ActiveSubscription(false, None)
    ensures r.info.Some? <==> user.Some? && !queryError && LatestOf(subs, user.value.id).Some?
    ensures r.info.Some? ==> r.info.value == RowOf(LatestOf(subs, user.value.id).value)
    ensures r.active ==> r.info.Some? && IsActive(r.info.value, now)
    ensures r.info.Some? && IsActive(r.info.value, now) ==> r.active
  {
    if user.None? then ActiveSubscription(false, None)
    else
      var latest := LatestOf(subs, user.value.id);
      if queryError || latest.None? then ActiveSubscription(false, None)
      else
        var sub := RowOf(latest.value);
        ActiveSubscription(IsActive(sub, now), Some(sub))
  }

  /** Access needs a row of the user's own that is active and unexpired. */
  lemma ActiveHasOwnRow(user: Caller, subs: seq<Subscription>, now: Millis, queryError: bool)
    requires GetActiveSubscription(Some(user), subs, now, queryError).active
    ensures exists s | s in subs :: s.userId == user.id && s.status == "active" &&
                                    s.expiresAt.Some? && s.expiresAt.value > now
  {
    var s := LatestOf(subs, user.id).value;
    assert s in subs;
  }

  /** Only the newest row counts: a new row of the user decides alone,
      whatever older rows say. */
  lemma NewestRowDecides(user: Caller, subs: seq<Subscription>, s: Subscription, now: Millis)
    requires s.userId == user.id
    ensures GetActiveSubscription(Some(user), subs + [s], now, false).active == IsActive(RowOf(s), now)
  {
    assert LatestOf(subs + [s], user.id) == Some(s);
  }

  /** Rows of other users never change the answer. */
  lemma OtherUsersIgnored(user: Caller, subs: seq<Subscription>, others: seq<Subscription>, now: Millis,
                          queryError: bool)
    requires forall s | s in others :: s.userId != user.id
    ensures GetActiveSubscription(Some(user), subs + others, now, queryError) ==
            GetActiveSubscription(Some(user), subs, now, queryError)
  {
    LatestOfAppend(subs, others, (s: Subscription) => s.userId == user.id);
  }

  /** A row expiring exactly now has lapsed; one without `expires_at` never
      grants access. */
  lemma ExpiryBoundary(row: SubRow, now: Millis)
    ensures row.expiresAt == Some(now) ==> !IsActive(row, now)
    ensures row.expiresAt.None? ==> !IsActive(row, now)
  {
  }
}
