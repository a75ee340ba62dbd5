/** `requirePaidUser`: the signed-in user and whether they have paid. */
module Entitlements {
  import opened Common
  import opened Store
  import opened Subscriptions

  /** `{ user, active }`. */
  datatype PaidUser = PaidUser(user: Option<Caller>, active: bool)

  /** `requirePaidUser()` for `user` at time `now`. A failed query leaves no
      data and so reads as inactive (`queryError`). */
  function RequirePaidUser(user: Option<Caller>, subs: seq<Subscription>, now: Millis, queryError: bool): (r: PaidUser)
    ensures r.user == user
    ensures user.None? ==> !r.active
    ensures r.active <==> GetActiveSubscription(user, subs, now, queryError).active
  {
    if user.None? then PaidUser(None, false)
    else
      var sub := if queryError then None else LatestOf(subs, user.value.id);
      PaidUser(user, sub.Some? && IsActive(RowOf(sub.value), now))
  }

  /** A user with no subscription row, or whose newest row has no
      `expires_at`, is not paid. */
  lemma NoRowOrNoExpiryNotPaid(user: Caller, subs: seq<Subscription>, now: Millis)
    requires LatestOf(subs, user.id).None? || LatestOf(subs, user.id).value.expiresAt.None?
    ensures !RequirePaidUser(Some(user), subs, now, false).active
  {
  }
}
