/** `requireVerifiedUser`: the signed-in user and whether their newest
    verification passed both checks. */
module VerifiedUser {
  import opened Common
  import opened Store

  /** `{ user, verified }`. */
  datatype VerifiedResult = VerifiedResult(user: Option<Caller>, verified: bool)

  /** Both the identity check and the selfie liveness check passed. */
  predicate IsPassed(v: Verification) {
    v.status == "passed" && v.selfieLiveness == "passed"
  }

  /** The user's newest verification row. */
  function LatestVerification(vs: seq<Verification>, user: UserId): (r: Option<Verification>)
    ensures r.Some? ==> r.value in vs && r.value.userId == user
    ensures r.None? <==> forall v | v in vs :: v.userId != user
  {
    Latest(vs, (v: Verification) => v.userId == user)
  }

  /** `requireVerifiedUser()` for `user`. A failed query leaves no data
      (`queryError`). */
  function RequireVerifiedUser(user: Option<Caller>, vs: seq<Verification>, queryError: bool): (r: VerifiedResult)
    ensures r.user == user
    ensures r.verified ==> user.Some? && !queryError
    ensures r.verified ==> exists v | v in vs :: v.userId == user.value.id && IsPassed(v)
    ensures user.Some? && !queryError ==>
              (r.verified <==> LatestVerification(vs, user.value.id).Some? &&
                               IsPassed(LatestVerification(vs, user.value.id).value))
  {
    if user.None? then VerifiedResult(None, false)
    else
      var v := if queryError then None else LatestVerification(vs, user.value.id);
      VerifiedResult(user, v.Some? && IsPassed(v.value))
  }

  /** Only the newest row counts: a passed row is undone by a newer one
      that is not passed, and a newer passed row verifies whatever came
      before. */
  lemma NewestVerificationDecides(user: Caller, vs: seq<Verification>, v: Verification)
    requires v.userId == user.id
    ensures RequireVerifiedUser(Some(user), vs + [v], false).verified == IsPassed(v)
  {
    assert LatestVerification(vs + [v], user.id) == Some(v);
  }
}
