/** `POST /api/kyc/liveness`: records a passed selfie liveness check. */
module KycLiveness {
  import opened Common
  import opened Store
  import opened VerifiedUser

  /** The row inserted on every call: both checks passed, no NIN or DOB. */
  function LivenessRow(user: UserId): (v: Verification)
    ensures v.userId == user && IsPassed(v)
  {
    Verification(user, "passed", "passed", None, None)
  }

  /** The handler. Every call inserts a new row (an existing row is never
      updated); `insertFails` is a failure of that insert, which the reply
      does not show. */
  method Post(db: Db, session: Option<Caller>, insertFails: bool) returns (r: Reply<()>)
    modifies db`verifications
    ensures session.None? ==> r == Err(401, Text("Unauthorized")) && db.verifications == old(db.verifications)
    ensures session.Some? ==> r == Ok(())
    ensures session.Some? ==>
              db.verifications ==
                if insertFails then old(db.verifications)
                else old(db.verifications) + [LivenessRow(session.value.id)]
  {
    if session.None? {
      return Err(401, Text("Unauthorized"));
    }
    if !insertFails {
      db.verifications := db.verifications + [LivenessRow(session.value.id)];
    }
    r := Ok(());
  }

  /** After a recorded liveness check the user is verified, whatever came
      before, and calling it again adds another row and still verifies. */
  lemma LivenessVerifies(user: Caller, vs: seq<Verification>)
    ensures RequireVerifiedUser(Some(user), vs + [LivenessRow(user.id)], false).verified
    ensures RequireVerifiedUser(Some(user), vs + [LivenessRow(user.id)] + [LivenessRow(user.id)], false).verified
  {
    NewestVerificationDecides(user, vs, LivenessRow(user.id));
    NewestVerificationDecides(user, vs + [LivenessRow(user.id)], LivenessRow(user.id));
  }
}
