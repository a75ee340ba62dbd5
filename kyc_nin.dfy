/** `POST /api/kyc/nin`: records a passed identity check (keeping only the
    last four characters of the NIN) and writes the legal identity into the
    caller's profile. */
module KycNin {
  import opened Common
  import opened Store
  import opened VerifiedUser

  /** The JSON body: `{ nin, dob }`. */
  datatype NinBody = NinBody(nin: Field<string>, dob: Field<string>)

  datatype NinInput = NinInput(nin: string, dob: string)

  predicate AtLeast8(s: string) { |s| >= 8 }

  /** `/^\d{4}-\d{2}-\d{2}$/`: four, two and two ASCII digits joined by
      hyphens, and nothing else. */
  predicate IsIsoDate(s: string) {
    |s| == 10 && s[4] == '-' && s[7] == '-' &&
    forall i | 0 <= i < 10 && i != 4 && i != 7 :: IsDigit(s[i])
  }

  /** The zod schema: a NIN of at least 8 characters and a `YYYY-MM-DD` date. */
  function ParseBody(json: Json<NinBody>): (r: Option<NinInput>)
    ensures r.Some? <==>
              json.Object? && json.body.nin.Val? && |json.body.nin.v| >= 8 &&
              json.body.dob.Val? && IsIsoDate(json.body.dob.v)
    ensures r.Some? ==> r.value == NinInput(json.body.nin.v, json.body.dob.v)
  {
    if !json.Object? then None
    else
      var nin := Required(json.body.nin, AtLeast8);
      var dob := Required(json.body.dob, IsIsoDate);
      if nin.None? || dob.None? then None else Some(NinInput(nin.value, dob.value))
  }

  /** The stand-in for the identity provider's answer. */
  const LegalFullName: string := "NIN Verified User"
  const LegalGender: string := "unspecified"

  /** The verification row inserted for an accepted NIN. */
  function NinRow(user: UserId, input: NinInput): (v: Verification)
    ensures v.userId == user && v.status == "passed" && v.selfieLiveness == "pending"
    ensures v.dob == Some(input.dob)
    ensures |input.nin| >= 4 ==>
              v.ninLast4.Some? && |v.ninLast4.value| == 4 &&
              input.nin == input.nin[..|input.nin| - 4] + v.ninLast4.value
  {
    Verification(user, "passed", "pending", Some(LastN(input.nin, 4)), Some(input.dob))
  }

  /** `.update({ legal_full_name, legal_birthdate, legal_gender })` on the
      profiles `match` selects; the other rows and columns are untouched. */
  function StampIdentity(profiles: seq<Profile>, selects: Profile -> bool, dob: string): (r: seq<Profile>)
    ensures |r| == |profiles|
    ensures forall i | 0 <= i < |r| ::
              if selects(profiles[i])
              then r[i] == profiles[i].(legalFullName := Some(LegalFullName), legalBirthdate := Some(dob),
                                        legalGender := Some(LegalGender))
              else r[i] == profiles[i]
  {
    seq(|profiles|, i requires 0 <= i < |profiles| =>
      if selects(profiles[i])
      then profiles[i].(legalFullName := Some(LegalFullName), legalBirthdate := Some(dob),
                        legalGender := Some(LegalGender))
      else profiles[i])
  }

  /** The handler. `insertFails` is a failure of the verification insert;
      `byIdFails` one of the profile update keyed by `id` (for instance a
      table without that column), `byUserIdFails` one of the update keyed
      by `user_id`. No write error reaches the reply. */
  method Post(db: Db, session: Option<Caller>, json: Json<NinBody>,
              insertFails: bool, byIdFails: bool, byUserIdFails: bool)
    returns (r: Reply<()>)
    modifies db`verifications, db`profiles
    ensures session.None? ==> r == Err(401, Text("Unauthorized"))
    ensures session.Some? && ParseBody(json).None? ==> r == Err(400, SchemaIssues)
    ensures r.Ok? <==> session.Some? && ParseBody(json).Some?
    ensures r.Err? ==> db.verifications == old(db.verifications) && db.profiles == old(db.profiles)
    ensures r.Ok? ==>
              db.verifications ==
                if insertFails then old(db.verifications)
                else old(db.verifications) + [NinRow(session.value.id, ParseBody(json).value)]
    ensures r.Ok? ==>
              var me := session.value.id;
              var dob := ParseBody(json).value.dob;
              db.profiles ==
                if !byIdFails then StampIdentity(old(db.profiles), (p: Profile) => p.id == Some(me), dob)
                else if !byUserIdFails then StampIdentity(old(db.profiles), (p: Profile) => p.userId == Some(me), dob)
                else old(db.profiles)
  {
    if session.None? {
      return Err(401, Text("Unauthorized"));
    }
    var me := session.value.id;
    var parsed := ParseBody(json);
    if parsed.None? {
      return Err(400, SchemaIssues);
    }
    var input := parsed.value;
    if !insertFails {
      db.verifications := db.verifications + [NinRow(me, input)];
    }
    if !byIdFails {
      db.profiles := StampIdentity(db.profiles, (p: Profile) => p.id == Some(me), input.dob);
    } else if !byUserIdFails {
      // the fallback runs only when the first update reports an error
      db.profiles := StampIdentity(db.profiles, (p: Profile) => p.userId == Some(me), input.dob);
    }
    r := Ok(());
  }

  /** The stored row never holds the NIN itself: of at least eight
      characters only the last four are kept. */
  lemma NinNotStored(user: UserId, input: NinInput)
    requires |input.nin| >= 8
    ensures NinRow(user, input).ninLast4 != Some(input.nin)
  {
  }

  /** A recorded NIN check leaves the user unverified until a newer liveness
      row arrives, even one who had passed both checks before. */
  lemma NinLeavesUnverified(user: Caller, vs: seq<Verification>, input: NinInput)
    ensures !RequireVerifiedUser(Some(user), vs + [NinRow(user.id, input)], false).verified
  {
    NewestVerificationDecides(user, vs, NinRow(user.id, input));
  }
}
