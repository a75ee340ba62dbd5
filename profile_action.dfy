/** `saveProfile`: the server action behind the profile form. */
module ProfileAction {
  import opened Common
  import opened Store
  import opened Onboarding

  /** `{ ok: true }` or `{ ok: false, error }`. */
  datatype ActionResult = Done | Refused(error: ErrorText)

  datatype ProfileInput = ProfileInput(displayName: string, avatarPublicId: Option<string>)

  predicate ValidDisplayName(s: string) { 2 <= |s| <= 60 }

  /** The zod schema over the form fields (`formData.get` gives `null` for
      a missing field and a `File` for an upload, which is no string): a
      display name of 2 to 60 characters and an optional, nullable avatar
      id. */
  function ParseForm(displayName: Field<string>, avatar: Field<string>): (r: Option<ProfileInput>)
    ensures r.Some? <==> displayName.Val? && 2 <= |displayName.v| <= 60 && !avatar.Mistyped?
    ensures r.Some? ==>
              r.value.displayName == displayName.v &&
              (r.value.avatarPublicId.Some? <==> avatar.Val?) &&
              (avatar.Val? ==> r.value.avatarPublicId == Some(avatar.v))
  {
    var name := Required(displayName, ValidDisplayName);
    var av := OptionalNullable(avatar);
    if name.None? || av.None? then None else Some(ProfileInput(name.value, av.value))
  }

  /** `.update({ display_name, avatar_public_id: .. ?? null }).eq("id", me)`. */
  function SetProfile(profiles: seq<Profile>, me: UserId, input: ProfileInput): (r: seq<Profile>)
    ensures |r| == |profiles|
    ensures forall i | 0 <= i < |r| ::
              if profiles[i].id == Some(me)
              then r[i] == profiles[i].(displayName := Some(input.displayName),
                                        avatarPublicId := input.avatarPublicId)
              else r[i] == profiles[i]
  {
    seq(|profiles|, i requires 0 <= i < |profiles| =>
      if profiles[i].id == Some(me)
      then profiles[i].(displayName := Some(input.displayName), avatarPublicId := input.avatarPublicId)
      else profiles[i])
  }

  /** The action. The form is checked before the session; `updateError` is
      an error of the update. */
  method SaveProfile(db: Db, session: Option<Caller>, displayName: Field<string>, avatar: Field<string>,
                     updateError: Option<string>)
    returns (r: ActionResult)
    modifies db`profiles
    ensures ParseForm(displayName, avatar).None? ==> r == Refused(Text("Invalid input"))
    ensures ParseForm(displayName, avatar).Some? && session.None? ==> r == Refused(Text("Not authenticated"))
    ensures r.Done? <==> ParseForm(displayName, avatar).Some? && session.Some? && updateError.None?
    ensures r.Done? ==> db.profiles == SetProfile(old(db.profiles), session.value.id, ParseForm(displayName, avatar).value)
    ensures ParseForm(displayName, avatar).Some? && session.Some? && updateError.Some? ==>
              r == Refused(StoreError(updateError.value))
    ensures r.Refused? ==> db.profiles == old(db.profiles)
  {
    var parsed := ParseForm(displayName, avatar);
    if parsed.None? {
      return Refused(Text("Invalid input"));
    }
    if session.None? {
      return Refused(Text("Not authenticated"));
    }
    if updateError.Some? {
      return Refused(StoreError(updateError.value));
    }
    db.profiles := SetProfile(db.profiles, session.value.id, parsed.value);
    r := Done;
  }

  /** A saved profile counts as complete on the onboarding page: the
      caller's row now has a display name of at least two characters. */
  lemma SaveCompletesProfile(profiles: seq<Profile>, me: UserId, input: ProfileInput)
    requires ValidDisplayName(input.displayName)
    requires exists p | p in profiles :: p.id == Some(me)
    ensures ProfileById(SetProfile(profiles, me, input), me).Some?
    ensures IsComplete(ProfileById(SetProfile(profiles, me, input), me).value)
  {
    var r := SetProfile(profiles, me, input);
    var p :| p in profiles && p.id == Some(me);
    var i :| 0 <= i < |profiles| && profiles[i] == p;
    assert r[i].id == Some(me);
    var q := ProfileById(r, me).value;
    var j :| 0 <= j < |r| && r[j] == q;
    assert q.displayName == Some(input.displayName);
  }
}
