/** The onboarding page: four steps, each marked done from the user's
    session, verification, subscription and profile. */
module Onboarding {
  import opened Common
  import opened Store
  import opened Subscriptions
  import opened Entitlements
  import opened VerifiedUser

  datatype Step = Step(name: string, href: string, done: bool)

  /** `.from("profiles").eq("id", id).limit(1).single()`: the first profile
      with that id. */
  function ProfileById(profiles: seq<Profile>, id: UserId): (r: Option<Profile>)
    ensures r.Some? ==> r.value in profiles && r.value.id == Some(id)
    ensures r.None? <==> forall p | p in profiles :: p.id != Some(id)
  {
    var rows := Filter(profiles, (p: Profile) => p.id == Some(id));
    if rows == [] then None else assert rows[0] in rows; Some(rows[0])
  }

  /** A profile is complete when it has a display name or an avatar. */
  predicate IsComplete(p: Profile) {
    Truthy(p.displayName) || Truthy(p.avatarPublicId)
  }

  /** The steps for `user` at time `now`. Each of the three queries fails
      with its own flag; a failed query leaves no data. */
  method Steps(user: Option<Caller>, vs: seq<Verification>, subs: seq<Subscription>, profiles: seq<Profile>,
               now: Millis, verificationFails: bool, subscriptionFails: bool, profileFails: bool)
    returns (steps: seq<Step>)
    ensures |steps| == 4
    ensures steps[0].name == "Sign in" && steps[0].href == "/login"
    ensures steps[1].name == "Verify identity" && steps[1].href == "/verify"
    ensures steps[2].name == "Subscribe" && steps[2].href == "/subscribe"
    ensures steps[3].name == "Complete profile" && steps[3].href == "/profile"
    ensures steps[0].done <==> user.Some?
    ensures user.None? ==> forall i | 1 <= i < 4 :: !steps[i].done
    ensures steps[1].done <==> RequireVerifiedUser(user, vs, verificationFails).verified
    ensures steps[2].done <==> RequirePaidUser(user, subs, now, subscriptionFails).active
    ensures steps[3].done <==>
              user.Some? && !profileFails && ProfileById(profiles, user.value.id).Some? &&
              IsComplete(ProfileById(profiles, user.value.id).value)
  {
    steps := [];
    steps := steps + [Step("Sign in", "/login", user.Some?)];

    var verified := false;
    if user.Some? {
      var latest := if verificationFails then None else LatestVerification(vs, user.value.id);
      verified := latest.Some? && latest.value.status == "passed" && latest.value.selfieLiveness == "passed";
    }
    assert verified <==> RequireVerifiedUser(user, vs, verificationFails).verified;
    steps := steps + [Step("Verify identity", "/verify", verified)];

    var active := false;
    if user.Some? {
      var s := if subscriptionFails then None else LatestOf(subs, user.value.id);
      active := s.Some? && s.value.status == "active" &&
                (if s.value.expiresAt.Some? then s.value.expiresAt.value > now else false);
    }
    assert active <==> RequirePaidUser(user, subs, now, subscriptionFails).active;
    steps := steps + [Step("Subscribe", "/subscribe", active)];

    var hasProfile := false;
    if user.Some? {
      var p := if profileFails then None else ProfileById(profiles, user.value.id);
      hasProfile := p.Some? && (Truthy(p.value.displayName) || Truthy(p.value.avatarPublicId));
    }
    steps := steps + [Step("Complete profile", "/profile", hasProfile)];
    assert steps == [Step("Sign in", "/login", user.Some?), Step("Verify identity", "/verify", verified),
                     Step("Subscribe", "/subscribe", active), Step("Complete profile", "/profile", hasProfile)];
  }
}
