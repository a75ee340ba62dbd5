/** The discover page: verified members browse up to 24 other profiles, each
    shown with an age computed from the legal birthdate. */
module Discover {
  import opened Common
  import opened Store
  import opened VerifiedUser

  /** A date as `getFullYear`, `getMonth` and `getDate` report it in the
      server's time zone. */
  datatype CalendarDate = CalendarDate(year: int, month: int, day: int)

  /** Whether the `n`th birthday of someone born on `birth` has come by
      `today`. */
  predicate BirthdayReached(birth: CalendarDate, n: int, today: CalendarDate) {
    birth.year + n < today.year ||
    (birth.year + n == today.year &&
     (birth.month < today.month || (birth.month == today.month && birth.day <= today.day)))
  }

  /** `ageFrom(birthdate)` on `today`; `parse` is `new Date(..)`, `None` for
      an invalid date. The age is the number of birthdays that have come:
      the last one reached, the next one not. */
  function AgeFrom(birthdate: Option<string>, parse: string -> Option<CalendarDate>, today: CalendarDate): (r: Option<int>)
    ensures r.None? <==> !Truthy(birthdate) || parse(birthdate.value).None?
    ensures r.Some? ==>
              BirthdayReached(parse(birthdate.value).value, r.value, today) &&
              !BirthdayReached(parse(birthdate.value).value, r.value + 1, today)
  {
    if !Truthy(birthdate) then None
    else
      var d := parse(birthdate.value);
      if d.None? then None
      else
        var age := today.year - d.value.year;
        var m := today.month - d.value.month;
        Some(if m < 0 || (m == 0 && today.day < d.value.day) then age - 1 else age)
  }

  /** Once a birthday has come, every earlier one has. */
  lemma ReachedEarlier(birth: CalendarDate, n: int, k: int, today: CalendarDate)
    requires k <= n && BirthdayReached(birth, n, today)
    ensures BirthdayReached(birth, k, today)
  {
  }

  /** The age is the only count of birthdays with the last reached and the
      next not. */
  lemma AgeUnique(birth: CalendarDate, n: int, today: CalendarDate)
    requires BirthdayReached(birth, n, today) && !BirthdayReached(birth, n + 1, today)
    ensures AgeFrom(Some("d"), (s: string) => Some(birth), today) == Some(n)
  {
    var age := AgeFrom(Some("d"), (s: string) => Some(birth), today).value;
    if age < n {
      ReachedEarlier(birth, n, age + 1, today);
    } else if age > n {
      ReachedEarlier(birth, age, n + 1, today);
    }
  }

  /** The age is negative exactly when the birthdate is after today. */
  lemma NegativeAgeMeansFutureBirth(birthdate: string, parse: string -> Option<CalendarDate>, today: CalendarDate)
    requires birthdate != [] && parse(birthdate).Some?
    ensures AgeFrom(Some(birthdate), parse, today).value < 0 <==> !BirthdayReached(parse(birthdate).value, 0, today)
  {
    var b := parse(birthdate).value;
    var age := AgeFrom(Some(birthdate), parse, today).value;
    if age < 0 {
      if BirthdayReached(b, 0, today) {
        ReachedEarlier(b, 0, age + 1, today);
      }
    } else {
      ReachedEarlier(b, age, 0, today);
    }
  }

  const MembersLimit: nat := 24

  /** What the page renders. */
  datatype DiscoverView = SignIn | Verify | Members(rows: seq<Profile>)

  /** The page for `user`. `verificationFails` and `listFails` are failures
      of the verification query and of the profiles query (a failed
      listing shows no member). `.neq("id", me)` also leaves out rows
      whose `id` is null. */
  function Page(user: Option<Caller>, vs: seq<Verification>, profiles: seq<Profile>,
                verificationFails: bool, listFails: bool): (r: DiscoverView)
    ensures r.SignIn? <==> user.None?
    ensures r.Verify? <==> user.Some? && !RequireVerifiedUser(user, vs, verificationFails).verified
    ensures r.Members? ==>
              |r.rows| <= MembersLimit &&
              forall p | p in r.rows :: p in profiles && p.id.Some? && p.id.value != user.value.id
    ensures user.Some? && RequireVerifiedUser(user, vs, verificationFails).verified && listFails ==>
              r == Members([])
    ensures r.Members? && !listFails && |r.rows| < MembersLimit ==>
              forall p | p in profiles && p.id.Some? && p.id.value != user.value.id :: p in r.rows
  {
    if user.None? then SignIn
    else if !RequireVerifiedUser(user, vs, verificationFails).verified then Verify
    else if listFails then Members([])
    else
      var others := Filter(profiles, (p: Profile) => p.id.Some? && p.id.value != user.value.id);
      var rows := Take(others, MembersLimit);
      assert |rows| < MembersLimit ==> rows == others;
      Members(rows)
  }
}
