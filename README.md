# naijamingles safety, moderation, payment and KYC core in Dafny

naijamingles is a dating site built on Next.js and Supabase. This project
models the server-side core that keeps its members safe and decides what
they may do:

- **Meeting safety.** A member plans a meeting with a partner, checks in
  during it, reviews the partner afterwards, and can raise a PANIC alert.
  The alert is stored and fanned out by email and SMS to the member's
  trusted contacts.
- **Moderation.** Members report and block each other. Admins, named by
  the `ADMIN_EMAILS` allow-list, see a paginated dashboard of panics,
  reports and check-ins, and resolve panics.
- **Payments.** Two Paystack webhooks record transactions and grant or
  extend a subscription. The entitlement helpers decide from the newest
  subscription row whether a member is paid.
- **Identity.** The NIN and liveness KYC routes add verification rows. The
  verification helper decides from the newest row whether a member is
  verified.
- **Pages.** The onboarding page lists four steps. The discover page lists
  other members with their ages. The profile action saves the display
  name and avatar.

The Supabase tables are fields of one class, `Store.Db`, one `seq` per
table. Rows are kept in insertion order, so "newest by `created_at`" is
the last matching row. Each route handler is a `method` that changes only
the tables its source writes (`modifies db`plans` and so on). Its contract
gives every status code and error text it answers with, and the exact new
table contents. Read-only helpers and pages are functions.

Anything outside the model is a parameter:

- the signed-in caller (`Option<Caller>`);
- the current time in milliseconds;
- ids the store generates;
- the parse of a date string;
- the expected HMAC digest;
- the `ADMIN_EMAILS` value;
- the failure of each store call, as a flag or an error message.

A request body is `Json<T>`: not JSON, JSON that is not an object, or an
object whose properties are each absent, null, a value of the right type,
or mistyped. The zod schemas are written out over it.

Where the code and its documentation disagree, the model follows the code:

- **Plan partner.** `POST /api/safety/plan` does not refuse a partner equal
  to the caller (app/api/safety/plan/route.ts:28-48). Such a plan has one
  participant, who then reviews themself (`SafetyReview.SelfPlanReviewsSelf`).
- **Period end vs expiry.** `POST /api/webhooks/paystack` writes
  `current_period_end`, but every entitlement check reads `expires_at`.
  Activation through that webhook alone is therefore never seen as active
  (`WebhooksPaystack.ActivationSeenOnlyThroughExpiresAt`).
- **Reset, not extension.** `POST /api/paystack/webhook` says it "extends"
  an active row, but it sets `expires_at` to now + 30 days. A renewal can
  shorten a subscription that ran further (`PaystackWebhook.RenewalResetsExpiry`).
- **Plan place columns.** The panic route reads `place_name` and
  `place_address` of a plan (app/api/safety/panic/route.ts:56-64). The plan
  route writes only `location_text`. Both kinds of column are kept on the
  plan row, so the alert shows "Unknown place" for plans made by the plan
  route.
- **First row, not newest.** `POST /api/webhooks/paystack` reads the
  current period end with `.limit(1)` and no order. The model takes the
  first of the user's rows in table order (`WebhooksPaystack.FirstPeriodEnd`).

## Model

| member | source | states |
|---|---|---|
| Common.Optional | app/api/safety/panic/route.ts:9-12 | `.optional()`: an absent property passes as none, a present one passes only when it satisfies the check and then yields the submitted value unchanged, and null fails |
| Common.OptionalNullable | app/api/safety/plan/route.ts:12-13 | `.optional().nullable()`: absent and null both give none, a well-typed value is yielded unchanged, and only a mistyped value fails |
| Common.Required | app/api/safety/plan/route.ts:10-11 | a required property passes iff it is present, well typed and satisfies the check, and then yields that value |
| Common.OrElse | lib/admin-guard.ts:2 | the fallback `raw or ""` yields the value exactly when it is a non-empty string, otherwise the default |
| Common.Nullish | app/api/webhooks/paystack/route.ts:37 | `value ?? default`: a present value is kept, even an empty string or zero; only a missing one takes the default |
| Common.LastN | app/api/kyc/nin/route.ts:41 | `slice(-n)` keeps `n` characters (or all when shorter), and they are a suffix of the input |
| Common.Latest | lib/subscriptions.ts:18-23 | the newest selected row is none iff no row is selected, otherwise a selected row of the table |
| Common.LatestIsNewestFirst | lib/subscriptions.ts:22-23 | the newest selected row is the head of the selected rows ordered newest first, as `.order(created_at desc).limit(1)` returns |
| Common.LatestOfAppend | lib/verification.ts:10-16 | rows of other users added later do not change a user's newest row |
| Store.SinglePlan | app/api/safety/checkin/route.ts:30-36 | `.eq("id").single()` yields a plan iff exactly one plan has that id, and then it is that plan: a row of the table, with the id, equal to every plan with the id |
| SafetyPlan.ParseBody | app/api/safety/plan/route.ts:9-14 | the body is accepted iff it is an object with a UUID partner, a start time of at least 10 characters, and location and notes that are absent, null or strings; partner, start, location and notes are the submitted values (none for absent or null) |
| SafetyPlan.NewPlan | app/api/safety/plan/route.ts:37-46 | the inserted plan is owned by the caller, names the partner, starts at the parsed time, is "planned", keeps location and notes, and has no place name or address |
| SafetyPlan.Post | app/api/safety/plan/route.ts:16-52 | 401 without a session, 400 on a schema failure, 400 "Invalid date format" on an unparseable start, 400 with the store's message when the insert fails, otherwise ok; on ok exactly the new plan is appended and its id returned, on error the plans are unchanged |
| SafetyPlan.PlansOf | app/safety/page.tsx:70-80 | a user's plan list holds exactly the plans the user owns or is partner of |
| SafetyCheckin.ParseKind | app/api/safety/checkin/route.ts:11 | a kind is accepted only under its own name |
| SafetyCheckin.ParseKindExact | app/api/safety/checkin/route.ts:11 | a string parses to a kind iff it is exactly that kind's name, so the enum is read exactly |
| SafetyCheckin.ParseBody | app/api/safety/checkin/route.ts:9-15 | accepted iff an object with a UUID plan, a known kind, and note, lat and lng that are absent, null or well typed; plan, kind, note, lat and lng are the submitted values (none for absent or null) |
| SafetyCheckin.Post | app/api/safety/checkin/route.ts:17-53 | 401, 400, 404 "Plan not found" when the lookup fails or finds no single plan, 403 "Not a participant" for anyone but the owner and partner, 400 with the store's message when a participant's insert fails; otherwise ok, and then exactly the check-in is appended |
| SafetyReview.ParseBody | app/api/safety/review/route.ts:8-12 | accepted iff an object with a UUID plan, an integer rating from 1 to 5 and a comment that is absent, null or a string; plan, rating and comment are the submitted values (none for an absent or null comment) |
| SafetyReview.Reviewee | app/api/safety/review/route.ts:39-45 | someone is reviewed iff the caller is a participant; the owner reviews the partner; on a plan with two distinct participants nobody reviews themself |
| SafetyReview.SelfPlanReviewsSelf | app/api/safety/review/route.ts:39-45 | on a plan whose partner is its owner, only the owner reviews, and reviews themself |
| SafetyReview.Post | app/api/safety/review/route.ts:14-59 | 401, 400 and 404 as for check-ins; 403 "Not a participant" for a non-participant and for a participant whose other party is empty (`!reviewee`); 400 with the store's message when a participant's insert fails; an ok reply appends exactly one review by the caller of the other participant with the submitted rating and comment; a participant's successful insert is always ok; errors change nothing |
| SafetyPanic.ParseBody | app/api/safety/panic/route.ts:8-13 | a body that is not JSON reads as `{}` and passes with nothing set; every property is optional and not nullable; a plan id must be a UUID; plan id, note, lat and lng are the submitted values (none when absent) |
| SafetyPanic.NewPanic | app/api/safety/panic/route.ts:29-38 | the stored event belongs to the caller, is "open", is unresolved, and keeps the plan, note and coordinates |
| SafetyPanic.PlanContextOf | app/api/safety/panic/route.ts:53-65 | plan details go into the alert iff a truthy plan id's lookup succeeds with exactly one plan; they carry that plan's start time, its place name or "Unknown place" only when the name is missing (`??`), and its place address only when truthy |
| SafetyPanic.MapLink | app/api/safety/panic/route.ts:69 | a map link is added iff both coordinates are present and non-zero, and it carries them |
| SafetyPanic.EmailCount | app/api/safety/panic/route.ts:78-85 | the number of emails is at most the number of contacts |
| SafetyPanic.SmsCount | app/api/safety/panic/route.ts:86-92 | the number of SMS is at most the number of contacts |
| SafetyPanic.NoEmailIffNoneEligible | app/api/safety/panic/route.ts:78-85 | no email is sent iff no contact wants email and has an address |
| SafetyPanic.NoSmsIffNoneEligible | app/api/safety/panic/route.ts:86-92 | no SMS is sent iff no contact wants SMS and has a phone |
| SafetyPanic.MessagesFor | app/api/safety/panic/route.ts:77-93 | a contact receives one email if eligible for email and one SMS if eligible for SMS |
| SafetyPanic.Dispatch | app/api/safety/panic/route.ts:77-93 | the messages for a contact list number the eligible emails plus the eligible SMS |
| SafetyPanic.FanOut | app/api/safety/panic/route.ts:76-93 | the loop's counters equal the eligible email and SMS counts, and the messages sent are the dispatch of every contact in order |
| SafetyPanic.Recipients | app/api/safety/panic/route.ts:47-51 | the contacts loaded are none when the query fails (`tc.data \|\| []`); otherwise the caller's contacts in table order, all of them when there are at most 20, else exactly the first 20 |
| SafetyPanic.Post | app/api/safety/panic/route.ts:15-96 | 401, 400 on schema, 400 on insert failure, otherwise ok; on ok the event is appended, the reply carries its id and the email and SMS counts, and the messages are sent to the caller's contacts; on error nothing is stored or sent |
| SafetyPanic.CountsAppend | app/api/safety/panic/route.ts:76-93 | the counts of two contact lists add up |
| SafetyPanic.DispatchAppend | app/api/safety/panic/route.ts:77-93 | dispatching two lists sends the messages of the first, then those of the second |
| SafetyPanic.DispatchCounts | app/api/safety/panic/route.ts:76-95 | the counts reported equal the number of messages sent, and the email count equals the number of emails sent |
| SafetyPanic.DispatchTargets | app/api/safety/panic/route.ts:78-91 | every email goes to an eligible contact's address and every SMS to an eligible contact's phone |
| SafetyPanic.CountsBounded | app/api/safety/panic/route.ts:51 | at most 20 emails and 20 SMS go out per alert |
| Report.ParseBody | app/api/report/route.ts:7-11 | accepted iff an object with a UUID target, a reason of at least 2 characters and details that are absent, null or a string; target, reason and details are the submitted values (none for absent or null details) |
| Report.Post | app/api/report/route.ts:13-35 | 401, 400 on schema, 400 "Cannot report yourself", 400 with the store's message when the insert fails, otherwise ok; every ok appends one open report from the caller, even a repeated one |
| Block.RowsOf | app/api/block/route.ts:22-27 | a pair has no row iff it is not blocked |
| Block.AtMostOneRow | app/api/block/route.ts:58-61 | under the unique constraint on (blocker, blocked), a pair has at most one row |
| Block.Get | app/api/block/route.ts:12-31 | 401 without a session, 400 "user_id required" for a missing or empty target, 400 with the store's message when the lookup fails, otherwise ok, and then `blocked` iff the caller blocks the target |
| Block.ParseBody | app/api/block/route.ts:7-10 | accepted iff an object with a UUID target and an action that is absent, "block" or "unblock"; the action is unblock iff "unblock" was sent |
| Block.Upsert | app/api/block/route.ts:56-61 | after blocking, the pairs are the old ones plus the new pair |
| Block.Delete | app/api/block/route.ts:46-51 | after unblocking, the pairs are the old ones minus exactly that pair |
| Block.Post | app/api/block/route.ts:33-64 | 401, 400 on schema, 400 "Cannot block yourself", otherwise ok iff the write succeeds; block adds and unblock removes the caller's pair; no pair of another blocker changes; uniqueness is kept; errors change nothing |
| Block.FilterKeepsUnique | app/api/block/route.ts:46-51 | unblocking keeps the pairs unique |
| Block.UpsertKeepsUnique | app/api/block/route.ts:56-61 | blocking keeps the pairs unique |
| Block.BlockIdempotent | app/api/block/route.ts:56-61 | blocking twice equals blocking once and leaves exactly one row for the pair |
| Block.UnblockIdempotent | app/api/block/route.ts:46-53 | unblocking twice equals unblocking once and leaves no row for the pair |
| AdminGuard.TrimStart | lib/admin-guard.ts:3 | the result is a suffix of the input, what was removed is white space, and it does not start with white space |
| AdminGuard.TrimEnd | lib/admin-guard.ts:3 | the result is a prefix of the input, what was removed is white space, and it does not end with white space |
| AdminGuard.Trim | lib/admin-guard.ts:3 | `trim()` yields the middle of the input between white-space runs, and it neither starts nor ends with white space |
| AdminGuard.Split | lib/admin-guard.ts:3 | `split(",")` yields at least one piece |
| AdminGuard.SplitJoin | lib/admin-guard.ts:3 | joining the pieces with commas gives the input back, and no piece holds a comma |
| AdminGuard.NoEntriesNoAdmins | lib/admin-guard.ts:2-3 | an unset or empty list, or one of only commas and white space, admits nobody |
| AdminGuard.EntryFromPiece | lib/admin-guard.ts:3 | every entry is the non-empty normalisation of a piece of the list |
| AdminGuard.EntriesNormalized | lib/admin-guard.ts:3 | every entry is non-empty, lower-case and trimmed |
| AdminGuard.CaseInsensitive | lib/admin-guard.ts:3-4 | two emails equal up to case are both admins or both not |
| AdminGuard.AdminHasNoComma | lib/admin-guard.ts:3-4 | an admitted email holds no comma |
| AdminGuard.ListedAdmits | lib/admin-guard.ts:3-4 | an email equal up to case to a normalised non-empty piece of the list is admitted |
| AdminGuard.IsAdminEmail | lib/admin-guard.ts:1-5 | a missing or empty email is never admitted; an admitted email equals, up to case, the trimmed lower-case form of a non-empty piece of the list (`ListedAdmits` gives the converse) |
| AdminResolve.ParseBody | app/admin/panic/resolve/route.ts:8 | accepted iff an object whose id is a UUID, and then yields that id |
| AdminResolve.ResolveRows | app/admin/panic/resolve/route.ts:24-27 | every row with the id becomes resolved, by the admin, at now; every other row is unchanged |
| AdminResolve.Post | app/admin/panic/resolve/route.ts:10-31 | 401 for no session or a non-admin, 400 on schema, 400 with the store's message when the update fails, otherwise ok; on ok the panics are resolved by id, on error unchanged |
| AdminResolve.ResolveAgain | app/admin/panic/resolve/route.ts:24-27 | resolving twice equals resolving once with the second admin and time, because the status is not checked |
| AdminResolve.ResolveUnknownId | app/admin/panic/resolve/route.ts:24-30 | an id no row has changes nothing |
| AdminResolve.ResolveMonotone | app/admin/panic/resolve/route.ts:24-27 | a resolved row stays resolved, and no row's owner, plan, note, location or creation time changes |
| AdminPage.Lookup | app/admin/safety/page.tsx:12 | `sp[key]` yields the value of the first entry with that key, and undefined iff no entry has the key |
| AdminPage.GetStr | app/admin/safety/page.tsx:11-15 | a single value is read as is, an array by its first element; an empty array or an undefined value gives the default |
| AdminPage.DigitPrefix | app/admin/safety/page.tsx:18 | the longest run of leading digits: a prefix, all digits, followed by a non-digit or the end |
| AdminPage.NatToString | app/admin/safety/page.tsx:17 | `String(n)` is a non-empty run of digits with no leading zero |
| AdminPage.GetInt | app/admin/safety/page.tsx:16-20 | a positive number that `parseInt` reads from the value (or from `String(def)` when the key is absent) is returned; anything else gives the default; with a positive default the result is always at least 1 |
| AdminPage.DigitsOfNat | app/admin/safety/page.tsx:17-18 | the digits of `String(n)` have the value `n` |
| AdminPage.ParseIntToString | app/admin/safety/page.tsx:17-18 | `parseInt(String(n), 10) == n` for every integer |
| AdminPage.ParseIntIgnoresTail | app/admin/safety/page.tsx:18 | `parseInt` stops at the first non-digit |
| AdminPage.ParseIntNeedsDigit | app/admin/safety/page.tsx:18 | `parseInt` gives a number only when the text holds a digit, and a negative one only when it holds a minus sign |
| AdminPage.GetIntFallsBack | app/admin/safety/page.tsx:19 | a value that is `NaN` or not positive gives the default |
| AdminPage.GetIntAbsent | app/admin/safety/page.tsx:16-19 | an absent key gives the default |
| AdminPage.GetIntReadsBack | app/admin/safety/page.tsx:16-19 | a positive number written as a single value is read back |
| AdminPage.ParamGet | app/admin/safety/page.tsx:21-36 | `URLSearchParams.get` yields a value stored under the key, and none iff the key is absent |
| AdminPage.ParamDelete | app/admin/safety/page.tsx:32 | `delete` removes exactly the entries of that key |
| AdminPage.GetAfterDelete | app/admin/safety/page.tsx:32 | after `delete(k)`, `k` reads none and every other key reads as before |
| AdminPage.GetAfterSet | app/admin/safety/page.tsx:24-25 | after `set(k, v)`, `k` reads `v` and every other key reads as before |
| AdminPage.DeleteKeepsUnique | app/admin/safety/page.tsx:32 | `delete` keeps keys distinct |
| AdminPage.SetKeepsUnique | app/admin/safety/page.tsx:24-25 | `set` keeps keys distinct |
| AdminPage.SetMembers | app/admin/safety/page.tsx:24-25 | `set` adds no entry other than the one set |
| AdminPage.CloneGet | app/admin/safety/page.tsx:21-28 | the clone reads, for each key, the single value, or the first of an array (`"undefined"` for an empty one), and nothing for an undefined value |
| AdminPage.CloneUnique | app/admin/safety/page.tsx:21-28 | the clone has distinct keys |
| AdminPage.PatchedGet | app/admin/safety/page.tsx:31-34 | a patched key reads its string form, or none when the patch is undefined; an unpatched key reads as before |
| AdminPage.PatchedUnique | app/admin/safety/page.tsx:31-34 | patching keeps keys distinct |
| AdminPage.CloneParams | app/admin/safety/page.tsx:21-28 | the loop builds the clone of the search dictionary, with distinct keys, reading each key as `CloneGet` states |
| AdminPage.WithParams | app/admin/safety/page.tsx:29-36 | the loop builds the patched clone: patched keys read their new value or are gone, other keys keep their first value |
| AdminPage.PageSpan | app/admin/safety/page.tsx:62-63 | a page spans exactly `size` rows, page 1 starts at row 0, and the next page starts right after this one |
| AdminPage.OnePagePerRow | app/admin/safety/page.tsx:62-63 | every row index lies on exactly one page, so pages are disjoint and cover all rows |
| AdminPage.Range | app/admin/safety/page.tsx:85 | `.range(from, to)` yields the rows from `from` on, at most `to - from + 1` of them, and fewer only at the end of the table |
| AdminPage.Listing | app/admin/safety/page.tsx:81-87 | a listing is the slice of the selected rows, newest first, starting at `from`: row k is the selected row at position `from + k`, and there are `size` rows or as many as remain |
| AdminPage.PagesAdjacent | app/admin/safety/page.tsx:62-63 | two consecutive pages together are the double-sized range that starts at the first |
| AdminPage.ShortPageIsLast | app/admin/safety/page.tsx:107-108 | after a page with fewer than `size` rows the next page is empty, so hiding "Next" there loses nothing |
| AdminPage.FullLastPageShowsNext | app/admin/safety/page.tsx:107-108 | with exactly 10 rows, page 1 is full and offers "Next" to an empty page 2 |
| AdminPage.SectionOf | app/admin/safety/page.tsx:59-114 | a failed query shows its error; otherwise page and size are `getInt` of their keys, the rows are the listing from `(page - 1) * size`, "Prev" appears iff the page is after the first and "Next" iff the page is full, each linking to the same parameters with the page one lower or higher |
| AdminPage.Page | app/admin/safety/page.tsx:38-114 | "Not authorized" iff there is no user or the email is not an admin; otherwise each of the three sections is `SectionOf` its table under its filter, page and size keys and query error |
| AdminPage.DefaultView | app/admin/safety/page.tsx:59-77 | with no parameters the filters are open, open and all; the panics, reports and check-ins sections each list page 1 of 10 rows without "Prev": the newest open panics, the newest open reports, and the newest check-ins unfiltered |
| AdminPage.LookupToDict | app/admin/safety/page.tsx:35 | reading a link's query back gives each key its value |
| AdminPage.LinkRoundTrip | app/admin/safety/page.tsx:180-192 | a page link reads back the page number it was built with and keeps every other parameter |
| Subscriptions.LatestOf | lib/subscriptions.ts:18-23 | the newest row is one of the user's, and none iff the user has no row |
| Subscriptions.GetActiveSubscription | lib/subscriptions.ts:9-32 | no user gives inactive without info; info is present iff the query succeeds with a row, and then is the newest row; active iff that row is active and unexpired |
| Subscriptions.ActiveHasOwnRow | lib/subscriptions.ts:25-31 | an active answer rests on a row of the user that is active and expires after now |
| Subscriptions.NewestRowDecides | lib/subscriptions.ts:18-29 | only the newest row counts: adding a row decides the answer whatever came before |
| Subscriptions.OtherUsersIgnored | lib/subscriptions.ts:21 | other users' rows never change the answer |
| Subscriptions.ExpiryBoundary | lib/subscriptions.ts:28 | a row expiring exactly now, or with no expiry, is not active |
| Entitlements.RequirePaidUser | lib/entitlements.ts:4-21 | returns the user; no user is not paid; paid iff the newest row is active and unexpired, the same answer as `getActiveSubscription` |
| Entitlements.NoRowOrNoExpiryNotPaid | lib/entitlements.ts:17-19 | a user without rows, or whose newest row has no expiry, is not paid |
| VerifiedUser.LatestVerification | lib/verification.ts:10-16 | the newest verification is one of the user's, and none iff the user has none |
| VerifiedUser.RequireVerifiedUser | lib/verification.ts:4-20 | returns the user; verified only with a user, a working query and a passed/passed row of theirs; verified iff the newest row is passed for both status and liveness |
| VerifiedUser.NewestVerificationDecides | lib/verification.ts:10-18 | the newest row decides, whatever came before |
| Paystack.EventOf | app/api/webhooks/paystack/route.ts:23-25 | optional chaining on a non-object reads every field as undefined |
| Paystack.SignatureIgnoresCase | app/api/webhooks/paystack/route.ts:7-11 | the signature header is compared without regard to case |
| Paystack.MissingSignatureRejected | app/api/paystack/webhook/route.ts:9-14 | a missing header never matches a digest |
| WebhooksPaystack.KoboToNaira | app/api/webhooks/paystack/route.ts:36 | the naira amount is within half a naira of the kobo amount over 100 |
| WebhooksPaystack.KoboToNairaWhole | app/api/webhooks/paystack/route.ts:36 | for whole kobo, `Math.round(k / 100)` rounds halves up, giving `(k + 50) div 100` |
| WebhooksPaystack.TransactionOf | app/api/webhooks/paystack/route.ts:32-40 | the row carries the reference, provider "paystack", the event type and the metadata user id; the amount is the kobo amount over 100 to within half a naira, 0 when absent; the currency is the sent one, even empty, and "NGN" only when absent (`??`) |
| WebhooksPaystack.UpsertByRef | app/api/webhooks/paystack/route.ts:28-43 | after the upsert the new row is present, rows of other references are kept, and no other row of the same reference is left |
| WebhooksPaystack.UpsertByRefKeepsUnique | app/api/webhooks/paystack/route.ts:41 | the upsert keeps references unique |
| WebhooksPaystack.RedeliveryIdempotent | app/api/webhooks/paystack/route.ts:28-43 | redelivering a reference equals delivering it once, with the last delivery's values |
| WebhooksPaystack.NewPeriodEnd | app/api/webhooks/paystack/route.ts:56-62 | the new end is 30 days after the later of now and the current end, so never before now + 30 days |
| WebhooksPaystack.FirstPeriodEnd | app/api/webhooks/paystack/route.ts:50-56 | the baseline end read is the period end of the user's first row in table order, and none when the user has no row |
| WebhooksPaystack.ChoosePlan | app/api/webhooks/paystack/route.ts:63 | a plan object with a non-empty code gives the code; one without gives the object itself; a non-empty plan text is kept; no plan or an empty text gives "monthly"; the result is never the empty text |
| WebhooksPaystack.UpsertByUser | app/api/webhooks/paystack/route.ts:65-76 | a user's existing rows become active with the plan and period end; a user without a row gets one new active row; other users' rows are kept |
| WebhooksPaystack.Post | app/api/webhooks/paystack/route.ts:13-80 | 401 "Bad signature" and 400 "Invalid JSON" write nothing; otherwise ok; a reference upserts its transaction; only `charge.success` with a user id touches subscriptions |
| WebhooksPaystack.ActivationSeenOnlyThroughExpiresAt | app/api/webhooks/paystack/route.ts:65-76 | after this webhook the user is active iff the newest row already had an `expires_at` after now, since the webhook does not write that column |
| WebhooksPaystack.ExtensionsAccumulate | app/api/webhooks/paystack/route.ts:56-62 | two payments during an unexpired period add 60 days to its end |
| PaystackWebhook.UserIdByEmail | app/api/paystack/webhook/route.ts:31-42 | `.limit(1)` yields the id of the first profile with that email, and none when no profile has it |
| PaystackWebhook.NewestIndex | app/api/paystack/webhook/route.ts:47-52 | the position read is a row of the user with no row of the user after it, and -1 only when the user has no row |
| PaystackWebhook.Renew | app/api/paystack/webhook/route.ts:43-73 | when the newest row was read, exactly that row is updated in place with the payload (plan code, amount, "active", reference, starts now, expires now + 30 days) and every other row is kept; when the read failed or found no row, the payload is appended as a new row of the user; either way the user's newest row is active until now + 30 days and carries the reference |
| PaystackWebhook.Post | app/api/paystack/webhook/route.ts:6-76 | 401 bad signature, 500 on unparseable JSON, ignored for other events, 400 "Missing fields", 404 "User not found", 500 on a failed write; subscriptions change only on an applied payment, and then by `Renew` with amount 500000 kobo by default |
| PaystackWebhook.PaymentGrantsThirtyDays | app/api/paystack/webhook/route.ts:43-62 | after a payment the user is active exactly until now + 30 days |
| PaystackWebhook.RenewalResetsExpiry | app/api/paystack/webhook/route.ts:44-68 | a payment during a period ending after now + 30 days moves the expiry earlier, since it is reset, not extended |
| KycNin.ParseBody | app/api/kyc/nin/route.ts:9-12 | accepted iff an object with a NIN of at least 8 characters and a `YYYY-MM-DD` date of birth |
| KycNin.NinRow | app/api/kyc/nin/route.ts:35-45 | the row is the caller's, passed with liveness pending, keeps the date of birth and only the last four NIN characters |
| KycNin.StampIdentity | app/api/kyc/nin/route.ts:49-59 | the selected profiles get the stub legal name, the submitted birthdate and the stub gender; others are unchanged |
| KycNin.Post | app/api/kyc/nin/route.ts:14-63 | 401, 400 on schema, otherwise ok whatever the writes do; a row is appended unless the insert fails; profiles are stamped by id, by user id only when that fails, and untouched when both fail |
| KycNin.NinNotStored | app/api/kyc/nin/route.ts:41 | the full NIN is never stored |
| KycNin.NinLeavesUnverified | app/api/kyc/nin/route.ts:39-40 | right after the NIN step the member is not yet verified |
| KycLiveness.LivenessRow | app/api/kyc/liveness/route.ts:18-22 | the row is the caller's and is passed for both status and liveness |
| KycLiveness.Post | app/api/kyc/liveness/route.ts:8-25 | 401 without a session and no write; otherwise ok, appending the row unless the insert fails |
| KycLiveness.LivenessVerifies | app/api/kyc/liveness/route.ts:14-22 | after the liveness step the member is verified, whatever came before, and still after a repeated call adds a second row |
| Onboarding.ProfileById | app/onboarding/page.tsx:45-50 | the profile read is the caller's, and none iff the caller has none |
| Onboarding.Steps | app/onboarding/page.tsx:10-53 | four steps in order with their names and links; signed in iff a user; verified and subscribed exactly as the verification and entitlement helpers decide; profile complete iff a display name or avatar id is set |
| Discover.AgeFrom | app/discover/page.tsx:13-22 | null for an empty or unparseable birthdate; otherwise the number of birthdays reached: the last counted one has come, the next has not |
| Discover.ReachedEarlier | app/discover/page.tsx:18-20 | a birthday reached means every earlier one was reached |
| Discover.AgeUnique | app/discover/page.tsx:17-21 | the age is the only number whose birthday has come and whose next has not |
| Discover.NegativeAgeMeansFutureBirth | app/discover/page.tsx:17-21 | the age is negative iff the birthdate lies in the future |
| Discover.Page | app/discover/page.tsx:24-43 | sign-in prompt iff no user, verify prompt iff unverified; a failed profiles query shows no member (`data ?? []`); otherwise at most 24 members, never the caller, all of them when fewer are shown |
| ProfileAction.ParseForm | app/actions/profile.ts:7-16 | accepted iff the display name is a 2 to 60 character string and the avatar is absent, null or a string |
| ProfileAction.SetProfile | app/actions/profile.ts:28-34 | only the caller's row changes, taking the display name and the avatar id or null |
| ProfileAction.SaveProfile | app/actions/profile.ts:12-38 | invalid input is refused before the session is read; then "Not authenticated"; done iff the update succeeds, and then the caller's row is set; a failed update is refused with the store's message; a refusal changes nothing |
| ProfileAction.SaveCompletesProfile | app/actions/profile.ts:28-34 | after a save the caller's profile counts as complete on the onboarding page |

## Left out

- Row-level security is not modelled. Every query sees the whole table. The Supabase auth calls become the `session` or `user` parameter.
- A failed `POST /api/paystack/webhook` profile lookup stands for any cause, including RLS hiding the row from the user client. Its `profileFails` flag covers that.
- zod's error message text is not modelled. A schema failure answers with `SchemaIssues` instead of the message.
- zod's UUID and number checks are simplified. A UUID is 8-4-4-4-12 hexadecimal digits. JSON numbers are `real`, so NaN and the infinities are left out.
- The panic alert text is not modelled: dates formatted with `toLocaleString`, the site URL, and the SMS newline replacement. The alert records only the parts present: sender, time, plan context, note and map link.
- lib/notifier.ts is not modelled beyond its effect. Sending always succeeds, as it does there, and a message sent is an element of the `sent` output.
- The HMAC-SHA512 digest is not computed. It is the `expected` parameter.
- Lower-casing covers the ASCII letters only. JavaScript's full Unicode case mapping is not modelled.
- String lengths count Unicode scalars rather than UTF-16 code units.
- Date parsing (`new Date(...)`) and the current time are parameters.
- AdminPage.NatToString: `String(n)` switches to exponent notation from 10^21 on; the model always writes plain digits, so links for such page numbers are not modelled.
- AdminPage.ParseInt: the digit value is exact, rather than rounded to a double. Digit runs too long to be finite are read as integers instead of `Infinity`.
- AdminPage.WithParams: the result is the parameter list. Its percent-encoded serialisation and the fixed `/admin/safety?` path are left out.
- AdminPage.ToDict: reading a query string back gives one value per key. Next.js would give an array for a repeated key, but the parameters built here have distinct keys.
- `.limit(n)` without `.order(...)` returns some n matching rows in no guaranteed order. The model takes the first n in table order: SafetyPanic.Recipients (20 contacts), PaystackWebhook.UserIdByEmail and WebhooksPaystack.FirstPeriodEnd (one row), Discover.Page (24 profiles) and Onboarding.ProfileById (one row, by id). Which rows the store picks is not modelled.
- PaystackWebhook.Renew: `update(payload).eq("id", existing[0].id)` is modelled as updating the row at the newest row's position, taking row ids to be unique.
- JavaScript object key order is not modelled. The search dictionary and the patch are sequences in that order.
- Ids and `created_at` values are not generated. New ids are parameters, and insertion order stands for `created_at` order.
- The `raw` column of `transactions` is not modelled.
- `avatar_url` and `city` are only shown by the discover page and are not modelled. The page's Cloudinary URL is not modelled either. The member card's text (the age only when it is non-zero, then the city or a dash) is rendering and is not modelled.
- `/api/admin/report/status` is not modelled. It is called from the admin page's client component, and its source is not part of this model.
- Concurrency is not modelled. Requests run one at a time.
- Store errors are modelled per call, as a flag or an error message. The contents of a row returned by `.select(...)` after an insert are not modelled.
- AdminPage.Range: an out-of-range `.range` is modelled as an empty page, not as a PostgREST error.
- WebhooksPaystack.Post: a failed transaction upsert or subscription write is ignored, as in the source. A failed lookup reads as "no current period end".
- SafetyPlan.Post: the start time is stored as the parsed millisecond value. Its ISO string form is not modelled.
