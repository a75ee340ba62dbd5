/** `POST /admin/panic/resolve`: an admin marks a panic event resolved. */
module AdminResolve {
  import opened Common
  import opened Store
  import opened AdminGuard

  /** The JSON body: `{ id }`. */
  datatype ResolveBody = ResolveBody(id: Field<string>)

  function ParseBody(json: Json<ResolveBody>): (r: Option<string>)
    ensures r.Some? <==> json.Object? && json.body.id.Val? && IsUuid(json.body.id.v)
    ensures r.Some? ==> r.value == json.body.id.v
  {
    if json.Object? then Required(json.body.id, IsUuid) else None
  }

  /** `.update({ status: "resolved", resolved_at, resolved_by }).eq("id", id)`:
      every row with that id is stamped, whatever its status; the other rows
      stay as they are. */
  function ResolveRows(panics: seq<PanicEvent>, id: string, admin: UserId, now: Millis): (r: seq<PanicEvent>)
    ensures |r| == |panics|
    ensures forall i | 0 <= i < |r| && panics[i].id == id ::
              r[i].status == "resolved" && r[i].resolvedAt == Some(now) && r[i].resolvedBy == Some(admin) &&
              r[i] == panics[i].(status := "resolved", resolvedAt := Some(now), resolvedBy := Some(admin))
    ensures forall i | 0 <= i < |r| && panics[i].id != id :: r[i] == panics[i]
  {
    seq(|panics|, i requires 0 <= i < |panics| =>
      if panics[i].id == id
      then panics[i].(status := "resolved", resolvedAt := Some(now), resolvedBy := Some(admin))
      else panics[i])
  }

  /** The handler. The update fails with `updateError`. */
  method Post(db: Db, session: Option<Caller>, adminEmails: Option<string>, json: Json<ResolveBody>,
              now: Millis, updateError: Option<string>)
    returns (r: Reply<()>)
    modifies db`panics
    ensures session.None? || !IsAdminEmail(session.value.email, adminEmails) ==>
              r == Err(401, Text("Unauthorized"))
    ensures session.Some? && IsAdminEmail(session.value.email, adminEmails) && ParseBody(json).None? ==>
              r == Err(400, SchemaIssues)
    ensures r.Ok? <==>
              session.Some? && IsAdminEmail(session.value.email, adminEmails) &&
              ParseBody(json).Some? && updateError.None?
    ensures r.Ok? ==> db.panics == ResolveRows(old(db.panics), ParseBody(json).value, session.value.id, now)
    ensures session.Some? && IsAdminEmail(session.value.email, adminEmails) &&
            ParseBody(json).Some? && updateError.Some? ==>
              r == Err(400, StoreError(updateError.value))
    ensures r.Err? ==> db.panics == old(db.panics)
  {
    if session.None? || !IsAdminEmail(session.value.email, adminEmails) {
      return Err(401, Text("Unauthorized"));
    }
    var me := session.value;
    var id := ParseBody(json);
    if id.None? {
      return Err(400, SchemaIssues);
    }
    if updateError.Some? {
      return Err(400, StoreError(updateError.value));
    }
    db.panics := ResolveRows(db.panics, id.value, me.id, now);
    r := Ok(());
  }

  /** Resolving again keeps the status "resolved" and overwrites who and when. */
  lemma ResolveAgain(panics: seq<PanicEvent>, id: string, a1: UserId, t1: Millis, a2: UserId, t2: Millis)
    ensures ResolveRows(ResolveRows(panics, id, a1, t1), id, a2, t2) == ResolveRows(panics, id, a2, t2)
  {
  }

  /** An id that matches no row changes nothing. */
  lemma ResolveUnknownId(panics: seq<PanicEvent>, id: string, admin: UserId, now: Millis)
    requires forall e | e in panics :: e.id != id
    ensures ResolveRows(panics, id, admin, now) == panics
  {
  }

  /** Resolving never reopens: rows already resolved stay resolved, and
      no row's owner, plan, note or location changes. */
  lemma ResolveMonotone(panics: seq<PanicEvent>, id: string, admin: UserId, now: Millis, i: nat)
    requires i < |panics|
    ensures var e := ResolveRows(panics, id, admin, now)[i];
            (panics[i].status == "resolved" ==> e.status == "resolved") &&
            e.id == panics[i].id && e.userId == panics[i].userId && e.planId == panics[i].planId &&
            e.note == panics[i].note && e.lat == panics[i].lat && e.lng == panics[i].lng &&
            e.createdAt == panics[i].createdAt
  {
  }
}
