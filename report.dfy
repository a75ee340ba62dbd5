/** `POST /api/report`: file an abuse report against another user. */
module Report {
  import opened Common
  import opened Store

  /** The JSON body: `{ user_id, reason, details? }`. */
  datatype ReportBody = ReportBody(userId: Field<string>, reason: Field<string>, details: Field<string>)

  datatype ReportInput = ReportInput(reportedUserId: UserId, reason: string, details: Option<string>)

  predicate AtLeast2(s: string) { |s| >= 2 }

  /** The zod schema: a UUID target, a reason of at least 2 characters, an
      optional nullable details text. */
  function ParseBody(json: Json<ReportBody>): (r: Option<ReportInput>)
    ensures r.Some? <==>
      json.Object? &&
      json.body.userId.Val? && IsUuid(json.body.userId.v) &&
      json.body.reason.Val? && |json.body.reason.v| >= 2 &&
      !json.body.details.Mistyped?
    ensures r.Some? ==>
      r.value.reportedUserId == json.body.userId.v && r.value.reason == json.body.reason.v &&
      (r.value.details.Some? <==> json.body.details.Val?)
    ensures r.Some? ==> r.value.details == ValueOf(json.body.details)
  {
    if !json.Object? then None
    else
      var b := json.body;
      var target := Required(b.userId, IsUuid);
      var reason := Required(b.reason, AtLeast2);
      var details := OptionalNullable(b.details);
      if target.None? || reason.None? || details.None? then None
      else Some(ReportInput(target.value, reason.value, details.value))
  }

  /** The handler. The insert fails with `insertError`. There is no check
      for duplicate reports: every accepted call adds a row. */
  method Post(db: Db, session: Option<Caller>, json: Json<ReportBody>, insertError: Option<string>)
    returns (r: Reply<()>)
    modifies db`reports
    ensures session.None? ==> r == Err(401, Text("Unauthorized"))
    ensures session.Some? && ParseBody(json).None? ==> r == Err(400, SchemaIssues)
    ensures session.Some? && ParseBody(json).Some? &&
            ParseBody(json).value.reportedUserId == session.value.id ==>
              r == Err(400, Text("Cannot report yourself"))
    ensures r.Ok? <==>
              session.Some? && ParseBody(json).Some? &&
              ParseBody(json).value.reportedUserId != session.value.id && insertError.None?
    ensures r.Ok? ==>
              var input := ParseBody(json).value;
              db.reports == old(db.reports) +
                [UserReport(session.value.id, input.reportedUserId, input.reason, input.details, "open")]
    ensures session.Some? && ParseBody(json).Some? &&
            ParseBody(json).value.reportedUserId != session.value.id && insertError.Some? ==>
              r == Err(400, StoreError(insertError.value))
    ensures r.Err? ==> db.reports == old(db.reports)
  {
    if session.None? {
      return Err(401, Text("Unauthorized"));
    }
    var me := session.value;
    var parsed := ParseBody(json);
    if parsed.None? {
      return Err(400, SchemaIssues);
    }
    var input := parsed.value;
    if input.reportedUserId == me.id {
      return Err(400, Text("Cannot report yourself"));
    }
    if insertError.Some? {
      return Err(400, StoreError(insertError.value));
    }
    db.reports := db.reports + [UserReport(me.id, input.reportedUserId, input.reason, input.details, "open")];
    r := Ok(());
  }
}
