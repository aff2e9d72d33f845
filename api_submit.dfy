/** The submission API route (app/api/submit/route.ts): configuration and
    consent checks, schema validation, find-or-create of the facility, the
    submission row and one response row per answer. Each Supabase call is
    an outcome given as a parameter; the route records the writes it
    attempts, in order. */
module ApiSubmit {
  import opened Common
  import opened Js
  import opened Schemas

  /** The outcomes of the Supabase calls, in the order the route makes
      them: facility lookup (`maybeSingle`, so possibly no row), facility
      insert, submission insert, responses insert. */
  datatype ApiDb = ApiDb(facilitySelect: Result<Option<string>, DbError>, facilityInsert: Result<string, DbError>,
                         submission: Result<string, DbError>, responses: Option<DbError>)

  datatype SubmissionRow = SubmissionRow(facilityId: string, pseudoPreimage: string, job: string, ageRange: string,
                                         seniority: string, comment: Option<string>, consented: bool,
                                         clientIp: Option<string>, userAgent: Option<string>)

  datatype ResponseRow = ResponseRow(submissionId: string, facilityId: string, questionId: string, score: int)

  datatype ApiWrite =
    | InsertFacility(name: string)
    | InsertSubmission(row: SubmissionRow)
    | InsertResponses(rows: seq<ResponseRow>)

  /** `{error}` (configuration and consent), `{ok: false, error}` (the
      `catch`) and `{ok: true, submissionId}`. */
  datatype ApiBody = ErrorBody(error: ErrorText) | CaughtBody(error: ErrorText) | Created(submissionId: string)

  const NotConfigured := "Supabase non configuré (URL/Service Role Key manquants)"

  /** `x-forwarded-for?.split(",")[0]?.trim()`: the first comma-separated
      field of the header, trimmed. */
  function ClientIp(forwardedFor: Option<string>): Option<string>
  {
    if forwardedFor.None? then None else Some(Trim(FirstField(forwardedFor.value)))
  }

  /** The text before the first comma (all of it when there is none). */
  function FirstField(s: string): (r: string)
    ensures |r| <= |s| && r == s[..|r|] && ',' !in r
    ensures |r| < |s| ==> s[|r|] == ','
  {
    if s == [] || s[0] == ',' then [] else [s[0]] + FirstField(s[1..])
  }

  /** The facility the lookup found: `fac?.id`, kept only when truthy. */
  function FoundFacility(db: ApiDb): Option<string>
  {
    if db.facilitySelect.Ok? && db.facilitySelect.value.Some? && db.facilitySelect.value.value != ""
    then db.facilitySelect.value else None
  }

  /** The facility id the route goes on with: the one found, else the one
      just inserted; `None` when the lookup or the insert failed. */
  function FacilityId(db: ApiDb): (r: Option<string>)
    ensures r.Some? <==> db.facilitySelect.Ok? && (FoundFacility(db).Some? || db.facilityInsert.Ok?)
  {
    if db.facilitySelect.Err? then None
    else if FoundFacility(db).Some? then FoundFacility(db)
    else if db.facilityInsert.Ok? then Some(db.facilityInsert.value)
    else None
  }

  /** The facility insert, attempted only when the lookup found none. */
  function FacilityWrites(p: Payload, db: ApiDb): seq<ApiWrite>
  {
    if FoundFacility(db).Some? then [] else [InsertFacility(p.profile.facility)]
  }

  function ResponseRows(submissionId: string, facilityId: string, answers: seq<Answer>): (rows: seq<ResponseRow>)
    ensures |rows| == |answers|
    ensures forall i :: 0 <= i < |rows| ==>
      rows[i].submissionId == submissionId && rows[i].facilityId == facilityId
      && rows[i].questionId == answers[i].questionId && rows[i].score == answers[i].value
  {
    seq(|answers|, i requires 0 <= i < |answers| =>
      ResponseRow(submissionId, facilityId, answers[i].questionId, answers[i].value))
  }

  function SubmissionRowOf(p: Payload, facilityId: string, ip: Option<string>, ua: Option<string>): SubmissionRow
  {
    SubmissionRow(facilityId, Trim(p.pseudo), p.profile.job, p.profile.age, p.profile.seniority, p.profile.comment,
                  p.consent, ip, ua)
  }

  /** The handler. `configured` says whether the Supabase URL and service
      role key are both set; `body` is `None` when `req.json()` throws. */
  method Post(configured: bool, body: Option<Json>, letter: char -> bool,
              userAgent: Option<string>, forwardedFor: Option<string>, db: ApiDb)
    returns (status: int, reply: ApiBody, writes: seq<ApiWrite>)
    ensures !configured ==> status == 500 && reply == ErrorBody(Text(NotConfigured)) && writes == []
    ensures configured && ReadPayload(body, ApiRules, letter).Err? ==>
      status == 400 && reply == CaughtBody(ReadPayload(body, ApiRules, letter).error) && writes == []
    ensures configured && ReadPayload(body, ApiRules, letter).Ok? ==>
      var p := ReadPayload(body, ApiRules, letter).value;
      && (!p.consent ==> status == 400 && reply == ErrorBody(Text("Consent required")) && writes == [])
      && (p.consent ==> PersistOutcome(p, ClientIp(forwardedFor), userAgent, db, status, reply, writes))
    ensures status in {201, 400, 500}
  {
    if !configured {
      return 500, ErrorBody(Text(NotConfigured)), [];
    }
    var read := ReadPayload(body, ApiRules, letter);
    if read.Err? {
      return 400, CaughtBody(read.error), [];
    }
    var payload := read.value;
    if !payload.consent {
      return 400, ErrorBody(Text("Consent required")), [];
    }
    var ip := ClientIp(forwardedFor);
    status, reply, writes := Persist(payload, ip, userAgent, db);
  }

  /** What the database steps produce: the facility is reused when the
      lookup finds one and created (once) otherwise; success is 201 with the
      submission id, after exactly the facility insert (when needed), the
      submission row and the response rows; a failing call gives 400 with
      its message, after the writes attempted up to and including it (no
      transaction undoes the earlier ones). */
  ghost predicate PersistOutcome(p: Payload, ip: Option<string>, ua: Option<string>, db: ApiDb,
                                 status: int, reply: ApiBody, writes: seq<ApiWrite>)
  {
    && (status == 201 || status == 400)
    && (status == 400 ==> reply.CaughtBody?)
    && (FoundFacility(db).Some? ==> forall i :: 0 <= i < |writes| ==> !writes[i].InsertFacility?)
    && (FoundFacility(db).None? && db.facilitySelect.Ok? ==>
          && |writes| >= 1 && writes[0] == InsertFacility(p.profile.facility)
          && forall i :: 1 <= i < |writes| ==> !writes[i].InsertFacility?)
    && (status == 201 <==>
          db.facilitySelect.Ok? && (FoundFacility(db).Some? || db.facilityInsert.Ok?)
          && db.submission.Ok? && db.responses.None?)
    && (db.facilitySelect.Err? ==>
          status == 400 && reply == CaughtBody(Text(DbMessage(db.facilitySelect.error))) && writes == [])
    && (db.facilitySelect.Ok? && FoundFacility(db).None? && db.facilityInsert.Err? ==>
          && status == 400
          && reply == CaughtBody(Text(DbMessage(db.facilityInsert.error)))
          && writes == [InsertFacility(p.profile.facility)])
    && (FacilityId(db).Some? && db.submission.Err? ==>
          && status == 400
          && reply == CaughtBody(Text(DbMessage(db.submission.error)))
          && writes == FacilityWrites(p, db) + [InsertSubmission(SubmissionRowOf(p, FacilityId(db).value, ip, ua))])
    && (FacilityId(db).Some? && db.submission.Ok? && db.responses.Some? ==>
          && status == 400
          && reply == CaughtBody(Text(DbMessage(db.responses.value)))
          && writes == FacilityWrites(p, db)
                       + [InsertSubmission(SubmissionRowOf(p, FacilityId(db).value, ip, ua)),
                          InsertResponses(ResponseRows(db.submission.value, FacilityId(db).value, p.answers))])
    && (status == 201 ==>
          var fid := if FoundFacility(db).Some? then FoundFacility(db).value else db.facilityInsert.value;
          && reply == Created(db.submission.value)
          && writes == (if FoundFacility(db).Some? then [] else [InsertFacility(p.profile.facility)])
                       + [InsertSubmission(SubmissionRowOf(p, fid, ip, ua)),
                          InsertResponses(ResponseRows(db.submission.value, fid, p.answers))])
  }

  method Persist(p: Payload, ip: Option<string>, ua: Option<string>, db: ApiDb)
    returns (status: int, reply: ApiBody, writes: seq<ApiWrite>)
    ensures PersistOutcome(p, ip, ua, db, status, reply, writes)
  {
    writes := [];
    if db.facilitySelect.Err? {
      return 400, CaughtBody(Text(DbMessage(db.facilitySelect.error))), writes;
    }
    var facilityId := db.facilitySelect.value;
    if facilityId.None? || facilityId.value == "" {
      writes := writes + [InsertFacility(p.profile.facility)];
      if db.facilityInsert.Err? {
        return 400, CaughtBody(Text(DbMessage(db.facilityInsert.error))), writes;
      }
      facilityId := Some(db.facilityInsert.value);
    }
    var fid := facilityId.value;
    writes := writes + [InsertSubmission(SubmissionRowOf(p, fid, ip, ua))];
    if db.submission.Err? {
      return 400, CaughtBody(Text(DbMessage(db.submission.error))), writes;
    }
    var subId := db.submission.value;
    writes := writes + [InsertResponses(ResponseRows(subId, fid, p.answers))];
    if db.responses.Some? {
      return 400, CaughtBody(Text(DbMessage(db.responses.value))), writes;
    }
    return 201, Created(subId), writes;
  }
}
