/** `POST /companyRecords/update`: overwrites one company record by id. */
module UpdateController {
  import opened Wrappers
  import opened Json
  import opened Express
  import opened ErrorHandlers
  import opened Jwt
  import opened Postgres
  import opened RequestVerifier

  const RecordNotFound: Json := Obj1("message", "Record not found")

  /**
   * The update for a body, with no check of its fields: `$1..$6` are name,
   * exchange, ticker, ISIN, website and id, each passed as given (NULL when absent).
   */
  function UpdateQuery(body: Json): (q: Query)
    ensures q.statement == UpdateCompanyRecord && |q.params| == 6
    ensures forall i :: 0 <= i < 6 ==> q.params[i] == Param(Member(body, ["name", "exchange", "ticker", "ISIN", "website", "id"][i]))
  {
    Query(UpdateCompanyRecord, [Param(Member(body, "name")), Param(Member(body, "exchange")), Param(Member(body, "ticker")),
                         Param(Member(body, "ISIN")), Param(Member(body, "website")), Param(Member(body, "id"))])
  }

  /** How the work after `verifyToken` ends: 404 when no row changed, the first row with 200, or the error thrown. */
  function UpdateWork(body: Json, db: Query -> DbResult): (f: Finish)
    ensures db(UpdateQuery(body)).Rows? && db(UpdateQuery(body)).rows == [] ==> f == Wrote(Reply(404, RecordNotFound))
    ensures db(UpdateQuery(body)).Rows? && db(UpdateQuery(body)).rows != [] ==>
      f == Wrote(Reply(200, db(UpdateQuery(body)).rows[0]))
    ensures db(UpdateQuery(body)).Failed? ==> f == Threw(db(UpdateQuery(body)).Error())
  {
    match db(UpdateQuery(body))
    case Rows(rows) => if |rows| == 0 then Wrote(Reply(404, RecordNotFound)) else Wrote(Reply(200, rows[0]))
    case Failed(_) => Threw(db(UpdateQuery(body)).Error())
  }

  /** What `updateRecord` writes and lets escape. */
  function UpdateOutcome(req: Request, verify: string -> Verification, db: Query -> DbResult): (o: Outcome)
    ensures HasBearer(req.authorization) && TokenError(req.authorization, verify).None? ==>
      o.escaped == None && o.replies == [
        match db(UpdateQuery(req.body))
        case Rows(rows) => if |rows| == 0 then Reply(404, RecordNotFound) else Reply(200, rows[0])
        case Failed(code) =>
          if code == Some(UniqueViolation) then Reply(409, Obj1("error", "Record with this ISIN already exists"))
          else Reply(500, InternalServerError)]
    ensures HasBearer(req.authorization) && TokenError(req.authorization, verify) == Some(JwtError) ==>
      o == Outcome([Reply(401, InvalidToken)], None)
    ensures !HasBearer(req.authorization) ==>
      o.escaped == Some(HeadersSent) && |o.replies| >= 2 && o.replies[0] == Reply(403, TokenRequired)
  {
    Guarded(req.authorization, verify, UpdateWork(req.body, db), CatchUnique)
  }

  /** The statements `updateRecord` sends: the update runs unless the token was rejected. */
  function UpdateQueries(req: Request, verify: string -> Verification): (qs: seq<Query>)
    ensures qs == [] || qs == [UpdateQuery(req.body)]
    ensures qs != [] <==> WorkRuns(req.authorization, verify)
  {
    if WorkRuns(req.authorization, verify) then [UpdateQuery(req.body)] else []
  }

  /** `updateRecord(req, res)` on a fresh response. */
  method UpdateRecord(req: Request, res: Response, pool: Pool, verify: string -> Verification, db: Query -> DbResult)
    returns (escaped: Option<Exception>)
    requires res.attempts == [] && res.cookies == []
    modifies res, pool
    ensures res.attempts == UpdateOutcome(req, verify, db).replies
    ensures escaped == UpdateOutcome(req, verify, db).escaped
    ensures pool.issued == old(pool.issued) + UpdateQueries(req, verify)
    ensures pool.checkedOut == old(pool.checkedOut) && res.cookies == []
  {
    var err := VerifyToken(res, req.authorization, verify);
    if err.None? {
      var b := req.body;
      var updateValues := [Param(Member(b, "name")), Param(Member(b, "exchange")), Param(Member(b, "ticker")),
                           Param(Member(b, "ISIN")), Param(Member(b, "website")), Param(Member(b, "id"))];
      var result := pool.Run(Query(UpdateCompanyRecord, updateValues), db);
      if result.Failed? {
        err := Some(result.Error());
      } else if |result.rows| == 0 {
        err := res.Json(404, RecordNotFound);
        if err.None? {
          return None;
        }
      } else {
        err := res.Json(200, result.rows[0]);
        if err.None? {
          return None;
        }
      }
    }
    escaped := CatchUniqueBlock(res, err.value);
  }
}
