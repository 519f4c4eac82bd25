/** `GET /companyRecords/fetch`: every company record. */
module FetchController {
  import opened Wrappers
  import opened Json
  import opened Express
  import opened ErrorHandlers
  import opened Jwt
  import opened Postgres
  import opened RequestVerifier

  const FetchAll := Query(SelectCompanyRecords, [])

  /** How the work after `verifyToken` ends, given the database's answer. */
  function FetchWork(db: Query -> DbResult): (f: Finish)
    ensures db(FetchAll).Rows? ==> f == Wrote(Reply(200, JArr(db(FetchAll).rows)))
    ensures db(FetchAll).Failed? ==> f == Threw(db(FetchAll).Error())
  {
    match db(FetchAll)
    case Rows(rows) => Wrote(Reply(200, JArr(rows)))
    case Failed(_) => Threw(db(FetchAll).Error())
  }

  /** What `fetchRecord` writes and lets escape. */
  function FetchOutcome(req: Request, verify: string -> Verification, db: Query -> DbResult): (o: Outcome)
    ensures HasBearer(req.authorization) && TokenError(req.authorization, verify).None? ==>
      o == Outcome([match db(FetchAll)
                    case Rows(rows) => Reply(200, JArr(rows))
                    case Failed(_) => Reply(500, InternalServerError)], None)
    ensures HasBearer(req.authorization) && TokenError(req.authorization, verify) == Some(JwtError) ==>
      o == Outcome([Reply(401, InvalidToken)], None)
    ensures !HasBearer(req.authorization) ==>
      o.escaped == Some(HeadersSent) &&
      o.replies == [Reply(403, TokenRequired)] + (match db(FetchAll)
        case Rows(rows) => [Reply(200, JArr(rows)), Reply(500, InternalServerError)]
        case Failed(_) => [Reply(500, InternalServerError)])
  {
    Guarded(req.authorization, verify, FetchWork(db), CatchPlain)
  }

  /** The statements `fetchRecord` sends: the select runs unless the token was rejected. */
  function FetchQueries(req: Request, verify: string -> Verification): (qs: seq<Query>)
    ensures qs == [] || qs == [FetchAll]
    ensures qs == [FetchAll] <==> WorkRuns(req.authorization, verify)
  {
    if WorkRuns(req.authorization, verify) then [FetchAll] else []
  }

  /** `fetchRecord(req, res)` on a fresh response. */
  method FetchRecord(req: Request, res: Response, pool: Pool, verify: string -> Verification, db: Query -> DbResult)
    returns (escaped: Option<Exception>)
    requires res.attempts == [] && res.cookies == []
    modifies res, pool
    ensures res.attempts == FetchOutcome(req, verify, db).replies
    ensures escaped == FetchOutcome(req, verify, db).escaped
    ensures pool.issued == old(pool.issued) + FetchQueries(req, verify)
    ensures pool.checkedOut == old(pool.checkedOut) && res.cookies == []
  {
    var err := VerifyToken(res, req.authorization, verify);
    if err.None? {
      var result := pool.Run(FetchAll, db);
      if result.Failed? {
        err := Some(result.Error());
      } else {
        err := res.Json(200, JArr(result.rows));
        if err.None? {
          return None;
        }
      }
    }
    escaped := CatchPlainBlock(res, err.value);
  }
}
