/** `POST /companyRecords/search`: records whose name or ISIN contains the query. */
module SearchController {
  import opened Wrappers
  import opened Json
  import opened Express
  import opened ErrorHandlers
  import opened Jwt
  import opened Postgres
  import opened RequestVerifier

  /** `%${req.body.query}%`: the query as a template literal renders it, wildcard-wrapped and unescaped. */
  function SearchTerm(body: Json): (term: string)
    ensures |term| >= 2 && term[0] == '%' && term[|term| - 1] == '%'
    ensures term[1..|term| - 1] == JsString(Member(body, "query"))
  {
    "%" + JsString(Member(body, "query")) + "%"
  }

  /** The one statement `searchRecord` sends: the same term binds the name and the isin pattern. */
  function SearchQuery(body: Json): (q: Query)
    ensures q.statement == SearchCompanyRecords && q.params == [JStr(SearchTerm(body))]
  {
    Query(SearchCompanyRecords, [JStr(SearchTerm(body))])
  }

  /** How the work after `verifyToken` ends: the rows with 200, or the search's error thrown. */
  function SearchWork(body: Json, db: Query -> DbResult): (f: Finish)
    ensures db(SearchQuery(body)).Rows? ==> f == Wrote(Reply(200, JArr(db(SearchQuery(body)).rows)))
    ensures db(SearchQuery(body)).Failed? ==> f == Threw(db(SearchQuery(body)).Error())
  {
    match db(SearchQuery(body))
    case Rows(rows) => Wrote(Reply(200, JArr(rows)))
    case Failed(_) => Threw(db(SearchQuery(body)).Error())
  }

  /** What `searchRecord` writes and lets escape. */
  function SearchOutcome(req: Request, verify: string -> Verification, db: Query -> DbResult): (o: Outcome)
    ensures HasBearer(req.authorization) && TokenError(req.authorization, verify).None? ==>
      o == Outcome([match db(SearchQuery(req.body))
                    case Rows(rows) => Reply(200, JArr(rows))
                    case Failed(_) => Reply(500, InternalServerError)], None)
    ensures HasBearer(req.authorization) && TokenError(req.authorization, verify) == Some(JwtError) ==>
      o == Outcome([Reply(401, InvalidToken)], None)
    ensures !HasBearer(req.authorization) ==>
      o.escaped == Some(HeadersSent) &&
      o.replies == [Reply(403, TokenRequired)] + (match db(SearchQuery(req.body))
        case Rows(rows) => [Reply(200, JArr(rows)), Reply(500, InternalServerError)]
        case Failed(_) => [Reply(500, InternalServerError)])
  {
    Guarded(req.authorization, verify, SearchWork(req.body, db), CatchPlain)
  }

  /** The statements `searchRecord` sends: the search runs unless the token was rejected. */
  function SearchQueries(req: Request, verify: string -> Verification): (qs: seq<Query>)
    ensures qs == [] || qs == [SearchQuery(req.body)]
    ensures qs != [] <==> WorkRuns(req.authorization, verify)
  {
    if WorkRuns(req.authorization, verify) then [SearchQuery(req.body)] else []
  }

  /** `searchRecord(req, res)` on a fresh response. */
  method SearchRecord(req: Request, res: Response, pool: Pool, verify: string -> Verification, db: Query -> DbResult)
    returns (escaped: Option<Exception>)
    requires res.attempts == [] && res.cookies == []
    modifies res, pool
    ensures res.attempts == SearchOutcome(req, verify, db).replies
    ensures escaped == SearchOutcome(req, verify, db).escaped
    ensures pool.issued == old(pool.issued) + SearchQueries(req, verify)
    ensures pool.checkedOut == old(pool.checkedOut) && res.cookies == []
  {
    var err := VerifyToken(res, req.authorization, verify);
    if err.None? {
      var searchTerm := "%" + JsString(Member(req.body, "query")) + "%";
      var result := pool.Run(Query(SearchCompanyRecords, [JStr(searchTerm)]), db);
      if result.Failed? {
        err := Some(result.Error());
      } else {
        err := res.Json(200, JArr(result.rows));
        if err.None? {
          return None;
        }
      }
    }
    escaped := CatchPlainBlock(res, err.value);
  }
}
