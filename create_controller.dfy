/** `POST /companyRecords/create`: inserts one company record. */
module CreateController {
  import opened Wrappers
  import opened Json
  import opened Express
  import opened ErrorHandlers
  import opened Jwt
  import opened Postgres
  import opened RequestVerifier

  const MissingFields: Json := Obj1("error", "Missing required fields")

  const Created: Json := Obj1("message", "Record created successfully")

  /** `!name || !exchange || !ticker || !ISIN` is false: all four are truthy. */
  predicate RequiredPresent(body: Json) {
    Truthy(Member(body, "name")) && Truthy(Member(body, "exchange"))
    && Truthy(Member(body, "ticker")) && Truthy(Member(body, "ISIN"))
  }

  /** The insert for a body with its required fields: name, exchange, ticker, ISIN, then website or null. */
  function InsertQuery(body: Json): (q: Query)
    requires RequiredPresent(body)
    ensures q.statement == InsertCompanyRecord && |q.params| == 5
    ensures Some(q.params[0]) == Member(body, "name") && Some(q.params[1]) == Member(body, "exchange")
    ensures Some(q.params[2]) == Member(body, "ticker") && Some(q.params[3]) == Member(body, "ISIN")
    ensures q.params[4] == if Truthy(Member(body, "website")) then Member(body, "website").value else JNull
  {
    var website := Member(body, "website");
    Query(InsertCompanyRecord, [Member(body, "name").value, Member(body, "exchange").value,
                         Member(body, "ticker").value, Member(body, "ISIN").value,
                         if Truthy(website) then website.value else JNull])
  }

  /** How the work after `verifyToken` ends: 400 without the required fields, else the insert's outcome. */
  function CreateWork(body: Json, db: Query -> DbResult): (f: Finish)
    ensures !RequiredPresent(body) ==> f == Wrote(Reply(400, MissingFields))
    ensures RequiredPresent(body) && db(InsertQuery(body)).Rows? ==> f == Wrote(Reply(201, Created))
    ensures RequiredPresent(body) && db(InsertQuery(body)).Failed? ==> f == Threw(db(InsertQuery(body)).Error())
  {
    if !RequiredPresent(body) then Wrote(Reply(400, MissingFields))
    else match db(InsertQuery(body))
      case Rows(_) => Wrote(Reply(201, Created))
      case Failed(_) => Threw(db(InsertQuery(body)).Error())
  }

  /** What `createRecord` writes and lets escape. */
  function CreateOutcome(req: Request, verify: string -> Verification, db: Query -> DbResult): (o: Outcome)
    ensures HasBearer(req.authorization) && TokenError(req.authorization, verify).None? ==>
      o.escaped == None && o.replies == [
        if !RequiredPresent(req.body) then Reply(400, MissingFields)
        else match db(InsertQuery(req.body))
          case Rows(_) => Reply(201, Created)
          case Failed(code) =>
            if code == Some(UniqueViolation) then Reply(409, Obj1("error", "Record with this ISIN already exists"))
            else Reply(500, InternalServerError)]
    ensures HasBearer(req.authorization) && TokenError(req.authorization, verify) == Some(JwtError) ==>
      o == Outcome([Reply(401, InvalidToken)], None)
    ensures !HasBearer(req.authorization) ==>
      o.escaped == Some(HeadersSent) && |o.replies| >= 2 && o.replies[0] == Reply(403, TokenRequired)
    ensures !HasBearer(req.authorization) && !RequiredPresent(req.body) ==>
      o.replies == [Reply(403, TokenRequired), Reply(400, MissingFields), Reply(500, InternalServerError)]
  {
    Guarded(req.authorization, verify, CreateWork(req.body, db), CatchUnique)
  }

  /** The statements `createRecord` sends: the insert runs when the fields are there, unless the token was rejected. */
  function CreateQueries(req: Request, verify: string -> Verification): (qs: seq<Query>)
    ensures qs != [] <==> WorkRuns(req.authorization, verify) && RequiredPresent(req.body)
    ensures qs != [] ==> qs == [InsertQuery(req.body)]
  {
    if WorkRuns(req.authorization, verify) && RequiredPresent(req.body) then [InsertQuery(req.body)] else []
  }

  /** `createRecord(req, res)` on a fresh response. */
  method CreateRecord(req: Request, res: Response, pool: Pool, verify: string -> Verification, db: Query -> DbResult)
    returns (escaped: Option<Exception>)
    requires res.attempts == [] && res.cookies == []
    modifies res, pool
    ensures res.attempts == CreateOutcome(req, verify, db).replies
    ensures escaped == CreateOutcome(req, verify, db).escaped
    ensures pool.issued == old(pool.issued) + CreateQueries(req, verify)
    ensures pool.checkedOut == old(pool.checkedOut) && res.cookies == []
  {
    var err := VerifyToken(res, req.authorization, verify);
    if err.None? {
      var name, exchange, ticker, isin, website :=
        Member(req.body, "name"), Member(req.body, "exchange"), Member(req.body, "ticker"),
        Member(req.body, "ISIN"), Member(req.body, "website");
      if !Truthy(name) || !Truthy(exchange) || !Truthy(ticker) || !Truthy(isin) {
        err := res.Json(400, MissingFields);
        if err.None? {
          return None;
        }
      } else {
        var values := [name.value, exchange.value, ticker.value, isin.value,
                       if Truthy(website) then website.value else JNull];
        var result := pool.Run(Query(InsertCompanyRecord, values), db);
        if result.Failed? {
          err := Some(result.Error());
        } else {
          err := res.Json(201, Created);
          if err.None? {
            return None;
          }
        }
      }
    }
    escaped := CatchUniqueBlock(res, err.value);
  }
}
