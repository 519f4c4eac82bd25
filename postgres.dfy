/**
 * The database as the handlers see it: a pool that hands out clients, runs
 * parameterised statements and answers with rows or an error. The answers
 * come from an oracle; the pool records what was asked of it and how many
 * clients are checked out.
 */
module Postgres {
  import opened Wrappers
  import opened Json
  import opened Express

  /** The SQL statements of the server, each taking positional parameters `$1, $2, ...`. */
  datatype Statement =
    | SelectUser            // the user whose passcode is $1: its id, name and key
    | InsertCompanyRecord   // a new company record from name, exchange, ticker, isin and website ($1..$5), returning it
    | UpdateCompanyRecord   // overwrite those five columns ($1..$5) of the record whose id is $6, returning it
    | SelectCompanyRecords  // every company record
    | SearchCompanyRecords  // the records whose name or isin matches the pattern $1, ignoring case

  datatype Query = Query(statement: Statement, params: seq<Json>)

  /**
   * The answer to a query: its rows (as many as `rowCount`), or a failure
   * carrying the error's `code` (a SQLSTATE, or a Node code such as
   * ECONNREFUSED), if it has one.
   */
  datatype DbResult = Rows(rows: seq<Json>) | Failed(code: Option<string>) {
    /** The error a failed query throws; never a JsonWebTokenError. */
    function Error(): (e: Exception)
      requires Failed?
      ensures e != JwtError
    {
      if code.Some? then Coded(code.value) else Uncoded
    }
  }

  /** PostgreSQL's SQLSTATE for unique_violation. */
  const UniqueViolation := "23505"

  /** node-postgres sends `undefined` parameters as SQL NULL. */
  function Param(v: Option<Json>): (p: Json)
    ensures v.None? ==> p == JNull
    ensures v.Some? ==> p == v.value
  {
    if v.None? then JNull else v.value
  }

  class Pool {
    /** Every statement sent to the database, in order. */
    var issued: seq<Query>
    /** Clients handed out by `connect` and not yet released. */
    var checkedOut: int

    constructor ()
      ensures issued == [] && checkedOut == 0
    {
      issued, checkedOut := [], 0;
    }

    /** `pool.connect()`, with `failure` the error it throws, if any. */
    method Connect(failure: Option<Exception>) returns (thrown: Option<Exception>)
      modifies this
      ensures issued == old(issued)
      ensures thrown == failure
      ensures checkedOut == if failure.None? then old(checkedOut) + 1 else old(checkedOut)
    {
      thrown := failure;
      if failure.None? {
        checkedOut := checkedOut + 1;
      }
    }

    /** `client.release()`. */
    method Release()
      modifies this
      ensures issued == old(issued) && checkedOut == old(checkedOut) - 1
    {
      checkedOut := checkedOut - 1;
    }

    /** `pool.query(..)` or `client.query(..)`: the database's answer to `q`. */
    method Run(q: Query, db: Query -> DbResult) returns (r: DbResult)
      modifies this
      ensures issued == old(issued) + [q] && checkedOut == old(checkedOut)
      ensures r == db(q)
    {
      issued := issued + [q];
      r := db(q);
    }
  }
}
