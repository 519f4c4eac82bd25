/**
 * The client's record API. Every call first reads the `authToken` cookie;
 * without one it throws synchronously, before any request is issued.
 */
module CompanyRecordsService {
  import opened Wrappers
  import opened Json
  import opened HttpClient
  import opened Browser

  const CreateEndpoint := "http://localhost:3000/companyRecords/create"

  const FetchEndpoint := "http://localhost:3000/companyRecords/fetch"

  const SearchEndpoint := "http://localhost:3000/companyRecords/search"

  const UpdateEndpoint := "http://localhost:3000/companyRecords/update"

  const TokenKey := "authToken"

  const NoToken := "No authentication token found"

  /** `getAuthToken()` for the cookie value `token`: the bearer header, or the error it throws. */
  function AuthHeader(token: string): (r: Result<string, string>)
    ensures r.Throws? <==> token == ""
    ensures r.Throws? ==> r.error == NoToken
    ensures r.Ok? ==> r.value == "Bearer " + token
  {
    if token == "" then Throws(NoToken) else Ok("Bearer " + token)
  }

  /** A request carrying the header, or the error thrown before it is built. */
  function WithHeader(token: string, verb: HttpMethod, url: string, body: Option<Json>): (r: Result<HttpRequest, string>)
    ensures r.Throws? <==> token == ""
    ensures r.Throws? ==> r.error == NoToken
    ensures r.Ok? ==> r.value == HttpRequest(verb, url, body, Some("Bearer " + token), false)
  {
    match AuthHeader(token)
    case Throws(e) => Throws(e)
    case Ok(header) => Ok(HttpRequest(verb, url, body, Some(header), false))
  }

  class CompanyRecordsService {
    const cookies: CookieJar

    constructor (cookies: CookieJar)
      ensures this.cookies == cookies
    {
      this.cookies := cookies;
    }

    /** `getAuthToken()` on the current cookies. */
    function GetAuthToken(): (r: Result<string, string>)
      reads this, cookies
      ensures r.Throws? <==> TokenKey !in cookies.cookies || cookies.cookies[TokenKey] == ""
      ensures r.Ok? ==> r.value == "Bearer " + cookies.cookies[TokenKey]
    {
      AuthHeader(cookies.Get(TokenKey))
    }

    /** `create(record)`: POST the record as it is to the create endpoint. */
    function Create(record: Json): (r: Result<HttpRequest, string>)
      reads this, cookies
      ensures r.Throws? <==> GetAuthToken().Throws?
      ensures r.Ok? ==> r.value.verb == Post && r.value.url == CreateEndpoint
      ensures r.Ok? ==> r.value.body == Some(record) && r.value.authorization == Some(GetAuthToken().value)
    {
      WithHeader(cookies.Get(TokenKey), Post, CreateEndpoint, Some(record))
    }

    /** `fetch()`: GET every record, with no body. */
    function Fetch(): (r: Result<HttpRequest, string>)
      reads this, cookies
      ensures r.Throws? <==> GetAuthToken().Throws?
      ensures r.Ok? ==> r.value.verb == Get && r.value.url == FetchEndpoint
      ensures r.Ok? ==> r.value.body == None && r.value.authorization == Some(GetAuthToken().value)
    {
      WithHeader(cookies.Get(TokenKey), Get, FetchEndpoint, None)
    }

    /** `search(query)`: POST `{query}` to the search endpoint. */
    function Search(query: string): (r: Result<HttpRequest, string>)
      reads this, cookies
      ensures r.Throws? <==> GetAuthToken().Throws?
      ensures r.Ok? ==> r.value.verb == Post && r.value.url == SearchEndpoint
      ensures r.Ok? ==> r.value.body == Some(JObj(map["query" := JStr(query)]))
      ensures r.Ok? ==> r.value.authorization == Some(GetAuthToken().value)
    {
      WithHeader(cookies.Get(TokenKey), Post, SearchEndpoint, Some(JObj(map["query" := JStr(query)])))
    }

    /** `update(record)`: POST the record as it is to the update endpoint. */
    function Update(record: Json): (r: Result<HttpRequest, string>)
      reads this, cookies
      ensures r.Throws? <==> GetAuthToken().Throws?
      ensures r.Ok? ==> r.value.verb == Post && r.value.url == UpdateEndpoint
      ensures r.Ok? ==> r.value.body == Some(record) && r.value.authorization == Some(GetAuthToken().value)
    {
      WithHeader(cookies.Get(TokenKey), Post, UpdateEndpoint, Some(record))
    }
  }
}
