/** The state one `Zoho` client object carries: credentials, request headers,
    the request log, and the credentials as the file on disk holds them. */
module Session {
  import opened Results
  import opened Json

  /** The `_creds` record. Every field but the expiry is kept as the JSON
      value it was given: the constructor stores the file's values as they
      are, and a refresh stores whatever the token endpoint replied. */
  datatype Creds = Creds(
    clientId: Json,
    clientSecret: Json,
    orgId: Json,
    accessToken: Json,
    expiryTime: int,
    refreshToken: Json,
    scopes: Json)

  /** The `_headers` record sent with every authenticated request. */
  datatype Headers = Headers(orgId: Json, authorization: string)

  /** A paginated list query: the `from` and `limit` keys and every other key. */
  datatype Query = Query(from: Option<int>, limit: Option<int>, others: map<string, string>)

  /** A request target: the endpoint, plus the query a paginated call encodes
      into it. The URL encoding itself is not modelled. */
  datatype Url = Url(endpoint: string, query: Option<Query>)

  /** One row of `_logs`: time, method, url, payload, HTTP status, count. */
  datatype LogEntry = LogEntry(time: int, verb: string, url: Url, payload: Json, status: int, count: Json)

  /** What the remote service answers to one request. */
  datatype Reply = Reply(status: int, body: Body)

  datatype Client = Client(creds: Creds, headers: Headers, logs: seq<LogEntry>, persisted: Creds)

  /** The outcome of an operation on the client: a result, and the client
      state afterwards (an exception keeps the mutations made before it). */
  datatype Run<T> = Run(result: Result<T>, client: Client)

  const AuthScheme: string := "Zoho-oauthtoken "

  function HeadersFor(orgId: Json, token: string): Headers
  {
    Headers(orgId, AuthScheme + token)
  }

  /** The headers carry the current token, and the file holds the current
      credentials: no credential state lives only in memory. */
  predicate Synced(c: Client)
  {
    && c.creds.accessToken.JStr?
    && c.headers == HeadersFor(c.creds.orgId, c.creds.accessToken.s)
    && c.persisted == c.creds
  }
}
