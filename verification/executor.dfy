/** `_base_api_call`: the refresh guard, one request, one log entry. */
module Executor {
  import opened Results
  import opened Json
  import opened Session
  import opened Tokens

  /** What a call returns: `(status, content)` for GET, the status alone for
      POST and PUT. `content` is absent unless the status was 200. */
  datatype CallResult = GetResult(status: int, content: Option<Json>) | StatusOnly(status: int)

  /** Everything outside the process one call depends on: the clock, the
      identity provider, and the resource server's reply. */
  datatype Env = Env(now: int, tokenEndpoint: TokenRequest -> Body, reply: Reply)

  function Append(c: Client, entry: LogEntry): Client
  {
    c.(logs := c.logs + [entry])
  }

  /** The request itself, once the token is known to be live. */
  function Execute(c: Client, now: int, reply: Reply, verb: string, url: Url, payload: Json): Run<CallResult>
  {
    if verb == "GET" then
      if reply.status == 200 then
        match reply.body
        case Unparsable => Run(Err(BodyNotJson), c)
        case Parsed(content) =>
          if content.JObject? then
            var count := GetOrNull(content, "count");
            Run(Ok(GetResult(200, Some(content))), Append(c, LogEntry(now, verb, url, payload, 200, count)))
          else
            Run(Err(BodyNotObject), c)
      else
        Run(Ok(GetResult(reply.status, None)), Append(c, LogEntry(now, verb, url, payload, reply.status, JNum(0))))
    else if verb == "POST" || verb == "PUT" then
      Run(Ok(StatusOnly(reply.status)), Append(c, LogEntry(now, verb, url, payload, reply.status, JNum(0))))
    else
      Run(Err(UnknownMethod(verb)), c)
  }

  /** A GET whose reply the client can decode: any status but 200, or 200
      with a JSON object body. */
  predicate Decodable(reply: Reply)
  {
    reply.status == 200 ==> reply.body.Parsed? && reply.body.value.JObject?
  }

  /** The decorated `_base_api_call`. A returning call appends exactly one
      entry, recording this call, and rewrites no earlier one; a raising
      call appends nothing. */
  function BaseApiCall(c: Client, env: Env, verb: string, url: Url, payload: Json): (r: Run<CallResult>)
    ensures |r.client.logs| == |c.logs| + (if r.result.Ok? then 1 else 0)
    ensures r.client.logs[..|c.logs|] == c.logs
    ensures r.client.(logs := c.logs) == CheckToken(c, env.now, env.tokenEndpoint).client
    ensures r.result.Ok? ==>
              r.client.logs[|c.logs|] ==
              LogEntry(env.now, verb, url, payload, env.reply.status, r.client.logs[|c.logs|].count)
    ensures r.result.Ok? <==>
              && CheckToken(c, env.now, env.tokenEndpoint).result.Ok?
              && (verb == "GET" || verb == "POST" || verb == "PUT")
              && (verb == "GET" ==> Decodable(env.reply))
  {
    var guard := CheckToken(c, env.now, env.tokenEndpoint);
    match guard.result
    case Err(e) => Run(Err(e), guard.client)
    case Ok(_) => Execute(guard.client, env.now, env.reply, verb, url, payload)
  }

  /** GET: a non-200 reply returns `(status, None)` and logs count 0; a 200
      reply returns the decoded body and logs its `count` (null if absent). */
  lemma GetReturnsAndLogs(c: Client, env: Env, url: Url, payload: Json)
    ensures var r := BaseApiCall(c, env, "GET", url, payload);
            r.result.Ok? ==>
              && r.result.value.GetResult?
              && r.result.value.status == env.reply.status
              && (env.reply.status != 200 ==>
                    r.result.value.content == None && r.client.logs[|c.logs|].count == JNum(0))
              && (env.reply.status == 200 ==>
                    && env.reply.body == Parsed(r.result.value.content.value)
                    && r.client.logs[|c.logs|].count ==
                       (if "count" in env.reply.body.value.fields then env.reply.body.value.fields["count"] else JNull))
  {
  }

  /** POST and PUT return the status only and log count 0. */
  lemma WriteReturnsStatus(c: Client, env: Env, verb: string, url: Url, payload: Json)
    requires verb == "POST" || verb == "PUT"
    ensures var r := BaseApiCall(c, env, verb, url, payload);
            r.result.Ok? ==>
              r.result.value == StatusOnly(env.reply.status) && r.client.logs[|c.logs|].count == JNum(0)
  {
  }

  /** A call leaves the client synchronised: the log is the only thing a
      request changes, and the guard keeps credentials and file in step. */
  lemma CallKeepsSynced(c: Client, env: Env, verb: string, url: Url, payload: Json)
    requires Synced(c)
    ensures Synced(BaseApiCall(c, env, verb, url, payload).client)
  {
    CheckTokenKeepsSynced(c, env.now, env.tokenEndpoint);
  }

  /** A GET of an endpoint answering HTTP 500 returns `(500, None)` and
      appends one entry whose count is 0. */
  lemma ServerErrorScenario(c: Client, now: int, endpoint: string)
    requires !IsExpired(c.creds, now)
    ensures var env := Env(now, _ => Unparsable, Reply(500, Unparsable));
            var r := BaseApiCall(c, env, "GET", Url(endpoint, None), JObject(map[]));
            && r.result == Ok(GetResult(500, None))
            && r.client.logs == c.logs + [LogEntry(now, "GET", Url(endpoint, None), JObject(map[]), 500, JNum(0))]
  {
  }
}
