/** Token lifecycle: the expiry test, the refresh exchange and the
    refresh-if-expired guard every authenticated call runs first. */
module Tokens {
  import opened Results
  import opened Json
  import opened Session

  /** A refreshed token is trusted for one hour minus a 30-second margin. */
  const TokenLifetime: int := 60 * 60 - 30

  /** The form the refresh request carries to the identity provider. */
  datatype TokenRequest = TokenRequest(refreshToken: Json, clientId: Json, clientSecret: Json, grantType: string)

  function TokenRequestFor(c: Creds): TokenRequest
  {
    TokenRequest(c.refreshToken, c.clientId, c.clientSecret, "refresh_token")
  }

  predicate IsExpired(c: Creds, now: int)
  {
    c.expiryTime <= now
  }

  /** `content["access_token"]` on the decoded reply; a missing field (or a
      reply that is not an object) is reported as a failed refresh. */
  function AccessTokenIn(reply: Body): (r: Result<Json>)
    ensures r.Ok? <==> reply.Parsed? && Field(reply.value, "access_token").Some?
    ensures r.Ok? ==> r.value == reply.value.fields["access_token"]
  {
    match reply
    case Unparsable => Err(BodyNotJson)
    case Parsed(v) =>
      match Field(v, "access_token")
      case None => Err(RefreshFailed)
      case Some(token) => Ok(token)
  }

  /** The token a reply grants: the `access_token` of a decoded object,
      when it is a string, the only kind the header can be built from. */
  function GrantedToken(reply: Body): (r: Option<string>)
    ensures r.Some? <==> && reply.Parsed? && reply.value.JObject?
                         && "access_token" in reply.value.fields
                         && reply.value.fields["access_token"].JStr?
    ensures r.Some? ==> reply.value.fields["access_token"] == JStr(r.value)
  {
    match AccessTokenIn(reply)
    case Ok(JStr(token)) => Some(token)
    case _ => None
  }

  /** `c'` is `c` after a refresh to `token` at time `now`: new token, new
      expiry, new authorization header, the file rewritten, all else kept. */
  predicate Refreshed(c: Client, c': Client, now: int, token: string)
  {
    && c'.creds.accessToken == JStr(token)
    && c'.creds.expiryTime == now + 60 * 60 - 30
    && c'.creds.clientId == c.creds.clientId
    && c'.creds.clientSecret == c.creds.clientSecret
    && c'.creds.orgId == c.creds.orgId
    && c'.creds.refreshToken == c.creds.refreshToken
    && c'.creds.scopes == c.creds.scopes
    && c'.headers.orgId == c.creds.orgId
    && c'.headers.authorization == "Zoho-oauthtoken " + token
    && c'.persisted == c'.creds
    && c'.logs == c.logs
  }

  /** `_refresh_access_token` as written: the token and expiry are stored
      before the header is built, so a token that is not a string leaves
      them changed when the concatenation raises. */
  function RefreshAsWritten(c: Client, now: int, tokenEndpoint: TokenRequest -> Body): Run<()>
  {
    var reply := tokenEndpoint(TokenRequestFor(c.creds));
    match AccessTokenIn(reply)
    case Err(e) => Run(Err(e), c)
    case Ok(token) =>
      var creds := c.creds.(accessToken := token, expiryTime := now + TokenLifetime);
      if token.JStr? then
        Run(Ok(()), c.(creds := creds, headers := HeadersFor(creds.orgId, token.s), persisted := creds))
      else
        Run(Err(TokenNotString), c.(creds := creds))
  }

  /** A reply with `"access_token": null` leaves a synchronised client with a
      null token and a new expiry in memory, the old header, the old file
      and the old log: the raise comes between the store and the dump. */
  lemma RefreshAsWrittenIsNotAtomic(c: Client, now: int)
    requires Synced(c)
    ensures var r := RefreshAsWritten(c, now, _ => Parsed(JObject(map["access_token" := JNull])));
            && r.result == Err(TokenNotString)
            && r.client.creds.accessToken == JNull
            && r.client.creds != c.creds
            && r.client.creds == c.creds.(accessToken := JNull, expiryTime := now + TokenLifetime)
            && r.client.headers == c.headers
            && r.client.persisted == c.persisted
            && r.client.logs == c.logs
            && !Synced(r.client)
  {
  }

  /** The refresh with the token checked before anything is stored: it
      either applies every effect or raises with the client untouched. */
  function Refresh(c: Client, now: int, tokenEndpoint: TokenRequest -> Body): (r: Run<()>)
    ensures r.result.Err? ==> r.client == c
    ensures r.result.Ok? <==> GrantedToken(tokenEndpoint(TokenRequestFor(c.creds))).Some?
    ensures r.result.Ok? ==> Refreshed(c, r.client, now, GrantedToken(tokenEndpoint(TokenRequestFor(c.creds))).value)
  {
    var reply := tokenEndpoint(TokenRequestFor(c.creds));
    match AccessTokenIn(reply)
    case Ok(JStr(_)) => RefreshAsWritten(c, now, tokenEndpoint)
    case Ok(_) => Run(Err(RefreshFailed), c)
    case Err(e) => Run(Err(e), c)
  }

  /** The correction changes nothing unless the reply's token is not a string. */
  lemma RefreshAgreesWithSourceOnStringTokens(c: Client, now: int, tokenEndpoint: TokenRequest -> Body)
    requires AccessTokenIn(tokenEndpoint(TokenRequestFor(c.creds))).Ok? ==>
             AccessTokenIn(tokenEndpoint(TokenRequestFor(c.creds))).value.JStr?
    ensures Refresh(c, now, tokenEndpoint) == RefreshAsWritten(c, now, tokenEndpoint)
  {
  }

  /** A successful refresh leaves the client synchronised and the token live. */
  lemma RefreshSynchronises(c: Client, now: int, tokenEndpoint: TokenRequest -> Body)
    ensures var r := Refresh(c, now, tokenEndpoint);
            r.result.Ok? ==> Synced(r.client) && !IsExpired(r.client.creds, now)
  {
  }

  /** `check_token`: refresh exactly when the token is expired. */
  function CheckToken(c: Client, now: int, tokenEndpoint: TokenRequest -> Body): (r: Run<()>)
    ensures !IsExpired(c.creds, now) ==> r == Run(Ok(()), c)
    ensures IsExpired(c.creds, now) ==> r == Refresh(c, now, tokenEndpoint)
    ensures r.result.Ok? ==> !IsExpired(r.client.creds, now)
    ensures r.result.Err? ==> r.client == c
  {
    if IsExpired(c.creds, now) then Refresh(c, now, tokenEndpoint) else Run(Ok(()), c)
  }

  /** `check_token` as written, around the refresh that can stop halfway. */
  function CheckTokenAsWritten(c: Client, now: int, tokenEndpoint: TokenRequest -> Body): Run<()>
  {
    if IsExpired(c.creds, now) then RefreshAsWritten(c, now, tokenEndpoint) else Run(Ok(()), c)
  }

  /** The guard the model uses is the source's guard whenever the reply's
      token, if there is one, is a string. */
  lemma CheckTokenAgreesWithSourceOnStringTokens(c: Client, now: int, tokenEndpoint: TokenRequest -> Body)
    requires AccessTokenIn(tokenEndpoint(TokenRequestFor(c.creds))).Ok? ==>
             AccessTokenIn(tokenEndpoint(TokenRequestFor(c.creds))).value.JStr?
    ensures CheckToken(c, now, tokenEndpoint) == CheckTokenAsWritten(c, now, tokenEndpoint)
  {
    if IsExpired(c.creds, now) {
      RefreshAgreesWithSourceOnStringTokens(c, now, tokenEndpoint);
    }
  }

  /** As written, an expired token and a reply with a null token make the
      guard raise and leave a synchronised client out of step with its
      header and file; the corrected guard raises with the client as it was. */
  lemma CheckTokenAsWrittenDesynchronises(c: Client, now: int)
    requires Synced(c) && IsExpired(c.creds, now)
    ensures var te: TokenRequest -> Body := _ => Parsed(JObject(map["access_token" := JNull]));
            && CheckTokenAsWritten(c, now, te).result.Err?
            && !Synced(CheckTokenAsWritten(c, now, te).client)
            && CheckToken(c, now, te) == Run(Err(RefreshFailed), c)
  {
    RefreshAsWrittenIsNotAtomic(c, now);
  }

  /** The guard keeps the client synchronised, and never touches the log. */
  lemma CheckTokenKeepsSynced(c: Client, now: int, tokenEndpoint: TokenRequest -> Body)
    requires Synced(c)
    ensures Synced(CheckToken(c, now, tokenEndpoint).client)
    ensures CheckToken(c, now, tokenEndpoint).client.logs == c.logs
  {
  }
}
