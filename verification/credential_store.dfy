/** The credential file's JSON object and the client's construction from it. */
module CredentialStore {
  import opened Results
  import opened Json
  import opened Session

  /** The object `json.dump(self._creds)` writes. */
  function ToJson(c: Creds): Json
  {
    JObject(map[
      "client_id" := c.clientId,
      "client_secret" := c.clientSecret,
      "org_id" := c.orgId,
      "access_token" := c.accessToken,
      "expiry_time" := JNum(c.expiryTime),
      "refresh_token" := c.refreshToken,
      "scopes" := c.scopes])
  }

  function AnyField(file: Json, key: string): (r: Result<Json>)
    ensures r.Ok? <==> Field(file, key).Some?
  {
    match Field(file, key)
    case Some(v) => Ok(v)
    case None => Err(BadConfig(key))
  }

  function IntField(file: Json, key: string): (r: Result<int>)
    ensures r.Ok? <==> Field(file, key).Some? && Field(file, key).value.JNum?
  {
    match Field(file, key)
    case Some(JNum(n)) => Ok(n)
    case _ => Err(BadConfig(key))
  }

  /** The file holds every key the constructor reads, with an integer expiry. */
  predicate Complete(file: Json)
  {
    && file.JObject?
    && "client_id" in file.fields
    && "client_secret" in file.fields
    && "org_id" in file.fields
    && "access_token" in file.fields
    && "expiry_time" in file.fields && file.fields["expiry_time"].JNum?
    && "refresh_token" in file.fields
    && "scopes" in file.fields
  }

  /** The `_creds` record read from the file's object, field by field in the
      source's order; the first missing field, or an expiry that is not an
      integer, is the error. Every other value is stored as it is. */
  function FromJson(file: Json): (r: Result<Creds>)
    ensures r.Ok? <==> Complete(file)
    ensures r.Ok? ==> forall k :: k in ToJson(r.value).fields ==>
                        k in file.fields && file.fields[k] == ToJson(r.value).fields[k]
  {
    var clientId :- AnyField(file, "client_id");
    var clientSecret :- AnyField(file, "client_secret");
    var orgId :- AnyField(file, "org_id");
    var accessToken :- AnyField(file, "access_token");
    var expiryTime :- IntField(file, "expiry_time");
    var refreshToken :- AnyField(file, "refresh_token");
    var scopes :- AnyField(file, "scopes");
    Ok(Creds(clientId, clientSecret, orgId, accessToken, expiryTime, refreshToken, scopes))
  }

  /** The client right after construction: credentials from the file,
      headers built from them (which raises unless the token is a string),
      and an empty log. */
  function Open(file: Json): (r: Result<Client>)
    ensures r.Ok? ==> Synced(r.value) && r.value.logs == []
    ensures r.Ok? <==> FromJson(file).Ok? && FromJson(file).value.accessToken.JStr?
    ensures r.Ok? ==> r.value.creds == FromJson(file).value
  {
    var creds :- FromJson(file);
    if creds.accessToken.JStr? then
      Ok(Client(creds, HeadersFor(creds.orgId, creds.accessToken.s), [], creds))
    else
      Err(TokenNotString)
  }

  /** Reading back what was written gives the same credentials. */
  lemma CredsRoundTrip(c: Creds)
    ensures FromJson(ToJson(c)) == Ok(c)
  {
  }

  /** A restarted client reopens the persisted file into the same state,
      minus the in-memory log. */
  lemma ReopenRestoresClient(c: Client)
    requires Synced(c)
    ensures Open(ToJson(c.persisted)) == Ok(c.(logs := []))
  {
    CredsRoundTrip(c.persisted);
  }
}
