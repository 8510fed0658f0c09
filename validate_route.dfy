/**
 * The `/api/validate-api-key` route (src/app/api/validate-api-key/route.js):
 * POST reads the key from the JSON body, GET from the `apiKey` query parameter;
 * both map the validator's verdict to an HTTP status. The route's own copies of
 * `validateApiKey` and `updateLastUsed` are the same logic as the store's, so
 * they are the `KeyTable` members here.
 */
module ValidateRoute {

  import opened Store
  import opened ApiKeys

  /** What `await request.json()` gives, as far as `const { apiKey } = body` can see. */
  datatype Body =
    | Unparsable            // `request.json()` rejects
    | JsonNull              // the body is `null`: destructuring it throws
    | Json(apiKey: Option<string>)

  /** The JSON body and status of a `NextResponse`. */
  datatype Response = Response(status: int, isValid: bool, error: Option<string>, keyData: Option<KeyData>)

  const KeyRequired: string := "API key is required"
  const InternalError: string := "Internal server error"

  /** The 400 answer to a request without a key. */
  const MissingKey: Response := Response(400, false, Some(KeyRequired), None)

  /** The 500 answer when handling the request throws before validation. */
  const ServerError: Response := Response(500, false, Some(InternalError), None)

  /** `NextResponse.json(result, { status: result.isValid ? 200 : 401 })`. */
  function FromVerdict(v: Validation): Response
  {
    Response(if v.isValid then 200 else 401, v.isValid, v.error, v.keyData)
  }

  /** The response of POST for a given body, against the rows as they were. */
  function PostResponse(rows: seq<ApiKeyRecord>, body: Body, lookupFault: Option<string>): (r: Response)
    ensures r.status == 200 || r.status == 400 || r.status == 401 || r.status == 500
    ensures r.status == 500 <==> !body.Json?
    ensures r.status == 400 <==> body.Json? && !Truthy(body.apiKey)
    ensures r.status == 200 <==>
              body.Json? && Truthy(body.apiKey) && Verdict(rows, body.apiKey.value, lookupFault).isValid
    ensures r.isValid <==> r.status == 200
    ensures r.status == 400 ==> r.error == Some(KeyRequired)
    ensures r.status == 500 ==> r.error == Some(InternalError)
    ensures body.Json? && Truthy(body.apiKey) && lookupFault.Some? ==> r.status == 401 && r.error == lookupFault
  {
    match body
    case Unparsable => ServerError
    case JsonNull => ServerError
    case Json(apiKey) =>
      if !Truthy(apiKey) then MissingKey
      else FromVerdict(Verdict(rows, apiKey.value, lookupFault))
  }

  /** The response of GET for the `apiKey` query parameter; it has no 500 path. */
  function GetResponse(rows: seq<ApiKeyRecord>, apiKeyParam: Option<string>, lookupFault: Option<string>): (r: Response)
    ensures r.status == 200 || r.status == 400 || r.status == 401
    ensures r.status == 400 <==> !Truthy(apiKeyParam)
    ensures r.status == 200 <==> Truthy(apiKeyParam) && Verdict(rows, apiKeyParam.value, lookupFault).isValid
    ensures r.isValid <==> r.status == 200
    ensures r.status == 400 ==> r.error == Some(KeyRequired)
    ensures Truthy(apiKeyParam) && lookupFault.Some? ==> r.status == 401 && r.error == lookupFault
  {
    if !Truthy(apiKeyParam) then MissingKey
    else FromVerdict(Verdict(rows, apiKeyParam.value, lookupFault))
  }

  /**
   * The POST status as a decision table over the table's contents: 200 exactly
   * when the key is given, the lookup succeeds and an active row holds the key.
   */
  lemma PostStatusTable(rows: seq<ApiKeyRecord>, body: Body, lookupFault: Option<string>)
    requires UniqueApiKeys(rows)
    ensures PostResponse(rows, body, lookupFault).status == 200 <==>
              && body.Json? && Truthy(body.apiKey) && lookupFault.None?
              && exists i :: 0 <= i < |rows| && rows[i].apiKey == body.apiKey.value && rows[i].isActive
  {
    if body.Json? && Truthy(body.apiKey) {
      VerdictTable(rows, body.apiKey.value, lookupFault);
    }
  }

  /** `POST`: validates the key of the body; the `last_used` touch cannot alter the answer. */
  method Post(table: KeyTable, body: Body, now: int, lookupFault: Option<string>, touchFault: Option<string>)
    returns (r: Response)
    requires table.Valid()
    modifies table
    ensures table.Valid() && table.nextId == old(table.nextId)
    ensures r == PostResponse(old(table.rows), body, lookupFault)
    ensures body.Json? && Truthy(body.apiKey) ==>
              table.rows == ValidateStep(old(table.rows), body.apiKey.value, now, lookupFault, touchFault).1
    ensures !(body.Json? && Truthy(body.apiKey)) ==> table.rows == old(table.rows)
  {
    if !body.Json? {
      return ServerError;
    }
    if !Truthy(body.apiKey) {
      return MissingKey;
    }
    var result := table.ValidateApiKey(body.apiKey.value, now, lookupFault, touchFault);
    r := FromVerdict(result);
  }

  /** `GET`: validates the `apiKey` query parameter. */
  method Get(table: KeyTable, apiKeyParam: Option<string>, now: int, lookupFault: Option<string>, touchFault: Option<string>)
    returns (r: Response)
    requires table.Valid()
    modifies table
    ensures table.Valid() && table.nextId == old(table.nextId)
    ensures r == GetResponse(old(table.rows), apiKeyParam, lookupFault)
    ensures Truthy(apiKeyParam) ==>
              table.rows == ValidateStep(old(table.rows), apiKeyParam.value, now, lookupFault, touchFault).1
    ensures !Truthy(apiKeyParam) ==> table.rows == old(table.rows)
  {
    if !Truthy(apiKeyParam) {
      return MissingKey;
    }
    var result := table.ValidateApiKey(apiKeyParam.value, now, lookupFault, touchFault);
    r := FromVerdict(result);
  }
}
