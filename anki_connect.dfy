/** The AnkiConnect envelope (API version 6): `request` builds the JSON body of a
    call and `invoke` validates the decoded reply before handing back its result. */
module AnkiConnect {
  import opened Results

  /** Decoded JSON values, as Python's `json` module produces them. */
  datatype Json =
    | Null
    | Bool(b: bool)
    | Int(i: int)
    | Str(s: string)
    | Array(items: seq<Json>)
    | Object(members: map<string, Json>)

  /** The API version every request announces. */
  const ApiVersion: int := 6

  const FieldCountMessage: string := "response has an unexpected number of fields"
  const MissingErrorMessage: string := "response is missing required error field"
  const MissingResultMessage: string := "response is missing required result field"

  /** `requests.exceptions.RequestException`, with the message it was raised with;
      `Unreachable` stands for the transport failures `requests.post` raises itself. */
  datatype InvokeError = Unreachable | RequestException(message: Json)

  /** What the HTTP round trip yielded: no connection, or the decoded JSON object. */
  datatype Reply = NoConnection | Body(response: map<string, Json>)

  /** `request(action, **params)`: the body of an AnkiConnect call. */
  function Request(action: string, params: map<string, Json>): (r: Json)
    ensures r.Object? && r.members.Keys == {"action", "params", "version"}
  {
    Object(map["action" := Str(action), "params" := Object(params), "version" := Int(ApiVersion)])
  }

  /** How AnkiConnect reads a request body: the action and its parameters, if the
      body is a well-formed version-6 envelope. */
  function ReadRequest(body: Json): Option<(string, map<string, Json>)>
  {
    if body.Object? && body.members.Keys == {"action", "params", "version"}
       && body.members["action"].Str? && body.members["params"].Object?
       && body.members["version"] == Int(ApiVersion)
    then Some((body.members["action"].s, body.members["params"].members))
    else None
  }

  /** The action and parameters survive the envelope unchanged, with version 6. */
  lemma RequestRoundTrip(action: string, params: map<string, Json>)
    ensures ReadRequest(Request(action, params)) == Some((action, params))
    ensures Request(action, params).members["version"] == Int(6)
  {
  }

  /** Conversely, every well-formed envelope is the one `Request` builds. */
  lemma ReadRequestOnlyRequests(body: Json)
    requires ReadRequest(body).Some?
    ensures body == Request(ReadRequest(body).value.0, ReadRequest(body).value.1)
  {
    var (action, params) := ReadRequest(body).value;
    var built := Request(action, params).members;
    assert body.members["action"] == Str(action);
    assert body.members["params"] == Object(params);
    assert body.members == built;
  }

  /** A map with exactly two keys that contains both of them has no other key. */
  lemma TwoKeys(response: map<string, Json>, a: string, b: string)
    requires a != b && a in response && b in response && |response| == 2
    ensures response.Keys == {a, b}
  {
    var rest := response.Keys - {a, b};
    assert response.Keys == rest + {a, b};
    assert |rest + {a, b}| == |rest| + 2;
    assert rest == {};
  }

  /** The checks `invoke` makes on the decoded reply, in the order it makes them. */
  function CheckResponse(response: map<string, Json>): (r: Result<Json, InvokeError>)
    ensures r.Success? <==> response.Keys == {"error", "result"} && response["error"] == Null
    ensures r.Success? ==> r.value == response["result"]
    ensures response.Keys == {"error", "result"} && response["error"] != Null
            ==> r == Failure(RequestException(response["error"]))
    ensures |response| != 2 ==> r == Failure(RequestException(Str(FieldCountMessage)))
    ensures |response| == 2 && "error" !in response ==> r == Failure(RequestException(Str(MissingErrorMessage)))
    ensures |response| == 2 && "error" in response && "result" !in response
            ==> r == Failure(RequestException(Str(MissingResultMessage)))
  {
    if |response| != 2 then Failure(RequestException(Str(FieldCountMessage)))
    else if "error" !in response then Failure(RequestException(Str(MissingErrorMessage)))
    else if "result" !in response then Failure(RequestException(Str(MissingResultMessage)))
    else
      TwoKeys(response, "error", "result");
      if response["error"] != Null then Failure(RequestException(response["error"]))
      else Success(response["result"])
  }

  /** `invoke(action, **params)`: post the envelope to the endpoint (modelled by
      `server`, the reply it gives to a request body) and validate the reply. */
  function Invoke(action: string, params: map<string, Json>, server: Json -> Reply): (r: Result<Json, InvokeError>)
    ensures server(Request(action, params)).NoConnection? ==> r == Failure(Unreachable)
    ensures r.Success? ==> server(Request(action, params)).Body?
    ensures server(Request(action, params)).Body? ==> r == CheckResponse(server(Request(action, params)).response)
  {
    match server(Request(action, params))
    case NoConnection => Failure(Unreachable)
    case Body(response) => CheckResponse(response)
  }
}
