/**
  The API envelope (app/utils/response.py): the success and error bodies and
  the decorator that maps a handler's outcome to a body and an HTTP status.
 */
module Response {
  import opened Wrappers

  /** A JSON value as `jsonify` serialises it. */
  datatype Json = JNull | JInt(i: int) | JStr(s: string) | JList(items: seq<Json>) | JObject(fields: map<string, Json>)

  /** `api_response(success_data)`. */
  function ApiResponse(data: Json): (r: Json)
    ensures r.JObject? && r.fields.Keys == {"msg", "code", "data"}
  {
    JObject(map["msg" := JStr("success"), "code" := JInt(0), "data" := data])
  }

  /** `error_response(error_msg, code=500)`. */
  function ErrorResponse(msg: string, code: int := 500): (r: Json)
    ensures r.JObject? && r.fields.Keys == {"msg", "code", "data"}
  {
    JObject(map["msg" := JStr("error"), "code" := JInt(code), "data" := JObject(map["error" := JStr(msg)])])
  }

  /** The payload, code and error message of an envelope, read back. */
  function DataOf(r: Json): Option<Json> {
    if r.JObject? && "data" in r.fields then Some(r.fields["data"]) else None
  }

  function CodeOf(r: Json): Option<int> {
    if r.JObject? && "code" in r.fields && r.fields["code"].JInt? then Some(r.fields["code"].i) else None
  }

  function ErrorOf(r: Json): Option<string> {
    match DataOf(r)
    case Some(JObject(f)) => if "error" in f && f["error"].JStr? then Some(f["error"].s) else None
    case _ => None
  }

  function IsSuccess(r: Json): bool {
    r.JObject? && "msg" in r.fields && r.fields["msg"] == JStr("success")
  }

  /** A success envelope carries its data with code 0; an error envelope carries its message and code. */
  lemma EnvelopesReadBack(data: Json, msg: string, code: int)
    ensures DataOf(ApiResponse(data)) == Some(data) && CodeOf(ApiResponse(data)) == Some(0) && IsSuccess(ApiResponse(data))
    ensures ErrorOf(ErrorResponse(msg, code)) == Some(msg) && CodeOf(ErrorResponse(msg, code)) == Some(code)
    ensures !IsSuccess(ErrorResponse(msg, code)) && CodeOf(ErrorResponse(msg)) == Some(500)
  {
    assert ErrorResponse(msg, code).fields["msg"] == JStr("error");
  }

  /** How the wrapped handler finished. */
  datatype Outcome =
    | Returned(value: Json)
    | RaisedValueError(message: string)
    | RaisedOther(message: string)

  /** `api_handler(f)`: the body and the status. */
  function ApiHandler(outcome: Outcome): (r: (Json, int))
    ensures outcome.Returned? ==> r == (outcome.value, 200)
    ensures outcome.RaisedValueError? ==> r.1 == 400 && ErrorOf(r.0) == Some(outcome.message)
    ensures outcome.RaisedOther? ==> r.1 == 500 && ErrorOf(r.0) == Some(outcome.message)
  {
    match outcome
    case Returned(v) => (v, 200)
    case RaisedValueError(m) => (ErrorResponse(m, 400), 400)
    case RaisedOther(m) => (ErrorResponse(m), 500)
  }

  /** For a raised exception the body's code equals the HTTP status. */
  lemma ErrorStatusMatchesBody(outcome: Outcome)
    requires !outcome.Returned?
    ensures CodeOf(ApiHandler(outcome).0) == Some(ApiHandler(outcome).1)
    ensures ApiHandler(outcome).1 == 400 <==> outcome.RaisedValueError?
  {
  }
}
