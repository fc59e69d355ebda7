/**
 * The exporter's JSON-RPC 2.0 client, `json_rpc_call`: the request object it
 * posts (section 4 of the JSON-RPC 2.0 specification) and the way it turns
 * what comes back into a result or a counted failure (section 5 describes
 * the response object with its `result` or `error` member).
 */
module JsonRpc {
  import opened Wrappers
  import opened Json

  /** The request object `{"jsonrpc": "2.0", "method": .., "params": .., "id": 1}`. */
  function Envelope(name: string, params: seq<JsonValue>): (req: JsonValue)
    ensures req.JObject? && |req.members| == 4
  {
    JObject([("jsonrpc", JString("2.0")), ("method", JString(name)),
             ("params", JArray(params)), ("id", JNumber(1.0))])
  }

  /** Every request names protocol version 2.0, the method and parameters it
      was given, and id 1. */
  lemma EnvelopeFields(name: string, params: seq<JsonValue>)
    ensures var m := Envelope(name, params).members;
      Lookup(m, "jsonrpc") == Some(JString("2.0")) &&
      Lookup(m, "method") == Some(JString(name)) &&
      Lookup(m, "params") == Some(JArray(params)) &&
      Lookup(m, "id") == Some(JNumber(1.0))
  {
    var m := Envelope(name, params).members;
    LookupIsLast(m, "jsonrpc", 0);
    LookupIsLast(m, "method", 1);
    LookupIsLast(m, "params", 2);
    LookupIsLast(m, "id", 3);
  }

  /** What the POST produced. `TransportError` stands for every exception
      raised before a decoded body exists: a connection error or timeout, a
      non-2xx status from `raise_for_status`, or a body that is not JSON. */
  datatype Reply = TransportError | Body(data: JsonValue)

  /** `Failed` is a call that logged and incremented the error counter;
      `Returned(v)` is one that returned `v` without counting. */
  datatype Outcome = Failed | Returned(v: JsonValue)

  /** How `json_rpc_call` classifies a reply. A decoded body that is not an
      object always fails, and is counted once by the `except` handler. On a
      list or a string, `"error" in data` is a membership or substring test.
      When it is false, `data.get` raises `AttributeError`. When it is true,
      the log message evaluates `data['error']`, which raises `TypeError`
      before the counter is incremented in that branch. On a number, a
      boolean or `null`, the `in` test itself raises `TypeError`. An object
      fails exactly when it has an `error` member; otherwise its `result`
      member is returned, `null` when absent. */
  function Classify(reply: Reply): (o: Outcome)
    ensures o.Failed? <==>
      reply.TransportError? || !reply.data.JObject? || HasKey(reply.data.members, "error")
    ensures o.Returned? ==>
      o.v == (if HasKey(reply.data.members, "result") then Lookup(reply.data.members, "result").value else JNull)
  {
    match reply
    case TransportError => Failed
    case Body(data) =>
      if !data.JObject? then Failed
      else if HasKey(data.members, "error") then Failed
      else Returned(Lookup(data.members, "result").GetOr(JNull))
  }

  /** The Python value `json_rpc_call` hands back: `None` on failure. */
  function ResultValue(o: Outcome): JsonValue {
    if o.Failed? then JNull else o.v
  }

  /** A success response object as a server builds it. */
  function SuccessResponse(id: JsonValue, result: JsonValue): JsonValue {
    JObject([("jsonrpc", JString("2.0")), ("result", result), ("id", id)])
  }

  /** An error response object as a server builds it. */
  function ErrorResponse(id: JsonValue, code: int, message: string): JsonValue {
    JObject([("jsonrpc", JString("2.0")),
             ("error", JObject([("code", JNumber(code as real)), ("message", JString(message))])),
             ("id", id)])
  }

  /** A success response yields exactly its `result`, uncounted. */
  lemma ClassifySuccess(id: JsonValue, result: JsonValue)
    ensures Classify(Body(SuccessResponse(id, result))) == Returned(result)
  {
    var m := SuccessResponse(id, result).members;
    LookupIsLast(m, "result", 1);
  }

  /** An error response is a counted failure, whatever else it carries. */
  lemma ClassifyError(id: JsonValue, code: int, message: string)
    ensures Classify(Body(ErrorResponse(id, code, message))) == Failed
  {
    assert ErrorResponse(id, code, message).members[1].0 == "error";
  }

  /** A response object with neither `error` nor `result` yields `None`
      without counting. */
  lemma ClassifyNoResult(members: seq<(string, JsonValue)>)
    requires !HasKey(members, "error") && !HasKey(members, "result")
    ensures Classify(Body(JObject(members))) == Returned(JNull)
    ensures ResultValue(Classify(Body(JObject(members)))) == ResultValue(Classify(TransportError))
  {
  }

  /** An explicit `"result": null` also yields `None` without counting. */
  lemma ClassifyNullResult(members: seq<(string, JsonValue)>)
    requires !HasKey(members, "error") && Lookup(members, "result") == Some(JNull)
    ensures Classify(Body(JObject(members))) == Returned(JNull)
  {
  }

  /** A list holding the string `"error"` still fails exactly once: the
      branch for an `error` member raises while logging, before counting. */
  lemma ClassifyListWithError(items: seq<JsonValue>, s: string, i: nat)
    requires JString("error") in items
    requires i + 5 <= |s| && s[i..i + 5] == "error"
    ensures Classify(Body(JArray(items))) == Failed
    ensures Classify(Body(JString(s))) == Failed
  {
  }
}
