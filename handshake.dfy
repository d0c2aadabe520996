/**
 * The opening handshake of the behaviour server's WebSocket endpoint
 * (`websocket_endpoint` in fixed_colab.py): the first text message may
 * declare a session id; otherwise the connection keeps the random id it was
 * given on arrival.
 *
 * Receiving (with its 10-second timeout) and `json.loads` are foreign: their
 * outcome is the `InitReceive` value. The chosen id is a JSON value, because
 * the source uses whatever `data.get('session_id')` returned as a dictionary
 * key.
 */
module Handshake {
  import opened Text

  /** A parsed JSON document. */
  datatype Json =
    | JNull
    | JBool(b: bool)
    | JInt(i: int)
    | JReal(r: real)
    | JString(s: string)
    | JArray(items: seq<Json>)
    | JObject(fields: map<string, Json>)

  /** Python truthiness of the decoded value. */
  predicate Truthy(v: Json) {
    match v
    case JNull => false
    case JBool(b) => b
    case JInt(i) => i != 0
    case JReal(r) => r != 0.0
    case JString(s) => s != ""
    case JArray(items) => items != []
    case JObject(fields) => fields != map[]
  }

  /** Lists and dicts cannot be dictionary keys; using one as a key raises `TypeError`. */
  predicate Hashable(v: Json) {
    !v.JArray? && !v.JObject?
  }

  /** Python `d.get(k)` on a decoded object: the value, or None (JNull) when the key is missing. */
  function Get(fields: map<string, Json>, k: string): Json {
    if k in fields then fields[k] else JNull
  }

  /** What awaiting the first message gave. */
  datatype InitReceive =
    | ReceiveFailed                     // timeout after 10 s, or the client went away
    | Received(parsed: Option<Json>)    // the text, parsed by `json.loads`; None when that raised

  /**
   * The declared id is taken exactly when the first message arrived, parsed,
   * is an object, says `"type": "session_init"`, and carries a truthy session
   * id that can be a dictionary key.
   */
  ghost predicate DeclaresUsableId(init: InitReceive) {
    && init.Received?
    && init.parsed.Some?
    && init.parsed.value.JObject?
    && Get(init.parsed.value.fields, "type") == JString("session_init")
    && Truthy(Get(init.parsed.value.fields, "session_id"))
    && Hashable(Get(init.parsed.value.fields, "session_id"))
  }

  /**
   * The session id chosen by the handshake (fixed_colab.py:163-177). The
   * branches follow the source: a failed receive and a failed parse fall
   * back to the temporary id; `.get` on something other than an object
   * raises `AttributeError`, and storing an unhashable id in
   * `active_connections` raises `TypeError`, both caught by the bare
   * `except` that falls back as well.
   */
  function ChooseSessionId(tempId: string, init: InitReceive): (id: Json)
    ensures DeclaresUsableId(init) ==> id == init.parsed.value.fields["session_id"]
    ensures !DeclaresUsableId(init) ==> id == JString(tempId)
    ensures tempId != "" ==> Truthy(id) && Hashable(id)
  {
    match init
    case ReceiveFailed => JString(tempId)
    case Received(parsed) =>
      if parsed.None? then JString(tempId)
      else
        var data := parsed.value;
        if !data.JObject? then JString(tempId)
        else if Get(data.fields, "type") == JString("session_init") && Truthy(Get(data.fields, "session_id")) then
          var sessionId := Get(data.fields, "session_id");
          if Hashable(sessionId) then sessionId else JString(tempId)
        else JString(tempId)
  }

  /** A client that declares a string id keeps it: reconnecting under the same id reaches the same session entry. */
  lemma DeclaredStringIdKept(tempId: string, sid: string, extra: map<string, Json>)
    requires sid != ""
    ensures var fields := extra["type" := JString("session_init")]["session_id" := JString(sid)];
      ChooseSessionId(tempId, Received(Some(JObject(fields)))) == JString(sid)
  {
    var fields := extra["type" := JString("session_init")]["session_id" := JString(sid)];
    assert Get(fields, "type") == JString("session_init");
    assert Get(fields, "session_id") == JString(sid);
  }

  /**
   * The fallbacks: a failed receive, a failed parse, a parsed value that is
   * not an object, an object without `type` or without `session_id`, and a
   * declared id that cannot be a dictionary key all leave the temporary id.
   */
  lemma FallbackCases(tempId: string, fields: map<string, Json>)
    ensures ChooseSessionId(tempId, ReceiveFailed) == JString(tempId)
    ensures ChooseSessionId(tempId, Received(None)) == JString(tempId)
    ensures "type" !in fields ==> ChooseSessionId(tempId, Received(Some(JObject(fields)))) == JString(tempId)
    ensures "session_id" !in fields ==> ChooseSessionId(tempId, Received(Some(JObject(fields)))) == JString(tempId)
    ensures forall v: Json :: !v.JObject? ==> ChooseSessionId(tempId, Received(Some(v))) == JString(tempId)
    ensures !Hashable(Get(fields, "session_id")) ==> ChooseSessionId(tempId, Received(Some(JObject(fields)))) == JString(tempId)
  {
  }
}
