/**
 * The request and response envelopes exchanged with the server, and the
 * events the client pushes through the LiveView hook.
 */
module Envelope {
  import opened Wrappers
  import opened JsValue

  /** The name of every event the dispatcher pushes. */
  const ClientResponse: string := "client:response"

  /** An inbound `client:request` payload `{id, action, params}`; a missing
      `id` or `params` is Undefined. */
  datatype Request = Request(id: Value, action: string, params: Value)

  /** An outbound `client:response` payload: `{id, action, ok: true, result}`
      or `{id, action, ok: false, error}`. */
  datatype Response =
    | Success(id: Value, action: string, result: Value)
    | Failure(id: Value, action: string, error: Value)

  /** One call of `hook.pushEvent(name, payload)`; the payload object it
      passes is `Encode(response)`. */
  datatype Event = Event(name: string, response: Response)

  /** The id echoed back: the destructuring default `id = null` replaces only
      an absent (undefined) id; every other id, null included, is kept. */
  function EchoId(id: Value): (r: Value)
    ensures id == Undefined ==> r == Null
    ensures id != Undefined ==> r == id
  {
    if id.Undefined? then Null else id
  }

  /** The JavaScript object literal the dispatcher builds for a response. */
  function Encode(r: Response): (v: Value)
    ensures v.Obj? && "id" in v.fields && "action" in v.fields && "ok" in v.fields
    ensures v.fields["ok"] == Bool(r.Success?)
    ensures "result" in v.fields <==> r.Success?
    ensures "error" in v.fields <==> r.Failure?
    ensures Decode(v) == Some(r)
  {
    match r
    case Success(id, action, result) =>
      Obj(map["id" := id, "action" := Str(action), "ok" := Bool(true), "result" := result])
    case Failure(id, action, error) =>
      Obj(map["id" := id, "action" := Str(action), "ok" := Bool(false), "error" := error])
  }

  /** How a receiver reads a response object: `ok` says which of `result`
      and `error` it carries; an object carrying both, or neither, or an
      `ok` that is not a boolean, is not a response. */
  function Decode(v: Value): Option<Response>
  {
    if !v.Obj? then None
    else
      var f := v.fields;
      if "id" !in f || "action" !in f || "ok" !in f || !f["action"].Str? || !f["ok"].Bool? then None
      else if f["ok"].b && "result" in f && "error" !in f then
        Some(Success(f["id"], f["action"].s, f["result"]))
      else if !f["ok"].b && "error" in f && "result" !in f then
        Some(Failure(f["id"], f["action"].s, f["error"]))
      else None
  }
}
