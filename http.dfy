/** What a handler answers: an HTTP status and a body. */
module Http {
  import opened Js

  /** `res.send(v)` (text or echoed value) or `res.json(v)` / a JSON `Response`. */
  datatype ResponseBody = Send(content: JsVal) | Json(value: JsVal)

  datatype Response = Response(status: int, body: ResponseBody)

  /** An octet. */
  newtype Byte = x: int | 0 <= x < 256

  /** Raw bytes of a download or an upload. */
  type Bytes = seq<Byte>

  function Text(status: int, s: string): Response
  {
    Response(status, Send(Str(s)))
  }

  /** The number of entries `Object.keys(v)` lists (array indices, string positions or own properties). */
  function KeyCount(v: JsVal): nat
  {
    match v
    case Obj(m) => |m|
    case Arr(es) => |es|
    case Str(s) => |s|
    case _ => 0
  }

  /** `body?.type === "hook.verify" && body?.code`: the record service's verification handshake. */
  predicate IsHandshake(body: JsVal)
  {
    Get(body, "type") == Str("hook.verify") && Truthy(Get(body, "code"))
  }

  /** A JSON body `{ error: msg }` with the given status. */
  function JsonError(status: int, msg: string): Response
  {
    Response(status, Json(Obj(map["error" := Str(msg)])))
  }

  /** `String(e?.message || e)` for a thrown Error with message `msg` (an empty message prints as "Error"). */
  function ErrorText(msg: string): (r: string)
    ensures r != ""
    ensures msg != "" ==> r == msg
  {
    if msg != "" then msg else "Error"
  }
}
