/** The record service's REST client used by the command-line pipeline. */
module PodioClient {
  import opened Wrappers
  import opened Js
  import opened Http

  /** What `request(...)` resolves to: the status code and the body text. */
  datatype RawReply = RawReply(statusCode: int, text: string)

  predicate IsSuccessStatus(status: int)
  {
    200 <= status < 300
  }

  /**
   * The JSON helpers (`getJson`, `postJson`): a status outside [200, 300)
   * throws with the path, status and body; an empty body is `{}`; any other
   * body goes through `JSON.parse` (`parse`, which may throw).
   */
  function CheckedJson(path: string, reply: RawReply, parse: string -> Result<JsVal>): Result<JsVal>
  {
    if !IsSuccessStatus(reply.statusCode) then
      Failure(path + " -> " + IntToString(reply.statusCode) + " " + reply.text)
    else if reply.text == "" then Success(Obj(map[]))
    else parse(reply.text)
  }

  /** A helper call succeeds exactly on a 2xx status with an empty or parsable body, and an empty body is `{}`. */
  lemma CheckedJsonSpec(path: string, reply: RawReply, parse: string -> Result<JsVal>)
    ensures CheckedJson(path, reply, parse).Success? <==>
              IsSuccessStatus(reply.statusCode) && (reply.text == "" || parse(reply.text).Success?)
    ensures IsSuccessStatus(reply.statusCode) && reply.text == "" ==> CheckedJson(path, reply, parse) == Success(Obj(map[]))
    ensures !IsSuccessStatus(reply.statusCode) ==>
              CheckedJson(path, reply, parse).Failure? && StartsWith(CheckedJson(path, reply, parse).message, path + " -> ")
  {
  }

  datatype Credentials = Credentials(clientId: Option<string>, clientSecret: Option<string>,
                                     appId: Option<string>, appToken: Option<string>)

  /** The form posted by `appAuth`, or the error it throws before any request when a credential is missing. */
  function AuthRequestBody(c: Credentials): Result<JsVal>
  {
    if !Present(c.clientId) || !Present(c.clientSecret) || !Present(c.appId) || !Present(c.appToken) then
      Failure("Missing Podio app credentials")
    else
      Success(Obj(map["grant_type" := Str("app"), "client_id" := Str(c.clientId.value),
                      "client_secret" := Str(c.clientSecret.value), "app_id" := Str(c.appId.value),
                      "app_token" := Str(c.appToken.value)]))
  }

  /** `appAuth(creds)`, given what the token endpoint answers. */
  function AppAuth(c: Credentials, reply: RawReply, parse: string -> Result<JsVal>): Result<JsVal>
  {
    var req := AuthRequestBody(c);
    if req.Failure? then Failure(req.message) else CheckedJson("/oauth/token/v2", reply, parse)
  }

  /** A missing credential fails whatever the endpoint would answer: no request is made. */
  lemma AppAuthNeedsAllCredentials(c: Credentials, r1: RawReply, r2: RawReply, parse: string -> Result<JsVal>)
    requires !Present(c.clientId) || !Present(c.clientSecret) || !Present(c.appId) || !Present(c.appToken)
    ensures AppAuth(c, r1, parse) == Failure("Missing Podio app credentials")
    ensures AppAuth(c, r1, parse) == AppAuth(c, r2, parse)
  {
  }

  /** `getItemFiles(item)`: `item.files` when it is an array, else `[]`. */
  function GetItemFiles(item: JsVal): (files: seq<JsVal>)
    ensures Get(item, "files").Arr? ==> files == Get(item, "files").elems
    ensures !Get(item, "files").Arr? ==> files == []
  {
    var f := Get(item, "files");
    if f.Arr? then f.elems else []
  }

  /** A `fetch` response: `ok`, status, bytes, and the `content-type` header. */
  datatype FetchReply = FetchReply(ok: bool, status: int, bytes: Bytes, contentType: Option<string>)

  datatype Download = Download(buf: Bytes, contentType: string)

  /** `res.headers.get('content-type') || ''` */
  function ContentTypeOf(r: FetchReply): string
  {
    if Present(r.contentType) then r.contentType.value else ""
  }

  /**
   * The fallback URL from the file metadata: `link&download=1` when the link
   * already has a '?', `link?download=1` otherwise, "" without a link. An
   * array link is tested element-wise by `includes` and printed joined by
   * commas; any other truthy link has no `includes` and throws.
   */
  function AltLink(meta: JsVal): Result<string>
  {
    var link := Get(meta, "link");
    if !Truthy(link) then Success("")
    else match link
      case Str(s) => Success(if '?' in s then s + "&download=1" else s + "?download=1")
      case Arr(es) => Success(ToStr(link) + (if Str("?") in es then "&download=1" else "?download=1"))
      case _ => Failure("meta.link.includes is not a function")
  }

  /** For a string link the fallback adds `download=1` as a query parameter without a second '?'. */
  lemma AltLinkForString(meta: JsVal, s: string)
    requires Get(meta, "link") == Str(s) && s != ""
    ensures AltLink(meta).Success?
    ensures '?' in s ==> AltLink(meta).value == s + "&download=1"
    ensures '?' !in s ==> AltLink(meta).value == s + "?download=1"
    ensures '?' in AltLink(meta).value
  {
    assert (s + "?download=1")[|s|] == '?';
  }

  /**
   * `downloadFileBytes(fileId, token, accept)`: `raw` is the raw endpoint's
   * fetch, `meta` the metadata call, `fetchAlt` the fetch of a fallback URL;
   * a fetch that throws is a Failure.
   */
  function DownloadFileBytes(fileId: JsVal, raw: Result<FetchReply>, meta: Result<JsVal>,
                             fetchAlt: string -> Result<FetchReply>): Result<Download>
  {
    if raw.Failure? then Failure(raw.message)
    else if raw.value.ok && |raw.value.bytes| > 0 then Success(Download(raw.value.bytes, ContentTypeOf(raw.value)))
    else if meta.Failure? then Failure(meta.message)
    else
      var alt := AltLink(meta.value);
      if alt.Failure? then Failure(alt.message)
      else if alt.value == "" then Failure("No download link for file " + ToStr(fileId))
      else
        var res2 := fetchAlt(alt.value);
        if res2.Failure? then Failure(res2.message)
        else if !res2.value.ok then Failure("download alt " + alt.value + " -> " + IntToString(res2.value.status))
        else Success(Download(res2.value.bytes, ContentTypeOf(res2.value)))
  }

  /** A raw download that is ok and non-empty is returned as is; metadata and fallback are never consulted. */
  lemma RawDownloadWins(fileId: JsVal, raw: FetchReply, m1: Result<JsVal>, m2: Result<JsVal>,
                        f1: string -> Result<FetchReply>, f2: string -> Result<FetchReply>)
    requires raw.ok && |raw.bytes| > 0
    ensures DownloadFileBytes(fileId, Success(raw), m1, f1) == Success(Download(raw.bytes, ContentTypeOf(raw)))
    ensures DownloadFileBytes(fileId, Success(raw), m1, f1) == DownloadFileBytes(fileId, Success(raw), m2, f2)
  {
  }

  /** Without a link in the metadata the download throws. */
  lemma NoLinkFails(fileId: JsVal, raw: FetchReply, meta: JsVal, fetchAlt: string -> Result<FetchReply>)
    requires !(raw.ok && |raw.bytes| > 0)
    requires !Truthy(Get(meta, "link"))
    ensures DownloadFileBytes(fileId, Success(raw), Success(meta), fetchAlt) ==
              Failure("No download link for file " + ToStr(fileId))
  {
  }

  /**
   * Whenever the download succeeds the bytes come from an ok response (the
   * raw one only when non-empty) and the content type is that response's
   * header, or "" without one.
   */
  lemma DownloadComesFromOkResponse(fileId: JsVal, raw: Result<FetchReply>, meta: Result<JsVal>,
                                    fetchAlt: string -> Result<FetchReply>)
    requires DownloadFileBytes(fileId, raw, meta, fetchAlt).Success?
    ensures var d := DownloadFileBytes(fileId, raw, meta, fetchAlt).value;
            raw.Success? &&
            if raw.value.ok && |raw.value.bytes| > 0 then d == Download(raw.value.bytes, ContentTypeOf(raw.value))
            else
              && meta.Success? && AltLink(meta.value).Success? && AltLink(meta.value).value != ""
              && fetchAlt(AltLink(meta.value).value).Success?
              && fetchAlt(AltLink(meta.value).value).value.ok
              && d == Download(fetchAlt(AltLink(meta.value).value).value.bytes,
                               ContentTypeOf(fetchAlt(AltLink(meta.value).value).value))
  {
  }

  /** `setItemValues(itemId, values, token)`: None on a 2xx status, else the error it throws. */
  function SetItemValues(reply: Result<RawReply>): (r: Option<string>)
    ensures r.None? <==> reply.Success? && IsSuccessStatus(reply.value.statusCode)
  {
    if reply.Failure? then Some(reply.message)
    else if !IsSuccessStatus(reply.value.statusCode) then
      Some("update values -> " + IntToString(reply.value.statusCode) + " " + reply.value.text)
    else None
  }
}
