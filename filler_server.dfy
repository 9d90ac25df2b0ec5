/**
 * The stand-alone filler service: its webhook classifies an item directly
 * (list the item's files, download each, classify, write the fields back),
 * and a debug route lists the files of an item.
 */
module FillerServer {
  import opened Wrappers
  import opened Js
  import opened Http

  /**
   * What the service's calls answer. Each is a Failure when it throws, with
   * `String(e)` of the thrown value as its message: `listFiles` is the JSON of
   * an item's file list, `fileMeta` and `fileRaw` the metadata and bytes of a
   * file, `classify` the classifier's answer for the downloaded files,
   * `isoNow` the current ISO timestamp, and `update` whether the item update
   * came back with an ok status.
   */
  datatype FillerEnv = FillerEnv(
    listFiles: JsVal -> Result<JsVal>,
    fileMeta: JsVal -> Result<JsVal>,
    fileRaw: JsVal -> Result<Bytes>,
    classify: seq<FileInfo> -> Result<JsVal>,
    isoNow: string,
    update: JsVal -> Result<bool>)

  /** A downloaded file as the classifier receives it. */
  datatype FileInfo = FileInfo(filename: JsVal, mime: JsVal, buffer: Bytes)

  // ---------------------------------------------------------------------------
  // Listing and downloading files
  // ---------------------------------------------------------------------------

  /** `f.mimetype || f.mime_type || ""` */
  function MimetypeOf(f: JsVal): JsVal
  {
    Or(Or(Get(f, "mimetype"), Get(f, "mime_type")), Str(""))
  }

  /** One entry of the listing; reading `file_id` of a nullish entry throws. */
  function MetaOf(f: JsVal): Result<JsVal>
  {
    var id := GetStrict(f, "file_id");
    if id.Failure? then Failure(TypeErrorText(id.message))
    else Success(Obj(map["file_id" := id.value, "name" := Get(f, "name"), "mimetype" := MimetypeOf(f),
                         "link" := Get(f, "link")]))
  }

  /** `files.map(...)` over the entries. */
  function MetasOf(es: seq<JsVal>): (r: Result<seq<JsVal>>)
    ensures r.Success? <==> forall i :: 0 <= i < |es| ==> !Nullish(es[i])
    ensures r.Success? ==> |r.value| == |es| && forall i :: 0 <= i < |es| ==> r.value[i] == MetaOf(es[i]).value
    decreases |es|
  {
    if es == [] then Success([])
    else
      var m := MetaOf(es[0]);
      if m.Failure? then Failure(m.message)
      else
        var rest := MetasOf(es[1..]);
        if rest.Failure? then rest else Success([m.value] + rest.value)
  }

  /** `listItemFiles(itemId)`: a nullish listing, or one that is not an array and so has no `map`, throws. */
  function ListItemFiles(itemId: JsVal, env: FillerEnv): Result<seq<JsVal>>
  {
    var files := env.listFiles(itemId);
    if files.Failure? then Failure(files.message)
    else if Nullish(files.value) then Failure(TypeErrorText(NullishReadMessage(files.value, "map")))
    else if !files.value.Arr? then Failure(TypeErrorText("files.map is not a function"))
    else MetasOf(files.value.elems)
  }

  /** The listed mimetype is the first truthy of `mimetype` and `mime_type`, else "": it is never another falsy value. */
  lemma ListedMimetype(f: JsVal)
    ensures Truthy(Get(f, "mimetype")) ==> MimetypeOf(f) == Get(f, "mimetype")
    ensures !Truthy(Get(f, "mimetype")) && Truthy(Get(f, "mime_type")) ==> MimetypeOf(f) == Get(f, "mime_type")
    ensures Truthy(MimetypeOf(f)) || MimetypeOf(f) == Str("")
  {
  }

  /** `fetchFileBufferWithInfo(fileId)`: metadata first, then the bytes; a missing name or type takes a default. */
  function FetchFileBufferWithInfo(fileId: JsVal, env: FillerEnv): Result<FileInfo>
  {
    var meta := env.fileMeta(fileId);
    if meta.Failure? then Failure(meta.message)
    else
      var raw := env.fileRaw(fileId);
      if raw.Failure? then Failure(raw.message)
      else if Nullish(meta.value) then Failure(TypeErrorText(NullishReadMessage(meta.value, "name")))
      else
        Success(FileInfo(Or(Get(meta.value, "name"), Str("file-" + ToStr(fileId))),
                         Or(Or(Get(meta.value, "mimetype"), Get(meta.value, "mime_type")), Str(OCTET_STREAM)),
                         raw.value))
  }

  const OCTET_STREAM: string := "application/octet-stream"

  /** A downloaded file always has a (truthy) name and type: `file-<id>` and octet-stream stand in for missing ones. */
  lemma FileInfoDefaults(fileId: JsVal, env: FillerEnv)
    requires FetchFileBufferWithInfo(fileId, env).Success?
    ensures var info := FetchFileBufferWithInfo(fileId, env).value;
            var meta := env.fileMeta(fileId).value;
            && Truthy(info.filename) && Truthy(info.mime)
            && (Truthy(Get(meta, "name")) ==> info.filename == Get(meta, "name"))
            && (!Truthy(Get(meta, "name")) ==> info.filename == Str("file-" + ToStr(fileId)))
            && (!Truthy(Get(meta, "mimetype")) && !Truthy(Get(meta, "mime_type")) ==> info.mime == Str(OCTET_STREAM))
            && info.buffer == env.fileRaw(fileId).value
  {
  }

  // ---------------------------------------------------------------------------
  // The per-file loop: failed downloads are skipped
  // ---------------------------------------------------------------------------

  /** The files downloaded for the first `|metas|` listed entries, failures left out. */
  function Collected(metas: seq<JsVal>, env: FillerEnv): seq<FileInfo>
    decreases |metas|
  {
    if metas == [] then []
    else
      var n := |metas| - 1;
      var f := FetchFileBufferWithInfo(Get(metas[n], "file_id"), env);
      Collected(metas[..n], env) + (if f.Success? then [f.value] else [])
  }

  /** The entries whose download succeeds. */
  function Fetchable(metas: seq<JsVal>, env: FillerEnv): seq<JsVal>
    decreases |metas|
  {
    if metas == [] then []
    else
      var n := |metas| - 1;
      Fetchable(metas[..n], env) + (if FetchFileBufferWithInfo(Get(metas[n], "file_id"), env).Success? then [metas[n]] else [])
  }

  /**
   * A failed download is skipped and the rest are still collected in order:
   * the collected files are exactly the downloads of the fetchable entries.
   */
  lemma {:induction false} CollectedInOrder(metas: seq<JsVal>, env: FillerEnv)
    ensures |Collected(metas, env)| == |Fetchable(metas, env)| <= |metas|
    ensures forall i :: 0 <= i < |Fetchable(metas, env)| ==>
              FetchFileBufferWithInfo(Get(Fetchable(metas, env)[i], "file_id"), env) == Success(Collected(metas, env)[i])
    decreases |metas|
  {
    if metas != [] {
      var n := |metas| - 1;
      CollectedInOrder(metas[..n], env);
    }
  }

  /** When every download succeeds, one file is collected per entry. */
  lemma {:induction false} AllFetchedAllCollected(metas: seq<JsVal>, env: FillerEnv)
    requires forall i :: 0 <= i < |metas| ==> FetchFileBufferWithInfo(Get(metas[i], "file_id"), env).Success?
    ensures Fetchable(metas, env) == metas
    decreases |metas|
  {
    if metas != [] {
      var n := |metas| - 1;
      var p := metas[..n];
      forall i | 0 <= i < n
        ensures FetchFileBufferWithInfo(Get(p[i], "file_id"), env).Success?
      {
        assert p[i] == metas[i];
      }
      AllFetchedAllCollected(p, env);
      assert Fetchable(metas, env) == p + [metas[n]];
      assert p + [metas[n]] == metas;
    }
  }

  /** The `for` loop of `classifyPodioItem` with its per-file `try`/`catch`. */
  method CollectFiles(metas: seq<JsVal>, env: FillerEnv) returns (files: seq<FileInfo>)
    ensures files == Collected(metas, env)
  {
    files := [];
    for k := 0 to |metas|
      invariant files == Collected(metas[..k], env)
    {
      assert metas[..k + 1][..k] == metas[..k];
      var f := FetchFileBufferWithInfo(Get(metas[k], "file_id"), env);
      if f.Success? {
        files := files + [f.value];
      }
    }
    assert metas[..|metas|] == metas;
  }

  // ---------------------------------------------------------------------------
  // The item update
  // ---------------------------------------------------------------------------

  /** `JSON.stringify` leaves out properties whose value is `undefined`. */
  function DropUndefined(m: map<string, JsVal>): (r: map<string, JsVal>)
    ensures forall k :: k in r <==> k in m && !m[k].Undefined?
    ensures forall k :: k in r ==> r[k] == m[k]
  {
    map k | k in m && !m[k].Undefined? :: m[k]
  }

  /** The `fields` of `updatePodioItemFields(itemId, data)` before serialisation; reading a field of nullish data throws. */
  function UpdateFields(data: JsVal, isoNow: string): Result<map<string, JsVal>>
  {
    if Nullish(data) then Failure(TypeErrorText(NullishReadMessage(data, "nombre_corto")))
    else
      var alt := Get(data, "alternativas");
      Success(map[
        "nombre_corto" := Get(data, "nombre_corto"),
        "descripcion" := Get(data, "descripcion"),
        "fraccion" := Get(data, "fraccion"),
        "justificacion" := Get(data, "justificacion"),
        "alternativas" := Str(if alt.Arr? then JoinValues(alt.elems, "\n") else ToStr(alt)),
        "notas_clasificador" := Get(data, "notas"),
        "regulacion" := Get(data, "regulacion"),
        "arbol" := Get(data, "arbol"),
        "dudas_cliente" := Get(data, "dudas"),
        "fecha" := Str(SliceTo(isoNow, 10))])
  }

  /** The JSON body sent with the update. */
  function UpdatePayload(fields: map<string, JsVal>): JsVal
  {
    Obj(map["fields" := Obj(DropUndefined(fields))])
  }

  /**
   * The mapping: `notas` goes to `notas_clasificador` and `dudas` to
   * `dudas_cliente`; `alternativas` is always text and the date is the first
   * ten characters of the timestamp.
   */
  lemma UpdateFieldsMapping(data: JsVal, isoNow: string)
    requires !Nullish(data)
    ensures var f := UpdateFields(data, isoNow).value;
            && f["notas_clasificador"] == Get(data, "notas")
            && f["dudas_cliente"] == Get(data, "dudas")
            && f["alternativas"].Str?
            && f["fecha"] == Str(if |isoNow| < 10 then isoNow else isoNow[..10])
            && "notas" !in f && "dudas" !in f
  {
  }

  /** Alternatives given as objects are written as "[object Object]" lines, and missing ones as "undefined". */
  lemma AlternativasAsText(data: JsVal, isoNow: string, es: seq<JsVal>)
    requires Get(data, "alternativas") == Arr(es) || Get(data, "alternativas") == Undefined
    requires forall i :: 0 <= i < |es| ==> es[i].Obj?
    requires !Nullish(data)
    ensures Get(data, "alternativas") == Undefined ==> UpdateFields(data, isoNow).value["alternativas"] == Str("undefined")
    ensures Get(data, "alternativas") == Arr(es) ==>
              UpdateFields(data, isoNow).value["alternativas"] ==
                Str(JoinStrings(seq(|es|, i requires 0 <= i < |es| => "[object Object]"), "\n"))
  {
    if Get(data, "alternativas") == Arr(es) {
      assert seq(|es|, i requires 0 <= i < |es| => if Nullish(es[i]) then "" else ToStr(es[i]))
             == seq(|es|, i requires 0 <= i < |es| => "[object Object]");
    }
  }

  /** A field the classifier left undefined is not sent at all. */
  lemma UndefinedFieldsNotSent(data: JsVal, isoNow: string)
    requires !Nullish(data) && Get(data, "fraccion") == Undefined
    ensures "fraccion" !in UpdatePayload(UpdateFields(data, isoNow).value).props["fields"].props
  {
  }

  // ---------------------------------------------------------------------------
  // The classification flow and the routes
  // ---------------------------------------------------------------------------

  /** How `classifyPodioItem` ends: its result (or what it throws), and the payload whose update was sent, if any. */
  datatype Classified = Classified(result: Result<JsVal>, sent: Option<JsVal>)

  /** `classifyPodioItem(itemId)`; a non-ok update is only logged. */
  function ClassifySpec(itemId: JsVal, env: FillerEnv): Classified
  {
    var metas := ListItemFiles(itemId, env);
    if metas.Failure? then Classified(Failure(metas.message), None)
    else
      var result := env.classify(Collected(metas.value, env));
      if result.Failure? then Classified(Failure(result.message), None)
      else
        var fields := UpdateFields(result.value, env.isoNow);
        if fields.Failure? then Classified(Failure(fields.message), None)
        else
          var payload := UpdatePayload(fields.value);
          var put := env.update(payload);
          if put.Failure? then Classified(Failure(put.message), Some(payload))
          else Classified(Success(result.value), Some(payload))
  }

  method ClassifyPodioItem(itemId: JsVal, env: FillerEnv) returns (c: Classified)
    ensures c == ClassifySpec(itemId, env)
  {
    var metas := ListItemFiles(itemId, env);
    if metas.Failure? {
      return Classified(Failure(metas.message), None);
    }
    var files := CollectFiles(metas.value, env);
    var result := env.classify(files);
    if result.Failure? {
      return Classified(Failure(result.message), None);
    }
    var fields := UpdateFields(result.value, env.isoNow);
    if fields.Failure? {
      return Classified(Failure(fields.message), None);
    }
    var payload := UpdatePayload(fields.value);
    var put := env.update(payload);
    if put.Failure? {
      return Classified(Failure(put.message), Some(payload));
    }
    c := Classified(Success(result.value), Some(payload));
  }

  /** A rejected update (non-ok status) does not fail the classification. */
  lemma RejectedUpdateIsNotAnError(itemId: JsVal, env: FillerEnv)
    requires ClassifySpec(itemId, env).sent.Some?
    requires env.update(ClassifySpec(itemId, env).sent.value) == Success(false)
    ensures ClassifySpec(itemId, env).result.Success?
    ensures ClassifySpec(itemId, env) == ClassifySpec(itemId, env.(update := p => Success(true)))
  {
    var env' := env.(update := p => Success(true));
    assert ListItemFiles(itemId, env') == ListItemFiles(itemId, env);
    CollectedIgnoresUpdate(ListItemFiles(itemId, env).value, env, env');
  }

  /** The downloads do not depend on the update call. */
  lemma {:induction false} CollectedIgnoresUpdate(metas: seq<JsVal>, env: FillerEnv, env': FillerEnv)
    requires env'.fileMeta == env.fileMeta && env'.fileRaw == env.fileRaw
    ensures Collected(metas, env) == Collected(metas, env')
    decreases |metas|
  {
    if metas != [] {
      CollectedIgnoresUpdate(metas[..|metas| - 1], env, env');
    }
  }

  /** The `/podio-hook` answer and the update it sent, if any. */
  function PodioHook(body: JsVal, env: FillerEnv): (Response, Option<JsVal>)
  {
    if IsHandshake(body) then (Response(200, Send(Get(body, "code"))), None)
    else
      var itemId := Get(body, "item_id");
      if !Truthy(itemId) then (Response(200, Json(Obj(map["ok" := Bool(true)]))), None)
      else
        var c := ClassifySpec(itemId, env);
        if c.result.Success? then
          (Response(200, Json(Obj(map["ok" := Bool(true), "item_id" := itemId, "result" := c.result.value]))), c.sent)
        else (Response(500, Json(Obj(map["ok" := Bool(false), "error" := Str(c.result.message)]))), c.sent)
  }

  /** The verification handshake gets its code echoed back, with no other effect. */
  lemma HandshakeEchoesCode(body: JsVal, env: FillerEnv)
    requires IsHandshake(body)
    ensures PodioHook(body, env) == (Response(200, Send(Get(body, "code"))), None)
  {
  }

  /** Classification runs exactly for a non-handshake body with a truthy `item_id`; otherwise `{ok: true}`. */
  lemma ClassifiesIff(body: JsVal, env: FillerEnv)
    ensures !IsHandshake(body) && !Truthy(Get(body, "item_id")) ==>
              PodioHook(body, env) == (Response(200, Json(Obj(map["ok" := Bool(true)]))), None)
    ensures !IsHandshake(body) && Truthy(Get(body, "item_id")) ==>
              PodioHook(body, env).1 == ClassifySpec(Get(body, "item_id"), env).sent
              && (PodioHook(body, env).0.status == 200 <==> ClassifySpec(Get(body, "item_id"), env).result.Success?)
  {
  }

  /** `GET /debug/item-files?item_id=...` */
  function DebugItemFiles(itemId: JsVal, env: FillerEnv): Response
  {
    if !Truthy(itemId) then Response(400, Json(Obj(map["ok" := Bool(false), "error" := Str("Falta item_id")])))
    else
      var files := ListItemFiles(itemId, env);
      if files.Failure? then Response(500, Json(Obj(map["ok" := Bool(false), "error" := Str(files.message)])))
      else Response(200, Json(Obj(map["ok" := Bool(true), "count" := Num(|files.value|), "files" := Arr(files.value)])))
  }

  /** Without an item id the debug route answers 400 and lists nothing: the listing's answer does not matter. */
  lemma DebugNeedsItemId(itemId: JsVal, env: FillerEnv, other: FillerEnv)
    requires !Truthy(itemId)
    ensures DebugItemFiles(itemId, env) == Response(400, Json(Obj(map["ok" := Bool(false), "error" := Str("Falta item_id")])))
    ensures DebugItemFiles(itemId, env) == DebugItemFiles(itemId, other)
  {
  }
}
