/**
 * One pass of the command-line pipeline over one item: download its files
 * (images first), turn images into URLs and PDFs into text, classify, and
 * write the classification into the item's text fields.
 */
module RunOnce {
  import opened Wrappers
  import opened Js
  import opened Http
  import Base64
  import PodioClient
  import StorageKeys
  import ClassifierRequest

  // ---------------------------------------------------------------------------
  // The item's field ids
  // ---------------------------------------------------------------------------

  const NOMBRE_CORTO: int := 272822428
  const IMAGEN: int := 272822641
  const DESCRIPCION: int := 273178651
  const REQU_ID_APP: int := 272822635
  const FECHA: int := 272822636
  const FRACCION_APP: int := 272822637
  const FRACCION_TEXT: int := 273289906
  const JUSTIFICACION: int := 272822638
  const ALTERNATIVAS: int := 272822639
  const NOTAS_CLASIFICADOR: int := 272822640
  const REGULACION: int := 273305150
  const ARBOL: int := 272834870
  const DUDAS_CLIENTE: int := 272834930
  const ACCION_CATEGORY: int := 272834929

  /** The text fields the pipeline writes. */
  const TEXT_FIELDS: set<int> :=
    {NOMBRE_CORTO, DESCRIPCION, FRACCION_TEXT, JUSTIFICACION, ARBOL, ALTERNATIVAS, DUDAS_CLIENTE, REGULACION,
     NOTAS_CLASIFICADOR}

  const OCTET_STREAM: string := "application/octet-stream"

  // ---------------------------------------------------------------------------
  // Data URLs (section 3 of RFC 2397)
  // ---------------------------------------------------------------------------

  /** `asDataUrl(buffer, mimetype)`: `data:<mimetype or octet-stream>;base64,<base64 of buffer>`. */
  function AsDataUrl(buffer: Bytes, mimetype: string): string
  {
    "data:" + (if mimetype != "" then mimetype else OCTET_STREAM) + ";base64," + Base64.Encode(buffer)
  }

  /** The position of the first `c` in `s`, or `|s|`. */
  function IndexOfChar(s: string, c: char): (k: nat)
    ensures k <= |s|
    ensures forall i :: 0 <= i < k ==> s[i] != c
    ensures k < |s| ==> s[k] == c
  {
    if s == [] then 0 else if s[0] == c then 0 else 1 + IndexOfChar(s[1..], c)
  }

  /** A reader for base64 data URLs: the media type and the bytes. */
  function ParseDataUrl(url: string): Option<(string, Bytes)>
  {
    if !StartsWith(url, "data:") then None
    else
      var rest := url[5..];
      var k := IndexOfChar(rest, ',');
      var header := rest[..k];
      if k == |rest| || |header| < 7 || header[|header| - 7..] != ";base64" then None
      else
        var data := Base64.Decode(rest[k + 1..]);
        if data.None? then None else Some((header[..|header| - 7], data.value))
  }

  /**
   * A data URL made from a media type without ',' reads back as that media
   * type (octet-stream when empty) and the original bytes.
   */
  lemma DataUrlRoundTrip(buffer: Bytes, mimetype: string)
    requires ',' !in mimetype
    ensures ParseDataUrl(AsDataUrl(buffer, mimetype)) == Some((if mimetype != "" then mimetype else OCTET_STREAM, buffer))
  {
    var m := if mimetype != "" then mimetype else OCTET_STREAM;
    var e := Base64.Encode(buffer);
    var url := AsDataUrl(buffer, mimetype);
    assert ',' !in m by {
      if mimetype == "" {
        assert forall i :: 0 <= i < |OCTET_STREAM| ==> OCTET_STREAM[i] != ',';
      }
    }
    assert url == "data:" + (m + ";base64," + e);
    assert StartsWith(url, "data:");
    assert url[5..] == m + ";base64," + e;
    DataUrlHeader(m, e);
    Base64.DecodeEncode(buffer);
  }

  /** After `data:`, the first ',' ends the `<type>;base64` header and the payload follows it. */
  lemma DataUrlHeader(m: string, e: string)
    requires ',' !in m
    ensures var rest := m + ";base64," + e;
            var k := IndexOfChar(rest, ',');
            && k == |m| + 7 && rest[..k] == m + ";base64" && rest[k + 1..] == e
  {
    var rest := m + ";base64," + e;
    var k := |m| + 7;
    forall i | 0 <= i < k
      ensures rest[i] != ','
    {
      if i < |m| {
        assert rest[i] == m[i];
        assert m[i] in m;
      } else {
        assert rest[i] == ";base64"[i - |m|];
      }
    }
    assert rest[k] == ',';
    IndexOfCharAt(rest, ',', k);
    assert rest[..k] == m + ";base64";
    assert rest[k + 1..] == e;
  }

  lemma IndexOfCharAt(s: string, c: char, k: nat)
    requires k < |s| && s[k] == c
    requires forall i :: 0 <= i < k ==> s[i] != c
    ensures IndexOfChar(s, c) == k
  {
  }

  // ---------------------------------------------------------------------------
  // Images first
  // ---------------------------------------------------------------------------

  /** `((f?.mimetype) || '').startsWith('image/')` */
  predicate IsImageFile(f: JsVal)
  {
    var m := Or(Get(f, "mimetype"), Str(""));
    m.Str? && StartsWith(m.s, "image/")
  }

  /** The comparator's key: 0 for images, 1 for the rest. */
  function Rank(f: JsVal): nat
  {
    if IsImageFile(f) then 0 else 1
  }

  function Images(fs: seq<JsVal>): (r: seq<JsVal>)
    ensures forall i :: 0 <= i < |r| ==> IsImageFile(r[i])
  {
    if fs == [] then [] else (if IsImageFile(fs[0]) then [fs[0]] else []) + Images(fs[1..])
  }

  function Others(fs: seq<JsVal>): (r: seq<JsVal>)
    ensures forall i :: 0 <= i < |r| ==> !IsImageFile(r[i])
  {
    if fs == [] then [] else (if IsImageFile(fs[0]) then [] else [fs[0]]) + Others(fs[1..])
  }

  /** The files as the stable sort by `Rank` orders them. */
  function ImagesFirst(fs: seq<JsVal>): seq<JsVal>
  {
    Images(fs) + Others(fs)
  }

  predicate RankSorted(r: seq<JsVal>)
  {
    forall i, j :: 0 <= i < j < |r| ==> Rank(r[i]) <= Rank(r[j])
  }

  lemma {:induction false} ImagesAppend(a: seq<JsVal>, b: seq<JsVal>)
    ensures Images(a + b) == Images(a) + Images(b)
    decreases |a|
  {
    if a == [] {
      assert a + b == b;
    } else {
      var x := a[0];
      assert (a + b)[0] == x && (a + b)[1..] == a[1..] + b;
      ImagesAppend(a[1..], b);
      var h: seq<JsVal> := if IsImageFile(x) then [x] else [];
      assert Images(a + b) == h + Images(a[1..] + b);
      assert Images(a) == h + Images(a[1..]);
    }
  }

  lemma {:induction false} OthersAppend(a: seq<JsVal>, b: seq<JsVal>)
    ensures Others(a + b) == Others(a) + Others(b)
    decreases |a|
  {
    if a == [] {
      assert a + b == b;
    } else {
      var x := a[0];
      assert (a + b)[0] == x && (a + b)[1..] == a[1..] + b;
      OthersAppend(a[1..], b);
      var h: seq<JsVal> := if IsImageFile(x) then [] else [x];
      assert Others(a + b) == h + Others(a[1..] + b);
      assert Others(a) == h + Others(a[1..]);
    }
  }

  lemma {:induction false} FilterOfFiltered(fs: seq<JsVal>)
    requires (forall i :: 0 <= i < |fs| ==> IsImageFile(fs[i])) || (forall i :: 0 <= i < |fs| ==> !IsImageFile(fs[i]))
    ensures (forall i :: 0 <= i < |fs| ==> IsImageFile(fs[i])) ==> Images(fs) == fs && Others(fs) == []
    ensures (forall i :: 0 <= i < |fs| ==> !IsImageFile(fs[i])) ==> Images(fs) == [] && Others(fs) == fs
    decreases |fs|
  {
    if fs != [] {
      FilterOfFiltered(fs[1..]);
      assert [fs[0]] + fs[1..] == fs;
    }
  }

  lemma {:induction false} PartitionMultiset(fs: seq<JsVal>)
    ensures multiset(Images(fs)) + multiset(Others(fs)) == multiset(fs)
    decreases |fs|
  {
    if fs != [] {
      PartitionMultiset(fs[1..]);
      assert [fs[0]] + fs[1..] == fs;
    }
  }

  /**
   * Images-first is sorted by rank, is a permutation of the files, and keeps
   * the relative order inside each group.
   */
  lemma ImagesFirstSpec(fs: seq<JsVal>)
    ensures RankSorted(ImagesFirst(fs))
    ensures multiset(ImagesFirst(fs)) == multiset(fs)
    ensures Images(ImagesFirst(fs)) == Images(fs) && Others(ImagesFirst(fs)) == Others(fs)
  {
    GroupsSorted(Images(fs), Others(fs));
    ImagesFirstPermutes(fs);
    ImagesFirstKeepsGroups(fs);
  }

  lemma ImagesFirstPermutes(fs: seq<JsVal>)
    ensures multiset(ImagesFirst(fs)) == multiset(fs)
  {
    var im, ot := Images(fs), Others(fs);
    PartitionMultiset(fs);
    assert multiset(im + ot) == multiset(im) + multiset(ot);
  }

  lemma ImagesFirstKeepsGroups(fs: seq<JsVal>)
    ensures Images(ImagesFirst(fs)) == Images(fs) && Others(ImagesFirst(fs)) == Others(fs)
  {
    var im, ot := Images(fs), Others(fs);
    ImagesAppend(im, ot);
    OthersAppend(im, ot);
    FilterOfFiltered(im);
    FilterOfFiltered(ot);
    assert im + [] == im && [] + ot == ot;
  }

  /** Images followed by non-images are in rank order. */
  lemma GroupsSorted(a: seq<JsVal>, b: seq<JsVal>)
    requires forall i :: 0 <= i < |a| ==> IsImageFile(a[i])
    requires forall i :: 0 <= i < |b| ==> !IsImageFile(b[i])
    ensures RankSorted(a + b)
  {
    var r := a + b;
    forall i, j | 0 <= i < j < |r|
      ensures Rank(r[i]) <= Rank(r[j])
    {
      if j < |a| {
        assert r[i] == a[i] && r[j] == a[j];
      } else if i >= |a| {
        assert r[i] == b[i - |a|] && r[j] == b[j - |a|];
      } else {
        assert r[i] == a[i] && r[j] == b[j - |a|];
      }
    }
  }

  lemma {:induction false} SortedSplits(r: seq<JsVal>)
    requires RankSorted(r)
    ensures r == Images(r) + Others(r)
    decreases |r|
  {
    if r != [] {
      if IsImageFile(r[0]) {
        SortedSplits(r[1..]);
        assert [r[0]] + r[1..] == r;
      } else {
        assert forall i :: 0 <= i < |r| ==> !IsImageFile(r[i]) by {
          forall i | 0 <= i < |r| ensures !IsImageFile(r[i]) {
            if i > 0 {
              assert Rank(r[0]) <= Rank(r[i]);
            }
          }
        }
        FilterOfFiltered(r);
      }
    }
  }

  /** Any rank-sorted order that keeps each group's order is images-first: the stable sort has one answer. */
  lemma StableSortUnique(fs: seq<JsVal>, r: seq<JsVal>)
    requires RankSorted(r) && Images(r) == Images(fs) && Others(r) == Others(fs)
    ensures r == ImagesFirst(fs)
  {
    SortedSplits(r);
  }
  // ---------------------------------------------------------------------------
  // The environment
  // ---------------------------------------------------------------------------

  /** One storage upload: bucket, key, bytes and content type. */
  datatype Upload = Upload(bucket: string, key: string, bytes: Bytes, contentType: string)

  /**
   * The configuration and what every external call answers. The OAuth token
   * comes from `accessToken` or from `appAuth` (`authReply`); `item` is the
   * item read (a Failure when it throws); `download` is what
   * `downloadFileBytes` (PodioClient.DownloadFileBytes) gives for a file id;
   * `upload` answers the public URL of an upload; `pdfText` is
   * `extractPdfText(buffer, {maxPages: 3, timeoutMs: 10000})`; `clock(i)` is
   * the time at which the key with ordinal `i` is made; `complete` is the chat
   * completion; `parse` is `JSON.parse`; `updateReply` answers the write of a
   * payload.
   */
  datatype RunEnv = RunEnv(
    accessToken: Option<string>,
    credentials: PodioClient.Credentials,
    authReply: PodioClient.RawReply,
    parse: string -> Result<JsVal>,
    item: Result<JsVal>,
    supabaseUrl: Option<string>,
    serviceKey: Option<string>,
    bucket: Option<string>,
    openAiKey: Option<string>,
    guess: JsVal -> Option<string>,
    download: JsVal -> Result<PodioClient.Download>,
    upload: Upload -> Result<string>,
    pdfText: Bytes -> Result<string>,
    clock: int -> int,
    complete: ClassifierRequest.ChatRequest -> Result<JsVal>,
    updateReply: map<int, JsVal> -> Result<PodioClient.RawReply>)

  /** `hasSupabase`: both the URL and the service key are set. */
  predicate HasStorage(env: RunEnv)
  {
    Present(env.supabaseUrl) && Present(env.serviceKey)
  }

  /** `SUPABASE_BUCKET || 'podio-files'` */
  function Bucket(env: RunEnv): string
  {
    if Present(env.bucket) then env.bucket.value else "podio-files"
  }

  /** `ensureAccessToken()`: the configured token, else `access_token` of the app authentication. */
  function EnsureAccessToken(env: RunEnv): Result<JsVal>
  {
    if Present(env.accessToken) then Success(Str(env.accessToken.value))
    else
      var json := PodioClient.AppAuth(env.credentials, env.authReply, env.parse);
      if json.Failure? then Failure(json.message) else GetStrict(json.value, "access_token")
  }

  /** A configured token is used as is; otherwise missing app credentials fail before any request. */
  lemma AccessTokenChoice(env: RunEnv)
    ensures Present(env.accessToken) ==> EnsureAccessToken(env) == Success(Str(env.accessToken.value))
    ensures !Present(env.accessToken) && !Present(env.credentials.clientId) ==>
              EnsureAccessToken(env) == Failure("Missing Podio app credentials")
  {
  }

  // ---------------------------------------------------------------------------
  // The per-file loop
  // ---------------------------------------------------------------------------

  /** The part of the environment the loop over the files sees. */
  datatype FileEnv = FileEnv(
    storage: bool,
    bucket: string,
    guess: JsVal -> Option<string>,
    download: JsVal -> Result<PodioClient.Download>,
    upload: Upload -> Result<string>,
    pdfText: Bytes -> Result<string>,
    clock: int -> int)

  function FilesEnv(env: RunEnv): FileEnv
  {
    FileEnv(HasStorage(env), Bucket(env), env.guess, env.download, env.upload, env.pdfText, env.clock)
  }

  /** What the loop has gathered: image inputs, PDF texts, the upload ordinal, and the uploads made. */
  datatype Acc = Acc(images: seq<string>, texts: seq<string>, ordinal: int, uploads: seq<Upload>)

  /** A file's download: `downloadFileBytes(f.file_id, ...)`; reading `file_id` of a nullish file throws. */
  function Downloaded(f: JsVal, env: FileEnv): Result<PodioClient.Download>
  {
    var id := GetStrict(f, "file_id");
    if id.Failure? then Failure(id.message) else env.download(id.value)
  }

  /** `contentType || typeHint` */
  function EffectiveType(d: PodioClient.Download, hint: string): string
  {
    if d.contentType != "" then d.contentType else hint
  }

  /** The type a file is routed by, when its download succeeds. */
  function TypeOf(f: JsVal, env: FileEnv): Option<string>
  {
    var d := Downloaded(f, env);
    if d.Failure? then None else Some(EffectiveType(d.value, StorageKeys.EnsureContentType(f, env.guess)))
  }

  predicate RoutedImage(f: JsVal, env: FileEnv)
  {
    TypeOf(f, env).Some? && IsImageType(TypeOf(f, env).value)
  }

  predicate RoutedPdf(f: JsVal, env: FileEnv)
  {
    TypeOf(f, env).Some? && IsPdfType(TypeOf(f, env).value)
  }

  /** `type.startsWith('image/')` */
  predicate IsImageType(ty: string)
  {
    StartsWith(ty, "image/")
  }

  /** `type === 'application/pdf'` (a PDF type never starts with "image/"). */
  predicate IsPdfType(ty: string)
    ensures IsPdfType(ty) ==> !IsImageType(ty)
  {
    assert "application/pdf"[0] != "image/"[0];
    ty == "application/pdf"
  }

  /**
   * What a downloaded file of effective type `ty` adds. An image or PDF is
   * uploaded under the next key when storage is configured (the ordinal moves
   * on); an image adds its public URL, or its data URL without storage; a PDF
   * adds its text when the extraction succeeds with a non-empty text.
   */
  function Route(acc: Acc, f: JsVal, itemId: JsVal, env: FileEnv, buf: Bytes, ty: string): Result<Acc>
  {
    if !IsImageType(ty) && !IsPdfType(ty) then Success(acc)
    else
      var key := if env.storage then StorageKeys.MakeKey(itemId, f, Some(acc.ordinal), env.clock(acc.ordinal)) else Success("");
      if key.Failure? then Failure(key.message)
      else
        var up := Upload(env.bucket, key.value, buf, ty);
        var url := if env.storage then env.upload(up) else Success(AsDataUrl(buf, ty));
        if url.Failure? then Failure(url.message)
        else
          var t := env.pdfText(buf);
          var text := if IsPdfType(ty) && t.Success? then t.value else "";
          Success(Acc(acc.images + (if IsImageType(ty) then [url.value] else []),
                      acc.texts + (if text != "" then [text] else []),
                      if env.storage then acc.ordinal + 1 else acc.ordinal,
                      acc.uploads + (if env.storage then [up] else [])))
  }

  /** One iteration of the loop over the files. */
  function Step(acc: Acc, f: JsVal, itemId: JsVal, env: FileEnv): Result<Acc>
  {
    var d := Downloaded(f, env);
    if d.Failure? then Failure(d.message)
    else Route(acc, f, itemId, env, d.value.buf, EffectiveType(d.value, StorageKeys.EnsureContentType(f, env.guess)))
  }

  /** The loop over the first `|fs|` files; the first throw ends it. */
  function FoldFiles(fs: seq<JsVal>, itemId: JsVal, env: FileEnv): Result<Acc>
    decreases |fs|
  {
    if fs == [] then Success(Acc([], [], 0, []))
    else
      var prev := FoldFiles(fs[..|fs| - 1], itemId, env);
      if prev.Failure? then prev else Step(prev.value, fs[|fs| - 1], itemId, env)
  }

  /** Once an iteration throws, the loop has thrown. */
  lemma {:induction false} FoldFailurePersists(fs: seq<JsVal>, n: nat, itemId: JsVal, env: FileEnv)
    requires n <= |fs| && FoldFiles(fs[..n], itemId, env).Failure?
    ensures FoldFiles(fs, itemId, env) == FoldFiles(fs[..n], itemId, env)
    decreases |fs| - n
  {
    if n < |fs| {
      assert fs[..n + 1][..n] == fs[..n];
      FoldFailurePersists(fs, n + 1, itemId, env);
    } else {
      assert fs[..n] == fs;
    }
  }

  /** The images and PDFs among the files whose download succeeds. */
  function ImageCount(fs: seq<JsVal>, env: FileEnv): nat
    decreases |fs|
  {
    if fs == [] then 0 else ImageCount(fs[..|fs| - 1], env) + (if RoutedImage(fs[|fs| - 1], env) then 1 else 0)
  }

  function PdfCount(fs: seq<JsVal>, env: FileEnv): nat
    decreases |fs|
  {
    if fs == [] then 0 else PdfCount(fs[..|fs| - 1], env) + (if RoutedPdf(fs[|fs| - 1], env) then 1 else 0)
  }

  /**
   * What a file of type `ty` adds: an image adds exactly one image input
   * (without storage, its data URL) and no text; a PDF adds at most one,
   * non-empty, text and no image; any other type adds nothing. The ordinal
   * moves, with one upload, only for a stored image or PDF.
   */
  lemma RouteEffect(acc: Acc, f: JsVal, itemId: JsVal, env: FileEnv, buf: Bytes, ty: string)
    requires Route(acc, f, itemId, env, buf, ty).Success?
    ensures var a := Route(acc, f, itemId, env, buf, ty).value;
            var routed := IsImageType(ty) || IsPdfType(ty);
            && (env.storage && routed ==>
                  a.ordinal == acc.ordinal + 1 && |a.uploads| == |acc.uploads| + 1
                  && a.uploads[..|acc.uploads|] == acc.uploads)
            && (!(env.storage && routed) ==> a.ordinal == acc.ordinal && a.uploads == acc.uploads)
            && (IsImageType(ty) ==>
                  && a.texts == acc.texts && a.images[..|acc.images|] == acc.images
                  && |a.images| == |acc.images| + 1
                  && (!env.storage ==> a.images[|acc.images|] == AsDataUrl(buf, ty))
                  && (env.storage ==> a.images[|acc.images|] == env.upload(a.uploads[|acc.uploads|]).value))
            && (env.storage && routed ==>
                  var up := a.uploads[|acc.uploads|];
                  && up.key == StorageKeys.MakeKey(itemId, f, Some(acc.ordinal), env.clock(acc.ordinal)).value
                  && up == Upload(env.bucket, up.key, buf, ty))
            && (IsPdfType(ty) ==>
                  && a.images == acc.images && |acc.texts| <= |a.texts| <= |acc.texts| + 1
                  && a.texts[..|acc.texts|] == acc.texts
                  && (|a.texts| > |acc.texts| ==> a.texts[|acc.texts|] != "")
                  && var t := env.pdfText(buf);
                     a.texts == acc.texts + (if t.Success? && t.value != "" then [t.value] else []))
            && (!routed ==> a == acc)
  {
    var a := Route(acc, f, itemId, env, buf, ty).value;
    if IsImageType(ty) || IsPdfType(ty) {
      assert a.images[..|acc.images|] == acc.images;
      assert a.texts[..|acc.texts|] == acc.texts;
      assert a.uploads[..|acc.uploads|] == acc.uploads;
    }
  }

  /**
   * A failed text extraction is swallowed: whether a file is routed at all
   * does not depend on what the extractor answers, only the appended text does.
   */
  lemma PdfErrorSwallowed(acc: Acc, f: JsVal, itemId: JsVal, env: FileEnv, buf: Bytes, ty: string,
                          p: Bytes -> Result<string>)
    ensures Route(acc, f, itemId, env, buf, ty).Success? == Route(acc, f, itemId, env.(pdfText := p), buf, ty).Success?
    ensures p(buf).Failure? && Route(acc, f, itemId, env.(pdfText := p), buf, ty).Success? ==>
              Route(acc, f, itemId, env.(pdfText := p), buf, ty).value.texts == acc.texts
  {
  }

  /** The effective type is the downloaded content type when it is non-empty, else the hint. */
  lemma EffectiveTypeChoice(f: JsVal, env: FileEnv)
    requires Downloaded(f, env).Success?
    ensures Downloaded(f, env).value.contentType != "" ==> TypeOf(f, env) == Some(Downloaded(f, env).value.contentType)
    ensures Downloaded(f, env).value.contentType == "" ==> TypeOf(f, env) == Some(StorageKeys.EnsureContentType(f, env.guess))
  {
  }

  /** A failed download throws; otherwise the file is routed by its effective type. */
  lemma StepEffect(acc: Acc, f: JsVal, itemId: JsVal, env: FileEnv)
    ensures TypeOf(f, env).None? <==> Downloaded(f, env).Failure?
    ensures TypeOf(f, env).None? ==> Step(acc, f, itemId, env).Failure?
    ensures TypeOf(f, env).Some? ==>
              Step(acc, f, itemId, env) == Route(acc, f, itemId, env, Downloaded(f, env).value.buf, TypeOf(f, env).value)
  {
  }

  /** The loop's last iteration. */
  lemma FoldLast(fs: seq<JsVal>, itemId: JsVal, env: FileEnv)
    requires fs != []
    ensures var prev := FoldFiles(fs[..|fs| - 1], itemId, env);
            FoldFiles(fs, itemId, env) == if prev.Failure? then prev else Step(prev.value, fs[|fs| - 1], itemId, env)
  {
  }

  /**
   * After the loop: one image input per image file, and one upload (numbered
   * by the ordinal) per image or PDF exactly when storage is configured.
   */
  lemma {:induction false} FoldCounts(fs: seq<JsVal>, itemId: JsVal, env: FileEnv)
    requires FoldFiles(fs, itemId, env).Success?
    ensures var a := FoldFiles(fs, itemId, env).value;
            && |a.images| == ImageCount(fs, env)
            && |a.uploads| == a.ordinal
            && a.ordinal == (if env.storage then ImageCount(fs, env) + PdfCount(fs, env) else 0)
    decreases |fs|
  {
    if fs != [] {
      var n := |fs| - 1;
      FoldLast(fs, itemId, env);
      var prev := FoldFiles(fs[..n], itemId, env);
      FoldCounts(fs[..n], itemId, env);
      StepEffect(prev.value, fs[n], itemId, env);
      RouteEffect(prev.value, fs[n], itemId, env, Downloaded(fs[n], env).value.buf, TypeOf(fs[n], env).value);
    }
  }

  predicate NoEmptyText(texts: seq<string>)
  {
    forall j :: 0 <= j < |texts| ==> texts[j] != ""
  }

  lemma NoEmptyTextExtends(p: seq<string>, a: seq<string>)
    requires NoEmptyText(p) && |p| <= |a| <= |p| + 1 && a[..|p|] == p
    requires |a| > |p| ==> a[|p|] != ""
    ensures NoEmptyText(a)
  {
    assert forall j :: 0 <= j < |p| ==> a[j] == a[..|p|][j];
  }

  /** After the loop: at most one text per PDF, none of them empty. */
  lemma {:induction false} FoldTexts(fs: seq<JsVal>, itemId: JsVal, env: FileEnv)
    requires FoldFiles(fs, itemId, env).Success?
    ensures var a := FoldFiles(fs, itemId, env).value;
            |a.texts| <= PdfCount(fs, env) && NoEmptyText(a.texts)
    decreases |fs|
  {
    if fs != [] {
      var n := |fs| - 1;
      FoldLast(fs, itemId, env);
      var prev := FoldFiles(fs[..n], itemId, env);
      FoldTexts(fs[..n], itemId, env);
      StepEffect(prev.value, fs[n], itemId, env);
      RouteEffect(prev.value, fs[n], itemId, env, Downloaded(fs[n], env).value.buf, TypeOf(fs[n], env).value);
      if RoutedPdf(fs[n], env) {
        NoEmptyTextExtends(prev.value.texts, FoldFiles(fs, itemId, env).value.texts);
      }
    }
  }

  /** One pass of the loop body: route one file. */
  method HandleFile(f: JsVal, itemId: JsVal, env: FileEnv, imageInputs: seq<string>, pdfTexts: seq<string>,
                    i: int, uploads: seq<Upload>) returns (r: Result<Acc>)
    ensures r == Step(Acc(imageInputs, pdfTexts, i, uploads), f, itemId, env)
  {
    ghost var acc := Acc(imageInputs, pdfTexts, i, uploads);
    StepEffect(acc, f, itemId, env);
    assert imageInputs + [] == imageInputs && pdfTexts + [] == pdfTexts && uploads + [] == uploads;
    var typeHint := StorageKeys.EnsureContentType(f, env.guess);
    var d := Downloaded(f, env);
    if d.Failure? {
      return Failure(d.message);
    }
    var ty := EffectiveType(d.value, typeHint);
    var images, texts, ordinal, ups := imageInputs, pdfTexts, i, uploads;
    if IsImageType(ty) {
      if env.storage {
        var key := StorageKeys.MakeKey(itemId, f, Some(ordinal), env.clock(ordinal));
        if key.Failure? {
          return Failure(key.message);
        }
        var up := Upload(env.bucket, key.value, d.value.buf, ty);
        ordinal := ordinal + 1;
        var publicUrl := env.upload(up);
        if publicUrl.Failure? {
          return Failure(publicUrl.message);
        }
        ups := ups + [up];
        images := images + [publicUrl.value];
      } else {
        images := images + [AsDataUrl(d.value.buf, ty)];
      }
    } else if IsPdfType(ty) {
      if env.storage {
        var key := StorageKeys.MakeKey(itemId, f, Some(ordinal), env.clock(ordinal));
        if key.Failure? {
          return Failure(key.message);
        }
        var up := Upload(env.bucket, key.value, d.value.buf, ty);
        ordinal := ordinal + 1;
        var stored := env.upload(up);
        if stored.Failure? {
          return Failure(stored.message);
        }
        ups := ups + [up];
      }
      var text := "";
      var extracted := env.pdfText(d.value.buf);
      if extracted.Success? {
        text := extracted.value;
      }
      if text != "" {
        texts := texts + [text];
      }
    }
    r := Success(Acc(images, texts, ordinal, ups));
  }

  /** The per-file `for` loop of `runOnce`. */
  method ProcessFiles(files: seq<JsVal>, itemId: JsVal, env: FileEnv) returns (r: Result<Acc>)
    ensures r == FoldFiles(files, itemId, env)
  {
    var imageInputs: seq<string> := [];
    var pdfTexts: seq<string> := [];
    var i := 0;
    var uploads: seq<Upload> := [];
    for k := 0 to |files|
      invariant FoldFiles(files[..k], itemId, env) == Success(Acc(imageInputs, pdfTexts, i, uploads))
    {
      assert files[..k + 1][..k] == files[..k];
      FoldLast(files[..k + 1], itemId, env);
      var next := HandleFile(files[k], itemId, env, imageInputs, pdfTexts, i, uploads);
      if next.Failure? {
        FoldFailurePersists(files, k + 1, itemId, env);
        return next;
      }
      imageInputs, pdfTexts, i, uploads := next.value.images, next.value.texts, next.value.ordinal, next.value.uploads;
    }
    assert files[..|files|] == files;
    r := Success(Acc(imageInputs, pdfTexts, i, uploads));
  }

  // ---------------------------------------------------------------------------
  // The payload
  // ---------------------------------------------------------------------------

  /** `Array.isArray(v) ? v.join(sep) : String(v ?? '')` */
  function Listing(v: JsVal, sep: string): string
  {
    if v.Arr? then JoinValues(v.elems, sep) else ToStr(Coalesce(v, Str("")))
  }

  /** `` `- ${a.fraccion}: ${a.motivo}` `` for an alternative that is not nullish. */
  function AltLine(a: JsVal): string
  {
    "- " + ToStr(Get(a, "fraccion")) + ": " + ToStr(Get(a, "motivo"))
  }

  /** `alternativas.map(...)`: one line per alternative; reading a field of a nullish one throws. */
  function AltLines(es: seq<JsVal>): (r: Result<seq<string>>)
    ensures r.Success? <==> forall i :: 0 <= i < |es| ==> !Nullish(es[i])
    ensures r.Success? ==> |r.value| == |es| && forall i :: 0 <= i < |es| ==> r.value[i] == AltLine(es[i])
    decreases |es|
  {
    if es == [] then Success([])
    else
      var first := GetStrict(es[0], "fraccion");
      if first.Failure? then Failure(first.message)
      else
        var rest := AltLines(es[1..]);
        if rest.Failure? then rest else Success([AltLine(es[0])] + rest.value)
  }

  /** The rendering of `alternativas`: lines joined by a newline for an array, else `String(v ?? '')`. */
  function Alternativas(v: JsVal): Result<string>
  {
    if v.Arr? then
      var lines := AltLines(v.elems);
      if lines.Failure? then Failure(lines.message) else Success(JoinStrings(lines.value, "\n"))
    else Success(ToStr(Coalesce(v, Str(""))))
  }

  /** The `values` payload: field id to the `value` sent as `[{ value }]`; no date, app or category field. */
  function BuildValues(result: JsVal): Result<map<int, JsVal>>
  {
    var alt := Alternativas(Get(result, "alternativas"));
    if alt.Failure? then Failure(alt.message)
    else
      Success(map[
        NOMBRE_CORTO := Coalesce(Get(result, "nombre_corto"), Str("")),
        DESCRIPCION := Coalesce(Get(result, "descripcion"), Str("")),
        FRACCION_TEXT := Coalesce(Get(result, "fraccion"), Str("")),
        JUSTIFICACION := Coalesce(Get(result, "justificacion"), Str("")),
        ARBOL := Str(Listing(Get(result, "arbol"), "\n- ")),
        ALTERNATIVAS := Str(alt.value),
        DUDAS_CLIENTE := Coalesce(Get(result, "dudas_cliente"), Str("")),
        REGULACION := Coalesce(Get(result, "regulacion"), Str("")),
        NOTAS_CLASIFICADOR := Coalesce(Get(result, "notas_clasificador"), Str(""))])
  }

  /** The payload can only fail on a nullish alternative. */
  lemma PayloadFailsOnNullishAlternative(result: JsVal)
    ensures BuildValues(result).Failure? <==>
              Get(result, "alternativas").Arr? &&
              exists i :: 0 <= i < |Get(result, "alternativas").elems| && Nullish(Get(result, "alternativas").elems[i])
  {
  }

  /** The payload holds exactly the nine text fields, never the image, date, app or category fields. */
  lemma PayloadFields(result: JsVal)
    requires BuildValues(result).Success?
    ensures BuildValues(result).value.Keys == TEXT_FIELDS
  {
  }

  /** Nine distinct text fields, none of them the image, date, app or category field. */
  lemma TextFieldsAreSafe()
    ensures |TEXT_FIELDS| == 9
    ensures IMAGEN !in TEXT_FIELDS && FECHA !in TEXT_FIELDS && REQU_ID_APP !in TEXT_FIELDS
            && FRACCION_APP !in TEXT_FIELDS && ACCION_CATEGORY !in TEXT_FIELDS
  {
  }

  /** A missing (nullish) output is written as the empty string. */
  lemma MissingValuesAreEmpty(result: JsVal)
    requires BuildValues(result).Success?
    ensures var v := BuildValues(result).value;
            && (Nullish(Get(result, "nombre_corto")) ==> v[NOMBRE_CORTO] == Str(""))
            && (Nullish(Get(result, "descripcion")) ==> v[DESCRIPCION] == Str(""))
            && (Nullish(Get(result, "fraccion")) ==> v[FRACCION_TEXT] == Str(""))
            && (Nullish(Get(result, "justificacion")) ==> v[JUSTIFICACION] == Str(""))
            && (Nullish(Get(result, "arbol")) ==> v[ARBOL] == Str(""))
            && (Nullish(Get(result, "alternativas")) ==> v[ALTERNATIVAS] == Str(""))
            && (Nullish(Get(result, "dudas_cliente")) ==> v[DUDAS_CLIENTE] == Str(""))
            && (Nullish(Get(result, "regulacion")) ==> v[REGULACION] == Str(""))
            && (Nullish(Get(result, "notas_clasificador")) ==> v[NOTAS_CLASIFICADOR] == Str(""))
  {
  }

  /** `arbol` as an array is its elements joined by "\n- ". */
  lemma ArbolJoined(result: JsVal, es: seq<JsVal>)
    requires Get(result, "arbol") == Arr(es)
    requires BuildValues(result).Success?
    ensures BuildValues(result).value[ARBOL] == Str(JoinValues(es, "\n- "))
  {
  }

  /** Alternatives whose lines have no newline can be read back line by line from the stored text. */
  lemma AlternativasLines(result: JsVal, es: seq<JsVal>)
    requires Get(result, "alternativas") == Arr(es) && es != []
    requires forall i :: 0 <= i < |es| ==> !Nullish(es[i]) && '\n' !in AltLine(es[i])
    ensures BuildValues(result).Success?
    ensures BuildValues(result).value[ALTERNATIVAS].Str?
    ensures SplitOn(BuildValues(result).value[ALTERNATIVAS].s, '\n') == seq(|es|, i requires 0 <= i < |es| => AltLine(es[i]))
  {
    var lines := AltLines(es).value;
    assert lines == seq(|es|, i requires 0 <= i < |es| => AltLine(es[i]));
    SplitJoin(lines, '\n');
  }

  // ---------------------------------------------------------------------------
  // The whole run
  // ---------------------------------------------------------------------------

  datatype RunOutcome =
    | Threw(message: string)
    | NoFiles
    | NoUsableInputs
    | Written(values: map<int, JsVal>)

  /** How a run ends, and the uploads it made on the way (not reported when it throws in the loop). */
  datatype RunResult = RunResult(outcome: RunOutcome, uploads: seq<Upload>)

  /** `hasOpenAI` */
  predicate HasOpenAi(env: RunEnv)
  {
    Present(env.openAiKey)
  }

  /** `runOnce(itemId)` */
  function RunSpec(itemId: JsVal, env: RunEnv): RunResult
  {
    var token := EnsureAccessToken(env);
    if token.Failure? then RunResult(Threw(token.message), [])
    else if env.item.Failure? then RunResult(Threw(env.item.message), [])
    else
      var files := ImagesFirst(PodioClient.GetItemFiles(env.item.value));
      if files == [] then RunResult(NoFiles, [])
      else
        var acc := FoldFiles(files, itemId, FilesEnv(env));
        if acc.Failure? then RunResult(Threw(acc.message), [])
        else
          var a := acc.value;
          if !HasOpenAi(env) then RunResult(Threw("Missing OPENAI_API_KEY"), a.uploads)
          else if a.images == [] && a.texts == [] then RunResult(NoUsableInputs, a.uploads)
          else
            var result := ClassifierRequest.ClassifyInputs(Some(a.images), Some(a.texts), env.complete, env.parse);
            if result.Failure? then RunResult(Threw(result.message), a.uploads)
            else
              var values := BuildValues(result.value);
              if values.Failure? then RunResult(Threw(values.message), a.uploads)
              else
                var err := PodioClient.SetItemValues(env.updateReply(values.value));
                if err.Some? then RunResult(Threw(err.value), a.uploads)
                else RunResult(Written(values.value), a.uploads)
  }

  method Run(itemId: JsVal, env: RunEnv) returns (outcome: RunOutcome, uploads: seq<Upload>)
    ensures RunResult(outcome, uploads) == RunSpec(itemId, env)
  {
    var token := EnsureAccessToken(env);
    if token.Failure? {
      return Threw(token.message), [];
    }
    if env.item.Failure? {
      return Threw(env.item.message), [];
    }
    var files := ImagesFirst(PodioClient.GetItemFiles(env.item.value));
    if |files| == 0 {
      return NoFiles, [];
    }
    var acc := ProcessFiles(files, itemId, FilesEnv(env));
    if acc.Failure? {
      return Threw(acc.message), [];
    }
    uploads := acc.value.uploads;
    if !HasOpenAi(env) {
      return Threw("Missing OPENAI_API_KEY"), uploads;
    }
    if |acc.value.images| == 0 && |acc.value.texts| == 0 {
      return NoUsableInputs, uploads;
    }
    var result := ClassifierRequest.ClassifyInputs(Some(acc.value.images), Some(acc.value.texts), env.complete, env.parse);
    if result.Failure? {
      return Threw(result.message), uploads;
    }
    var values := BuildValues(result.value);
    if values.Failure? {
      return Threw(values.message), uploads;
    }
    var err := PodioClient.SetItemValues(env.updateReply(values.value));
    if err.Some? {
      return Threw(err.value), uploads;
    }
    outcome := Written(values.value);
  }

  /** An item without files ends before any download, classification or write: those answers do not matter. */
  lemma NoFilesReturnsEarly(itemId: JsVal, env: RunEnv, other: RunEnv)
    requires EnsureAccessToken(env).Success? && env.item.Success?
    requires PodioClient.GetItemFiles(env.item.value) == []
    requires other == env.(download := other.download, upload := other.upload, pdfText := other.pdfText, complete := other.complete,
                           updateReply := other.updateReply)
    ensures RunSpec(itemId, env) == RunResult(NoFiles, [])
    ensures RunSpec(itemId, other) == RunSpec(itemId, env)
  {
  }

  /** With no image and no text the run ends without classifying or writing. */
  lemma NoInputsNoClassification(itemId: JsVal, env: RunEnv, complete: ClassifierRequest.ChatRequest -> Result<JsVal>,
                                 updateReply: map<int, JsVal> -> Result<PodioClient.RawReply>)
    requires EnsureAccessToken(env).Success? && env.item.Success?
    requires var files := ImagesFirst(PodioClient.GetItemFiles(env.item.value));
             files != [] && FoldFiles(files, itemId, FilesEnv(env)).Success?
             && FoldFiles(files, itemId, FilesEnv(env)).value.images == [] && FoldFiles(files, itemId, FilesEnv(env)).value.texts == []
    requires HasOpenAi(env)
    ensures RunSpec(itemId, env).outcome == NoUsableInputs
    ensures RunSpec(itemId, env.(complete := complete, updateReply := updateReply)) == RunSpec(itemId, env)
  {
    assert FilesEnv(env.(complete := complete, updateReply := updateReply)) == FilesEnv(env);
  }

  /** A run that gets past the files without an API key throws, whatever it gathered. */
  lemma MissingKeyThrows(itemId: JsVal, env: RunEnv)
    requires EnsureAccessToken(env).Success? && env.item.Success?
    requires var files := ImagesFirst(PodioClient.GetItemFiles(env.item.value));
             files != [] && FoldFiles(files, itemId, FilesEnv(env)).Success?
    requires !HasOpenAi(env)
    ensures RunSpec(itemId, env).outcome == Threw("Missing OPENAI_API_KEY")
  {
  }

  /** A completed run wrote exactly the nine text fields, rendered from the classification. */
  lemma WrittenOnlyTextFields(itemId: JsVal, env: RunEnv)
    requires RunSpec(itemId, env).outcome.Written?
    ensures RunSpec(itemId, env).outcome.values.Keys == TEXT_FIELDS
    ensures exists result :: BuildValues(result) == Success(RunSpec(itemId, env).outcome.values)
  {
    var files := ImagesFirst(PodioClient.GetItemFiles(env.item.value));
    var a := FoldFiles(files, itemId, FilesEnv(env)).value;
    var result := ClassifierRequest.ClassifyInputs(Some(a.images), Some(a.texts), env.complete, env.parse).value;
    PayloadFields(result);
  }

}
