/** The classification request: instruction, extracted PDF texts and images as content blocks, and the reply's JSON. */
module ClassifierRequest {
  import opened Wrappers
  import opened Js

  /** A user-message content block: `{type:'text', text}` or `{type:'image_url', image_url:{url}}`. */
  datatype Block = TextBlock(text: string) | ImageBlock(url: string)

  const INSTRUCTION: string :=
    "Analiza el material adjunto (imágenes y/o texto de PDF) y devuelve SOLO JSON válido con: nombre_corto, descripcion, requ_id, fecha (YYYY-MM-DD), fraccion, justificacion, arbol (array de strings), alternativas (array de {fraccion,motivo}), dudas_cliente, regulacion, notas_clasificador."
  const SYSTEM_PROMPT: string := "Eres un clasificador aduanal experto en TIGIE. Responde SOLO en JSON válido."
  const MODEL: string := "gpt-4o"
  const TEMPERATURE: int := 0

  /** A response format's JSON schema: its name, its required keys, and its string and array properties. */
  datatype Schema = Schema(name: string, required: seq<string>, stringProperties: seq<string>,
                           arrayProperties: seq<string>)

  /** The schema `clasificacion_tigie` the replies must follow. */
  const SCHEMA: Schema := Schema(
    "clasificacion_tigie",
    ["fraccion", "justificacion"],
    ["nombre_corto", "descripcion", "requ_id", "fecha", "fraccion", "justificacion",
     "dudas_cliente", "regulacion", "notas_clasificador"],
    ["arbol", "alternativas"])

  /** What `chat.completions.create` is given: model, temperature, response schema, system prompt and user content. */
  datatype ChatRequest = ChatRequest(model: string, temperature: int, schema: Schema, system: string,
                                     content: seq<Block>)

  /** `t && t.trim()`: the text has a non-whitespace character. */
  predicate NonBlank(t: string)
  {
    HasNonSpace(t)
  }

  /** The test is the one the source writes: the trimmed text is non-empty. */
  lemma NonBlankIsTrimmedNonEmpty(t: string)
    ensures NonBlank(t) <==> Trim(t) != ""
  {
    HasNonSpaceTrim(t);
  }

  /** The label of the text of the PDF at (zero-based) position `i`. */
  function PdfBlockText(i: nat, t: string): string
  {
    "PDF_" + NatToString(i + 1) + " (texto extraído):\n" + t
  }

  /** The positions of the non-blank texts, in order. */
  function NonBlankIndices(texts: seq<string>): (r: seq<nat>)
    ensures forall k :: 0 <= k < |r| ==> r[k] < |texts|
    decreases |texts|
  {
    if texts == [] then []
    else
      var n := |texts| - 1;
      NonBlankIndices(texts[..n]) + (if NonBlank(texts[n]) then [n] else [])
  }

  predicate StrictlyIncreasing(r: seq<nat>)
  {
    forall a, b :: 0 <= a < b < |r| ==> r[a] < r[b]
  }

  /** The positions are strictly increasing. */
  lemma {:induction false} NonBlankIndicesIncreasing(texts: seq<string>)
    ensures StrictlyIncreasing(NonBlankIndices(texts))
    decreases |texts|
  {
    if texts != [] {
      var n := |texts| - 1;
      var r0 := NonBlankIndices(texts[..n]);
      NonBlankIndicesIncreasing(texts[..n]);
      assert StrictlyIncreasing(r0);
      var r := NonBlankIndices(texts);
      assert r == r0 + if NonBlank(texts[n]) then [n] else [];
      forall a, b | 0 <= a < b < |r|
        ensures r[a] < r[b]
      {
        if b >= |r0| {
          assert r[b] == n && r[a] == r0[a] && r0[a] < n;
        } else {
          assert r[b] == r0[b] && r[a] == r0[a] && r0[a] < r0[b];
        }
      }
    }
  }

  /** `r` lists exactly the positions of the non-blank texts. */
  predicate ListsNonBlank(texts: seq<string>, r: seq<nat>)
  {
    forall i :: 0 <= i < |texts| ==> (i in r <==> NonBlank(texts[i]))
  }

  /** A position is listed exactly when its text is non-blank. */
  lemma {:induction false} NonBlankIndicesMembers(texts: seq<string>)
    ensures ListsNonBlank(texts, NonBlankIndices(texts))
    decreases |texts|
  {
    if texts != [] {
      var n := |texts| - 1;
      var p := texts[..n];
      var r0 := NonBlankIndices(p);
      NonBlankIndicesMembers(p);
      assert ListsNonBlank(p, r0);
      var tail: seq<nat> := if NonBlank(texts[n]) then [n] else [];
      var r := NonBlankIndices(texts);
      assert r == r0 + tail;
      assert n !in r0;
      forall i | 0 <= i < |texts|
        ensures i in r <==> NonBlank(texts[i])
      {
        assert i in r <==> i in r0 || i in tail;
        if i < n {
          assert p[i] == texts[i];
          assert i !in tail;
        }
      }
    }
  }

  /** The text blocks for the texts at positions `idx`. */
  function TextBlocks(texts: seq<string>, idx: seq<nat>): seq<Block>
    requires forall k :: 0 <= k < |idx| ==> idx[k] < |texts|
  {
    seq(|idx|, k requires 0 <= k < |idx| => TextBlock(PdfBlockText(idx[k], texts[idx[k]])))
  }

  function ImageBlocks(urls: seq<string>): seq<Block>
  {
    seq(|urls|, k requires 0 <= k < |urls| => ImageBlock(urls[k]))
  }

  /** The blocks that follow the instruction: one per non-blank text, then one per image URL. */
  function Inputs(urls: seq<string>, texts: seq<string>): seq<Block>
  {
    TextBlocks(texts, NonBlankIndices(texts)) + ImageBlocks(urls)
  }

  /** The user content: the instruction, then the inputs. */
  function Content(urls: seq<string>, texts: seq<string>): seq<Block>
  {
    [TextBlock(INSTRUCTION)] + Inputs(urls, texts)
  }

  /** `{ imageUrls = [], texts = [] }` */
  function OrEmpty(o: Option<seq<string>>): seq<string>
  {
    if o.Some? then o.value else []
  }

  /** One more text considered: a block is added exactly when it is non-blank. */
  lemma TextStep(ts: seq<string>, i: nat)
    requires i < |ts|
    ensures TextBlocks(ts, NonBlankIndices(ts[..i + 1]))
            == TextBlocks(ts, NonBlankIndices(ts[..i])) + (if NonBlank(ts[i]) then [TextBlock(PdfBlockText(i, ts[i]))] else [])
  {
    assert ts[..i + 1][..i] == ts[..i];
    var idx := NonBlankIndices(ts[..i]);
    if NonBlank(ts[i]) {
      assert TextBlocks(ts, idx + [i]) == TextBlocks(ts, idx) + [TextBlock(PdfBlockText(i, ts[i]))];
    }
  }

  lemma ImageStep(urls: seq<string>, j: nat)
    requires j < |urls|
    ensures ImageBlocks(urls[..j + 1]) == ImageBlocks(urls[..j]) + [ImageBlock(urls[j])]
  {
  }

  /** The two `forEach` loops that fill `content`. */
  method AppendInputs(content0: seq<Block>, urls: seq<string>, ts: seq<string>) returns (content: seq<Block>)
    ensures content == content0 + Inputs(urls, ts)
  {
    content := content0;
    for i := 0 to |ts|
      invariant content == content0 + TextBlocks(ts, NonBlankIndices(ts[..i]))
    {
      TextStep(ts, i);
      if NonBlank(ts[i]) {
        content := content + [TextBlock(PdfBlockText(i, ts[i]))];
      }
    }
    assert ts[..|ts|] == ts;
    ghost var prefix := content;
    for j := 0 to |urls|
      invariant content == prefix + ImageBlocks(urls[..j])
    {
      ImageStep(urls, j);
      content := content + [ImageBlock(urls[j])];
    }
    assert urls[..|urls|] == urls;
  }

  /** `content` starts with the instruction and then receives the inputs. */
  method BuildContent(imageUrls: Option<seq<string>>, texts: Option<seq<string>>) returns (content: seq<Block>)
    ensures content == Content(OrEmpty(imageUrls), OrEmpty(texts))
  {
    content := AppendInputs([TextBlock(INSTRUCTION)], OrEmpty(imageUrls), OrEmpty(texts));
  }

  /**
   * The labelled non-blank texts come first, each with its original
   * position, then every image URL in order; the count is the non-blank
   * texts plus the URLs, and only the image URLs become image blocks.
   */
  lemma InputsShape(urls: seq<string>, texts: seq<string>)
    ensures var b := Inputs(urls, texts);
            var idx := NonBlankIndices(texts);
            && |b| == |idx| + |urls|
            && (forall k :: 0 <= k < |idx| ==> b[k] == TextBlock(PdfBlockText(idx[k], texts[idx[k]])))
            && (forall k :: 0 <= k < |urls| ==> b[|idx| + k] == ImageBlock(urls[k]))
  {
    var idx := NonBlankIndices(texts);
    assert Inputs(urls, texts) == TextBlocks(texts, idx) + ImageBlocks(urls);
    BlocksShape(texts, idx, urls);
  }

  lemma BlocksShape(texts: seq<string>, idx: seq<nat>, urls: seq<string>)
    requires forall k :: 0 <= k < |idx| ==> idx[k] < |texts|
    ensures var b := TextBlocks(texts, idx) + ImageBlocks(urls);
            && |b| == |idx| + |urls|
            && (forall k :: 0 <= k < |idx| ==> b[k] == TextBlock(PdfBlockText(idx[k], texts[idx[k]])))
            && (forall k :: 0 <= k < |urls| ==> b[|idx| + k] == ImageBlock(urls[k]))
  {
    var t := TextBlocks(texts, idx);
    var im := ImageBlocks(urls);
    var b := t + im;
    TextBlocksAt(texts, idx);
    forall k | 0 <= k < |idx|
      ensures b[k] == TextBlock(PdfBlockText(idx[k], texts[idx[k]]))
    {
      assert b[k] == t[k];
    }
    forall k | 0 <= k < |urls|
      ensures b[|idx| + k] == ImageBlock(urls[k])
    {
      assert b[|idx| + k] == im[k];
    }
  }

  lemma TextBlocksAt(texts: seq<string>, idx: seq<nat>)
    requires forall k :: 0 <= k < |idx| ==> idx[k] < |texts|
    ensures |TextBlocks(texts, idx)| == |idx|
    ensures forall k :: 0 <= k < |idx| ==> TextBlocks(texts, idx)[k] == TextBlock(PdfBlockText(idx[k], texts[idx[k]]))
  {
  }

  lemma {:induction false} NoNonBlankIndices(texts: seq<string>)
    requires forall i :: 0 <= i < |texts| ==> !NonBlank(texts[i])
    ensures NonBlankIndices(texts) == []
    decreases |texts|
  {
    if texts != [] {
      var n := |texts| - 1;
      assert forall i :: 0 <= i < n ==> texts[..n][i] == texts[i];
      NoNonBlankIndices(texts[..n]);
    }
  }

  /** Blank texts add no block: with only blank texts the inputs are the image blocks alone. */
  lemma BlankTextsAddNothing(urls: seq<string>, texts: seq<string>)
    requires forall i :: 0 <= i < |texts| ==> !NonBlank(texts[i])
    ensures Inputs(urls, texts) == ImageBlocks(urls)
  {
    NoNonBlankIndices(texts);
  }

  /** `resp?.choices?.[0]?.message?.content ?? '{}'` */
  function ResponseText(resp: JsVal): JsVal
  {
    Coalesce(Get(Get(At(Get(resp, "choices"), 0), "message"), "content"), Str("{}"))
  }

  /** A reply without choices, message or content yields `{}`. */
  lemma MissingContentDefaults(resp: JsVal)
    requires !Get(resp, "choices").Arr? || Get(resp, "choices").elems == []
    requires !Get(resp, "choices").Str? && !Get(resp, "choices").Obj?
    ensures ResponseText(resp) == Str("{}")
  {
  }

  /** The request `classifyInputs` sends for the given images and texts. */
  function Request(urls: seq<string>, texts: seq<string>): ChatRequest
  {
    ChatRequest(MODEL, TEMPERATURE, SCHEMA, SYSTEM_PROMPT, Content(urls, texts))
  }

  /**
   * Every request asks for `clasificacion_tigie`, which requires exactly
   * `fraccion` and `justificacion`, both declared as strings, from `gpt-4o`
   * at temperature 0, and carries the built content.
   */
  lemma RequestSchemaRequiresExactlyTwo(urls: seq<string>, texts: seq<string>)
    ensures var q := Request(urls, texts);
            && q.model == "gpt-4o" && q.temperature == 0 && q.content == Content(urls, texts)
            && q.schema.name == "clasificacion_tigie"
            && q.schema.required == ["fraccion", "justificacion"]
            && forall k :: k in q.schema.required ==> k in q.schema.stringProperties && k !in q.schema.arrayProperties
  {
  }

  /**
   * `classifyInputs({imageUrls, texts}, apiKey)`: `complete` is the chat
   * completion for a request (a Failure when it throws); `parse` is
   * `JSON.parse` of the reply text.
   */
  function ClassifyInputs(imageUrls: Option<seq<string>>, texts: Option<seq<string>>,
                          complete: ChatRequest -> Result<JsVal>, parse: string -> Result<JsVal>): Result<JsVal>
  {
    var resp := complete(Request(OrEmpty(imageUrls), OrEmpty(texts)));
    if resp.Failure? then Failure(resp.message) else parse(ToStr(ResponseText(resp.value)))
  }

  /** The classifier sees nothing but the request: two completions that answer it alike give the same result. */
  lemma OnlyTheRequestMatters(imageUrls: Option<seq<string>>, texts: Option<seq<string>>,
                              c1: ChatRequest -> Result<JsVal>, c2: ChatRequest -> Result<JsVal>,
                              parse: string -> Result<JsVal>)
    requires c1(Request(OrEmpty(imageUrls), OrEmpty(texts))) == c2(Request(OrEmpty(imageUrls), OrEmpty(texts)))
    ensures ClassifyInputs(imageUrls, texts, c1, parse) == ClassifyInputs(imageUrls, texts, c2, parse)
  {
  }

  /** Blank texts change nothing in the request: classifying with them is classifying with no texts. */
  lemma BlankTextsSendNothingMore(imageUrls: Option<seq<string>>, texts: seq<string>,
                                  complete: ChatRequest -> Result<JsVal>, parse: string -> Result<JsVal>)
    requires forall i :: 0 <= i < |texts| ==> !NonBlank(texts[i])
    ensures ClassifyInputs(imageUrls, Some(texts), complete, parse) == ClassifyInputs(imageUrls, None, complete, parse)
  {
    BlankTextsAddNothing(OrEmpty(imageUrls), texts);
    BlankTextsAddNothing(OrEmpty(imageUrls), []);
  }
}
