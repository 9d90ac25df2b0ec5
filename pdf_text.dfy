/**
 * Text extraction from a PDF: the text items of the first pages, read until
 * enough characters are gathered, with whitespace runs collapsed, trimmed,
 * and truncated with a marker.
 */
module PdfText {
  import opened Wrappers
  import opened Js

  const DEFAULT_MAX_CHARS: int := 20000
  const DEFAULT_MAX_PAGES: int := 3
  const DEFAULT_TIMEOUT_MS: int := 10000
  const TRUNCATION_MARKER: string := " ...(truncated)..."

  /** The options object; an absent (undefined) option takes its default. */
  datatype PdfOptions = PdfOptions(maxChars: Option<int>, maxPages: Option<int>, timeoutMs: Option<int>)

  function OrDefault(o: Option<int>, d: int): int
  {
    if o.Some? then o.value else d
  }

  datatype Settings = Settings(maxChars: int, maxPages: int, timeoutMs: int)

  function SettingsOf(opts: PdfOptions): Settings
  {
    Settings(OrDefault(opts.maxChars, DEFAULT_MAX_CHARS), OrDefault(opts.maxPages, DEFAULT_MAX_PAGES),
             OrDefault(opts.timeoutMs, DEFAULT_TIMEOUT_MS))
  }

  /** Without options the limits are 20000 characters, 3 pages and 10 seconds. */
  lemma DefaultSettings()
    ensures SettingsOf(PdfOptions(None, None, None)) == Settings(20000, 3, 10000)
  {
  }

  /** A loaded document: the text-content items of each page, page 1 first. */
  datatype PdfDoc = PdfDoc(pages: seq<seq<JsVal>>)

  /** `Math.min(pdf.numPages, Math.max(1, maxPages))` */
  function PageCount(numPages: nat, maxPages: int): (n: nat)
    ensures n <= numPages
    ensures numPages >= 1 ==> n >= 1
    ensures maxPages >= 1 ==> n <= maxPages
    ensures n <= (if maxPages > 1 then maxPages else 1)
    // the count is one of the two bounds, so it is the smaller of them
    ensures n == numPages || n == (if maxPages > 1 then maxPages else 1)
  {
    var m := if maxPages > 1 then maxPages else 1;
    if numPages < m then numPages else m
  }

  /** `typeof it?.str === 'string' ? it.str : (it?.text ?? '')`, as `join` renders it. */
  function ItemString(it: JsVal): string
  {
    var s := Get(it, "str");
    if s.Str? then s.s else ToStr(Coalesce(Get(it, "text"), Str("")))
  }

  /** One page's items joined by a space. */
  function PageText(items: seq<JsVal>): string
  {
    JoinStrings(seq(|items|, i requires 0 <= i < |items| => ItemString(items[i])), " ")
  }

  /** The text gathered from the first `k` pages: each page's text followed by a newline. */
  function Prefix(pages: seq<seq<JsVal>>, k: nat): (r: string)
    requires k <= |pages|
    ensures |r| >= k
  {
    if k == 0 then "" else Prefix(pages, k - 1) + PageText(pages[k - 1]) + "\n"
  }

  /**
   * `read` pages were gathered: no more than `count`, every earlier prefix
   * was still below `bound` (so reading went on), and reading stopped either
   * at the last page or once the text reached `bound`.
   */
  predicate ReadUntil(pages: seq<seq<JsVal>>, count: nat, bound: int, read: nat)
    requires count <= |pages|
  {
    && read <= count
    && (forall j :: 0 <= j < read ==> |Prefix(pages, j)| < bound)
    && (read == count || |Prefix(pages, read)| >= bound)
  }

  /** The stopping rule determines the number of pages read. */
  lemma ReadUntilUnique(pages: seq<seq<JsVal>>, count: nat, bound: int, k1: nat, k2: nat)
    requires count <= |pages|
    requires ReadUntil(pages, count, bound, k1) && ReadUntil(pages, count, bound, k2)
    ensures k1 == k2
  {
  }

  /** The page loop: pages 1..read are visited, and none after the text reaches `bound`. */
  method GatherPages(pages: seq<seq<JsVal>>, count: nat, bound: int) returns (text: string, read: nat)
    requires count <= |pages|
    ensures ReadUntil(pages, count, bound, read)
    ensures text == Prefix(pages, read)
  {
    text := "";
    var p := 1;
    while p <= count && |text| < bound
      invariant 1 <= p <= count + 1
      invariant text == Prefix(pages, p - 1)
      invariant forall j :: 0 <= j < p - 1 ==> |Prefix(pages, j)| < bound
      decreases count + 1 - p
    {
      text := text + PageText(pages[p - 1]) + "\n";
      p := p + 1;
    }
    read := p - 1;
  }

  // ---------------------------------------------------------------------------
  // Whitespace normalisation: `text.replace(/\s+/g, ' ').trim()`
  // ---------------------------------------------------------------------------

  /** Every maximal run of whitespace replaced by one space. */
  function Collapse(s: string): (r: string)
    decreases |s|
  {
    if s == [] then []
    else if IsSpace(s[0]) then " " + Collapse(s[LeadingSpaces(s)..])
    else [s[0]] + Collapse(s[1..])
  }

  /** The characters of `s` that are not whitespace, in order. */
  function NonSpaces(s: string): string
    decreases |s|
  {
    if s == [] then [] else (if IsSpace(s[0]) then [] else [s[0]]) + NonSpaces(s[1..])
  }

  /** Whitespace appears only as single ' ' characters. */
  predicate SingleSpaced(s: string)
  {
    forall i :: 0 <= i < |s| && IsSpace(s[i]) ==> s[i] == ' ' && (i + 1 < |s| ==> !IsSpace(s[i + 1]))
  }

  function Normalize(s: string): string
  {
    Trim(Collapse(s))
  }

  lemma CollapseHead(s: string)
    requires s != []
    ensures Collapse(s) != []
    ensures Collapse(s)[0] == if IsSpace(s[0]) then ' ' else s[0]
  {
  }

  lemma {:induction false} CollapseSingleSpaced(s: string)
    ensures SingleSpaced(Collapse(s))
    decreases |s|
  {
    if s != [] {
      var r := Collapse(s);
      if IsSpace(s[0]) {
        var t := s[LeadingSpaces(s)..];
        CollapseSingleSpaced(t);
        if t != [] {
          assert !IsSpace(t[0]);
          CollapseHead(t);
        }
        assert forall i :: 1 <= i < |r| ==> r[i] == Collapse(t)[i - 1];
      } else {
        CollapseSingleSpaced(s[1..]);
        assert forall i :: 1 <= i < |r| ==> r[i] == Collapse(s[1..])[i - 1];
      }
    }
  }

  lemma {:induction false} NonSpacesAppend(a: string, b: string)
    ensures NonSpaces(a + b) == NonSpaces(a) + NonSpaces(b)
    decreases |a|
  {
    if a != [] {
      assert (a + b)[0] == a[0];
      assert (a + b)[1..] == a[1..] + b;
      NonSpacesAppend(a[1..], b);
    } else {
      assert a + b == b;
    }
  }

  lemma {:induction false} NonSpacesBlank(s: string)
    requires forall i :: 0 <= i < |s| ==> IsSpace(s[i])
    ensures NonSpaces(s) == []
    decreases |s|
  {
    if s != [] {
      NonSpacesBlank(s[1..]);
    }
  }

  /** Collapsing whitespace keeps every other character, in order. */
  lemma {:induction false} CollapseKeepsContent(s: string)
    ensures NonSpaces(Collapse(s)) == NonSpaces(s)
    decreases |s|
  {
    if s != [] {
      if IsSpace(s[0]) {
        var k := LeadingSpaces(s);
        var t := s[k..];
        CollapseKeepsContent(t);
        NonSpacesAppend(" ", Collapse(t));
        assert s == s[..k] + t;
        NonSpacesAppend(s[..k], t);
        NonSpacesBlank(s[..k]);
      } else {
        CollapseKeepsContent(s[1..]);
        NonSpacesAppend([s[0]], Collapse(s[1..]));
      }
    }
  }

  /** Trimming removes only whitespace. */
  lemma TrimKeepsContent(s: string)
    ensures NonSpaces(Trim(s)) == NonSpaces(s)
  {
    TrimIsSlice(s);
    var a := LeadingSpaces(s);
    var r := Trim(s);
    var b := a + |r|;
    var p, q := s[..a], s[b..];
    assert r == s[a..b];
    assert s == p + (r + q);
    forall i | 0 <= i < |q|
      ensures IsSpace(q[i])
    {
      assert q[i] == s[b + i];
    }
    NonSpacesAppend(p, r + q);
    NonSpacesAppend(r, q);
    NonSpacesBlank(p);
    NonSpacesBlank(q);
  }

  /**
   * The normalised text has no leading or trailing whitespace, no run of
   * two whitespace characters, only ' ' as whitespace, and the same
   * non-whitespace characters as the input, in order.
   */
  lemma NormalizeSpec(s: string)
    ensures var r := Normalize(s);
            && (r == [] || (!IsSpace(r[0]) && !IsSpace(r[|r| - 1])))
            && SingleSpaced(r)
            && NonSpaces(r) == NonSpaces(s)
  {
    var c := Collapse(s);
    CollapseSingleSpaced(s);
    CollapseKeepsContent(s);
    TrimKeepsContent(c);
    TrimIsSlice(c);
    var a := LeadingSpaces(c);
    SingleSpacedSlice(c, a, a + |Trim(c)|);
  }

  lemma SingleSpacedSlice(s: string, a: nat, b: nat)
    requires a <= b <= |s| && SingleSpaced(s)
    ensures SingleSpaced(s[a..b])
  {
    var r := s[a..b];
    assert forall i :: 0 <= i < |r| ==> r[i] == s[a + i];
  }

  /** `text.length > maxChars ? text.slice(0, maxChars) + marker : text` */
  function Truncate(text: string, maxChars: int): string
  {
    if |text| > maxChars then SliceTo(text, maxChars) + TRUNCATION_MARKER else text
  }

  /** Truncation keeps the first `maxChars` characters and bounds the length by `maxChars + 18`. */
  lemma TruncateSpec(text: string, maxChars: int)
    requires maxChars >= 0
    ensures |text| <= maxChars ==> Truncate(text, maxChars) == text
    ensures |text| > maxChars ==> Truncate(text, maxChars) == text[..maxChars] + " ...(truncated)..."
    ensures |Truncate(text, maxChars)| <= maxChars + 18
  {
  }

  /**
   * `extractPdfText(buffer, opts)`: `doc` is the loaded document (Failure
   * when loading fails), `timedOut` whether the timer fired first.
   */
  method ExtractPdfText(doc: Result<PdfDoc>, opts: PdfOptions, timedOut: bool) returns (r: Result<string>, read: nat)
    ensures timedOut ==> r == Failure("pdf-timeout")
    ensures !timedOut && doc.Failure? ==> r == Failure(doc.message)
    ensures !timedOut && doc.Success? ==>
              var st := SettingsOf(opts);
              var pages := doc.value.pages;
              var count := PageCount(|pages|, st.maxPages);
              && ReadUntil(pages, count, st.maxChars + 1000, read)
              && r == Success(Truncate(Normalize(Prefix(pages, read)), st.maxChars))
  {
    read := 0;
    if timedOut {
      return Failure("pdf-timeout"), 0;
    }
    if doc.Failure? {
      return Failure(doc.message), 0;
    }
    var st := SettingsOf(opts);
    var pages := doc.value.pages;
    var text;
    text, read := GatherPages(pages, PageCount(|pages|, st.maxPages), st.maxChars + 1000);
    text := Normalize(text);
    if |text| > st.maxChars {
      text := SliceTo(text, st.maxChars) + TRUNCATION_MARKER;
    }
    r := Success(text);
  }
}
