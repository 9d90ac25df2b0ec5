/** Object-storage keys for uploaded files and the content type they are stored with. */
module StorageKeys {
  import opened Wrappers
  import opened Js

  /** The characters `[a-zA-Z0-9._-]` that survive sanitisation. */
  predicate Allowed(c: char)
  {
    ('a' <= c <= 'z') || ('A' <= c <= 'Z') || ('0' <= c <= '9') || c == '.' || c == '_' || c == '-'
  }

  /** Length in UTF-16 code units, the JavaScript string length. */
  function Utf16Length(s: string): nat
    decreases |s|
  {
    if s == [] then 0 else (if s[0] as int > 0xFFFF then 2 else 1) + Utf16Length(s[1..])
  }

  /**
   * `replace(/[^a-zA-Z0-9._-]/g, '_')`: the pattern has no `u` flag, so it
   * matches UTF-16 code units and a character outside the BMP becomes two '_'.
   */
  function SanitizeChar(c: char): string
  {
    if Allowed(c) then [c] else if c as int > 0xFFFF then "__" else "_"
  }

  function Sanitize(s: string): string
    decreases |s|
  {
    if s == [] then [] else SanitizeChar(s[0]) + Sanitize(s[1..])
  }

  /** Sanitisation keeps the JavaScript length and leaves only allowed characters. */
  lemma SanitizeShape(s: string)
    ensures Utf16Length(Sanitize(s)) == Utf16Length(s)
    ensures forall i :: 0 <= i < |Sanitize(s)| ==> Allowed(Sanitize(s)[i])
  {
    SanitizeLength(s);
    SanitizeAllowed(s);
  }

  lemma {:induction false} SanitizeLength(s: string)
    ensures Utf16Length(Sanitize(s)) == Utf16Length(s)
    decreases |s|
  {
    if s != [] {
      SanitizeLength(s[1..]);
      Utf16Append(SanitizeChar(s[0]), Sanitize(s[1..]));
    }
  }

  lemma {:induction false} SanitizeAllowed(s: string)
    ensures forall i :: 0 <= i < |Sanitize(s)| ==> Allowed(Sanitize(s)[i])
    decreases |s|
  {
    if s != [] {
      SanitizeAllowed(s[1..]);
      var h := SanitizeChar(s[0]);
      var t := Sanitize(s[1..]);
      assert forall i :: |h| <= i < |h + t| ==> (h + t)[i] == t[i - |h|];
    }
  }

  lemma {:induction false} Utf16Append(a: string, b: string)
    ensures Utf16Length(a + b) == Utf16Length(a) + Utf16Length(b)
    decreases |a|
  {
    if a != [] {
      assert (a + b)[0] == a[0];
      assert (a + b)[1..] == a[1..] + b;
      Utf16Append(a[1..], b);
    } else {
      assert a + b == b;
    }
  }

  /** A name made only of allowed characters is left unchanged. */
  lemma {:induction false} SanitizeKeepsAllowed(s: string)
    requires forall i :: 0 <= i < |s| ==> Allowed(s[i])
    ensures Sanitize(s) == s
    decreases |s|
  {
    if s != [] {
      SanitizeKeepsAllowed(s[1..]);
      assert s == [s[0]] + s[1..];
    }
  }

  /** Sanitising twice is sanitising once. */
  lemma SanitizeIdempotent(s: string)
    ensures Sanitize(Sanitize(s)) == Sanitize(s)
  {
    SanitizeShape(s);
    SanitizeKeepsAllowed(Sanitize(s));
  }

  /** `file_${i}${ext}` where `ext = extname('')`, i.e. empty. */
  function FallbackName(i: int): string
  {
    "file_" + IntToString(i)
  }

  /** Node's message when `extname` is given a value that is not a string: here a truthy name. */
  function PathArgMessage(v: JsVal): string
  {
    "The \"path\" argument must be of type string. Received " +
    match v
    case Bool(b) => "type boolean (" + (if b then "true" else "false") + ")"
    case Num(n) => "type number (" + IntToString(n) + ")"
    case Arr(_) => "an instance of Array"
    case _ => "an instance of Object"
  }

  /**
   * `safe`: the sanitised file name, or the fallback name when the name is
   * falsy. Reading the name of a nullish file throws, and so does `extname`
   * of a truthy name that is not a string.
   */
  function SafeName(file: JsVal, i: int): (r: Result<string>)
    ensures r.Failure? <==> Nullish(file) || (Truthy(Get(file, "name")) && !Get(file, "name").Str?)
    ensures Nullish(file) ==> r == Failure(NullishReadMessage(file, "name"))
  {
    var name := GetStrict(file, "name");
    if name.Failure? then Failure(name.message)
    else if Truthy(name.value) && !name.value.Str? then Failure(PathArgMessage(name.value))
    else
      var n := Or(name.value, Str(FallbackName(i)));
      Success(Sanitize(n.s))
  }

  /**
   * `makeKey(itemId, file, i = 0)` at clock reading `now`:
   * `podio/${itemId}/${Date.now()}_${i}_${safe}`.
   */
  function MakeKey(itemId: JsVal, file: JsVal, i: Option<int>, now: int): Result<string>
  {
    var ord := if i.Some? then i.value else 0;
    var safe := SafeName(file, ord);
    if safe.Failure? then Failure(safe.message)
    else Success("podio/" + ToStr(itemId) + "/" + IntToString(now) + "_" + IntToString(ord) + "_" + safe.value)
  }

  /**
   * The key is the fixed prefix followed by the safe name, whose characters
   * are all allowed (so it adds no '/' to the path).
   */
  lemma MakeKeyShape(itemId: JsVal, file: JsVal, i: int, now: int)
    requires MakeKey(itemId, file, Some(i), now).Success?
    ensures var key := MakeKey(itemId, file, Some(i), now).value;
            var prefix := "podio/" + ToStr(itemId) + "/" + IntToString(now) + "_" + IntToString(i) + "_";
            var tail := key[|prefix|..];
            && StartsWith(key, prefix)
            && tail == SafeName(file, i).value
            && (forall j :: 0 <= j < |tail| ==> Allowed(tail[j]) && tail[j] != '/')
  {
    var name := Or(Get(file, "name"), Str(FallbackName(i)));
    SanitizeShape(name.s);
  }

  /** The ordinal defaults to 0. */
  lemma MakeKeyDefaultOrdinal(itemId: JsVal, file: JsVal, now: int)
    ensures MakeKey(itemId, file, None, now) == MakeKey(itemId, file, Some(0), now)
  {
  }

  /** A file without a (truthy) name is stored as `file_<i>`; a nullish file has no name to read. */
  lemma UnnamedFileFallback(file: JsVal, i: int)
    requires !Truthy(Get(file, "name"))
    ensures !Nullish(file) ==> SafeName(file, i) == Success("file_" + IntToString(i))
    ensures Nullish(file) ==> SafeName(file, i) == Failure(NullishReadMessage(file, "name"))
  {
    var n := IntToString(i);
    assert forall j :: 0 <= j < |n| ==> n[j] == '-' || '0' <= n[j] <= '9';
    if i < 0 {
      assert forall j :: 0 <= j < |n| ==> Allowed(n[j]);
    }
    SanitizeKeepsAllowed("file_" + n);
  }

  /**
   * `ensureContentType(file)`: a string `mimetype` is returned as is (even
   * ""); otherwise `guess` (the name-based lookup, given `file.name || ''`)
   * unless it is empty or absent, else "application/octet-stream".
   */
  function EnsureContentType(file: JsVal, guess: JsVal -> Option<string>): (r: string)
    ensures Get(file, "mimetype").Str? ==> r == Get(file, "mimetype").s
    ensures !Get(file, "mimetype").Str? && Present(guess(Or(Get(file, "name"), Str("")))) ==>
              r == guess(Or(Get(file, "name"), Str(""))).value
    ensures !Get(file, "mimetype").Str? && !Present(guess(Or(Get(file, "name"), Str("")))) ==>
              r == "application/octet-stream"
    ensures !Get(file, "mimetype").Str? ==> r != ""
  {
    var m := Get(file, "mimetype");
    if m.Str? then m.s
    else
      var g := guess(Or(Get(file, "name"), Str("")));
      if Present(g) then g.value else "application/octet-stream"
  }
}
