/**
 * A model of the JavaScript values that reach the handlers (parsed JSON bodies,
 * query and header values), with the operators the source applies to them:
 * truthiness, `||`, `??`, property reads and `String(...)`.
 */
module Js {
  import opened Wrappers

  /** A JSON-like value; numbers are integers in this model. */
  datatype JsVal =
    | Undefined
    | Null
    | Bool(b: bool)
    | Num(n: int)
    | Str(s: string)
    | Arr(elems: seq<JsVal>)
    | Obj(props: map<string, JsVal>)

  /** JavaScript truthiness: `undefined`, `null`, `false`, `0` and `""` are falsy. */
  predicate Truthy(v: JsVal)
  {
    match v
    case Undefined => false
    case Null => false
    case Bool(b) => b
    case Num(n) => n != 0
    case Str(s) => s != ""
    case Arr(_) => true
    case Obj(_) => true
  }

  predicate Nullish(v: JsVal)
  {
    v.Undefined? || v.Null?
  }

  /** `a || b` */
  function Or(a: JsVal, b: JsVal): (r: JsVal)
    ensures Truthy(a) ==> r == a
    ensures !Truthy(a) ==> r == b
  {
    if Truthy(a) then a else b
  }

  /** `a ?? b` */
  function Coalesce(a: JsVal, b: JsVal): (r: JsVal)
    ensures Nullish(a) ==> r == b
    ensures !Nullish(a) ==> r == a
  {
    if Nullish(a) then b else a
  }

  /**
   * `v?.k`: the own property `k` of an object; every other value (including
   * `null` and `undefined`, thanks to optional chaining) yields `undefined`.
   * Array and string properties such as `length` are not modelled.
   */
  function Get(v: JsVal, k: string): (r: JsVal)
    ensures !v.Obj? ==> r == Undefined
    ensures v.Obj? && k !in v.props ==> r == Undefined
    ensures v.Obj? && k in v.props ==> r == v.props[k]
  {
    match v
    case Obj(m) => if k in m then m[k] else Undefined
    case _ => Undefined
  }

  /** V8's message for reading the property `k` of a nullish `v`. */
  function NullishReadMessage(v: JsVal, k: string): string
  {
    "Cannot read properties of " + (if v.Null? then "null" else "undefined") + " (reading '" + k + "')"
  }

  /** `String(e)` of a TypeError whose message is `msg`. */
  function TypeErrorText(msg: string): string
  {
    "TypeError: " + msg
  }

  /**
   * `v.k` without optional chaining: reading a property of `null`/`undefined`
   * throws a TypeError, whose message is the Failure's.
   */
  function GetStrict(v: JsVal, k: string): (r: Result<JsVal>)
    ensures r.Failure? <==> Nullish(v)
    ensures r.Failure? ==> r.message == NullishReadMessage(v, k)
    ensures r.Success? ==> r.value == Get(v, k)
  {
    if Nullish(v) then Failure(NullishReadMessage(v, k))
    else Success(Get(v, k))
  }

  /** `v?.[i]`: an array element, a string's character, an object's property named by the digits of `i`. */
  function At(v: JsVal, i: nat): JsVal
  {
    match v
    case Arr(es) => if i < |es| then es[i] else Undefined
    case Str(s) => if i < |s| then Str([s[i]]) else Undefined
    case Obj(m) => Get(v, NatToString(i))
    case _ => Undefined
  }

  /** An object literal with the given properties. */
  function Object(props: map<string, JsVal>): JsVal
  {
    Obj(props)
  }

  // ---------------------------------------------------------------------------
  // String(...) and template-literal conversion
  // ---------------------------------------------------------------------------

  function DigitChar(d: nat): char
    requires d < 10
  {
    ('0' as int + d) as char
  }

  /** Decimal digits of a natural number, most significant first, without leading zeros. */
  function NatToString(n: nat): (r: string)
    ensures |r| >= 1
    ensures forall i :: 0 <= i < |r| ==> '0' <= r[i] <= '9'
    decreases n
  {
    if n < 10 then [DigitChar(n)] else NatToString(n / 10) + [DigitChar(n % 10)]
  }

  function IntToString(n: int): (r: string)
    ensures n >= 0 ==> r == NatToString(n)
    ensures n < 0 ==> r == "-" + NatToString(-n)
  {
    if n >= 0 then NatToString(n) else "-" + NatToString(-n)
  }

  /** `String(v)`; an array is its elements joined with "," (nullish elements become ""). */
  function ToStr(v: JsVal): string
  {
    match v
    case Undefined => "undefined"
    case Null => "null"
    case Bool(b) => if b then "true" else "false"
    case Num(n) => IntToString(n)
    case Str(s) => s
    case Arr(es) =>
      JoinStrings(seq(|es|, i requires 0 <= i < |es| => if Nullish(es[i]) then "" else ToStr(es[i])), ",")
    case Obj(_) => "[object Object]"
  }

  /**
   * Whether `String(v)`, or a template literal holding `v`, throws for a
   * parsed JSON value. An object with an own `toString` property has a
   * non-callable one (a JSON value is never a function) and the inherited
   * `valueOf` returns the object itself, so no primitive is found; an array
   * is converted by joining its elements, so it throws when one of them does.
   */
  predicate ToStrThrows(v: JsVal)
  {
    match v
    case Arr(es) => exists i :: 0 <= i < |es| && ToStrThrows(es[i])
    case Obj(m) => "toString" in m
    case _ => false
  }

  /** `String(v)` with its TypeError: a Failure exactly when `ToStrThrows(v)`, else the text of `ToStr`. */
  function ToStrChecked(v: JsVal): (r: Result<string>)
    ensures r.Success? <==> !ToStrThrows(v)
    ensures r.Success? ==> r.value == ToStr(v)
    ensures r.Failure? ==> r.message == "Cannot convert object to primitive value"
  {
    if ToStrThrows(v) then Failure("Cannot convert object to primitive value") else Success(ToStr(v))
  }

  /** Strings, numbers, booleans and nullish values always convert. */
  lemma PrimitivesConvert(v: JsVal)
    requires !v.Arr? && !v.Obj?
    ensures ToStrChecked(v) == Success(ToStr(v))
  {
  }

  // ---------------------------------------------------------------------------
  // Number(...)
  // ---------------------------------------------------------------------------

  /** A JavaScript number as this model has them: an integer, or NaN. */
  datatype JsNumber = Finite(n: int) | NaN

  /** `${x}` for a number. */
  function NumberText(x: JsNumber): string
  {
    if x.NaN? then "NaN" else IntToString(x.n)
  }

  predicate AllDigits(s: string)
  {
    forall i :: 0 <= i < |s| ==> '0' <= s[i] <= '9'
  }

  /** The value of a string of decimal digits; leading zeros are allowed. */
  function DigitsValue(s: string): nat
    requires AllDigits(s)
    decreases |s|
  {
    if s == [] then 0 else DigitsValue(s[..|s| - 1]) * 10 + (s[|s| - 1] as int - '0' as int)
  }

  /**
   * `Number(s)` for a string: surrounding whitespace is ignored, a blank
   * string is 0, an optionally signed run of decimal digits is its value,
   * and any other string is NaN in this model.
   */
  function StringToNumber(s: string): JsNumber
  {
    var t := Trim(s);
    if t == "" then Finite(0)
    else if AllDigits(t) then Finite(DigitsValue(t))
    else if (t[0] == '+' || t[0] == '-') && |t| > 1 && AllDigits(t[1..]) then
      var v: int := DigitsValue(t[1..]);
      Finite(if t[0] == '-' then -v else v)
    else NaN
  }

  /** `Number(v)`; an array goes through its string form, a plain object is NaN. */
  function ToNumber(v: JsVal): JsNumber
  {
    match v
    case Undefined => NaN
    case Null => Finite(0)
    case Bool(b) => Finite(if b then 1 else 0)
    case Num(n) => Finite(n)
    case Str(s) => StringToNumber(s)
    case Arr(_) => StringToNumber(ToStr(v))
    case Obj(_) => NaN
  }

  /** Reading back the decimal digits of a natural number gives the number. */
  lemma {:induction false} DigitsRoundTrip(n: nat)
    ensures AllDigits(NatToString(n)) && DigitsValue(NatToString(n)) == n
    decreases n
  {
    var s := NatToString(n);
    if n >= 10 {
      var m, d := n / 10, n % 10;
      DigitsRoundTrip(m);
      assert s[..|s| - 1] == NatToString(m);
      assert s[|s| - 1] as int - '0' as int == d;
      assert n == m * 10 + d;
    } else {
      assert s[..|s| - 1] == [];
    }
  }

  /** A leading zero does not change the value of a run of digits. */
  lemma {:induction false} LeadingZeroIgnored(s: string)
    requires AllDigits(s)
    ensures AllDigits("0" + s) && DigitsValue("0" + s) == DigitsValue(s)
    decreases |s|
  {
    var z := "0" + s;
    if s != [] {
      LeadingZeroIgnored(s[..|s| - 1]);
      assert z[..|z| - 1] == "0" + s[..|s| - 1];
    } else {
      assert z[..|z| - 1] == [];
    }
  }

  /**
   * `Number` reads a decimal string as its value, with or without a leading
   * zero: a stored id "0123" and the number 123 name the same item, and
   * `${...}` of either is "123".
   */
  lemma DecimalStringIsNumber(n: nat)
    ensures ToNumber(Str(NatToString(n))) == Finite(n) == ToNumber(Num(n))
    ensures ToNumber(Str("0" + NatToString(n))) == Finite(n)
    ensures NumberText(Finite(n)) == NatToString(n)
  {
    assert ToNumber(Num(n)) == Finite(n);
    var d := NatToString(n);
    DigitsRoundTrip(n);
    PaddedDigitsAreNumber(d);
  }

  /** A run of digits is read as its value, with or without a leading zero. */
  lemma PaddedDigitsAreNumber(d: string)
    requires AllDigits(d) && d != []
    ensures ToNumber(Str(d)) == Finite(DigitsValue(d))
    ensures ToNumber(Str("0" + d)) == Finite(DigitsValue(d))
  {
    LeadingZeroIgnored(d);
    DigitsAreNumber(d);
    DigitsAreNumber("0" + d);
  }

  /** A non-empty run of digits has no whitespace to trim and is read as its value. */
  lemma DigitsAreNumber(s: string)
    requires AllDigits(s) && s != []
    ensures StringToNumber(s) == Finite(DigitsValue(s))
  {
    assert '0' <= s[0] <= '9' && '0' <= s[|s| - 1] <= '9';
    assert !IsSpace(s[0]) && !IsSpace(s[|s| - 1]);
    assert Trim(s) == s;
  }

  /** `strs.join(sep)` for a list of strings. */
  function JoinStrings(strs: seq<string>, sep: string): string
  {
    if strs == [] then ""
    else if |strs| == 1 then strs[0]
    else strs[0] + sep + JoinStrings(strs[1..], sep)
  }

  /** `es.join(sep)`: nullish elements become "", the others `String(e)`. */
  function JoinValues(es: seq<JsVal>, sep: string): string
  {
    JoinStrings(seq(|es|, i requires 0 <= i < |es| => if Nullish(es[i]) then "" else ToStr(es[i])), sep)
  }

  /** `s.split(c)` for a one-character separator. */
  function SplitOn(s: string, c: char): (r: seq<string>)
    ensures |r| >= 1
    decreases |s|
  {
    if s == [] then [""]
    else
      var rest := SplitOn(s[1..], c);
      if s[0] == c then [""] + rest else [[s[0]] + rest[0]] + rest[1..]
  }

  /** Splitting a text on `c` that is not inside any of the joined pieces gives the pieces back. */
  lemma {:induction false} SplitJoin(strs: seq<string>, c: char)
    requires |strs| >= 1
    requires forall i :: 0 <= i < |strs| ==> c !in strs[i]
    ensures SplitOn(JoinStrings(strs, [c]), c) == strs
    decreases |strs|, |strs[0]|
  {
    if |strs| == 1 {
      SplitNoSep(strs[0], c);
    } else if strs[0] == [] {
      SplitJoin(strs[1..], c);
      assert JoinStrings(strs, [c]) == [c] + JoinStrings(strs[1..], [c]);
      assert [""] + strs[1..] == strs;
    } else {
      var s0 := strs[0];
      var shorter := [s0[1..]] + strs[1..];
      assert shorter[1..] == strs[1..];
      assert forall i :: 0 <= i < |shorter| ==> c !in shorter[i] by {
        assert forall x :: x in s0[1..] ==> x in s0;
      }
      SplitJoin(shorter, c);
      assert s0[0] in s0 && [s0[0]] + s0[1..] == s0;
      JoinHeadChar(s0[0], s0[1..], strs[1..], [c]);
      SplitHeadChar(s0[0], JoinStrings(shorter, [c]), c);
      assert [[s0[0]] + s0[1..]] + strs[1..] == strs;
    }
  }

  /** A first character of the first piece comes first in the joined text. */
  lemma JoinHeadChar(x: char, t: string, rest: seq<string>, sep: string)
    ensures JoinStrings([[x] + t] + rest, sep) == [x] + JoinStrings([t] + rest, sep)
  {
    assert ([[x] + t] + rest)[1..] == rest && ([t] + rest)[1..] == rest;
  }

  /** A first character that is not the separator joins the first piece. */
  lemma SplitHeadChar(x: char, s: string, c: char)
    requires x != c
    ensures SplitOn([x] + s, c) == [[x] + SplitOn(s, c)[0]] + SplitOn(s, c)[1..]
  {
    assert ([x] + s)[1..] == s;
  }

  /** A text without `c` splits into itself. */
  lemma {:induction false} SplitNoSep(s: string, c: char)
    requires c !in s
    ensures SplitOn(s, c) == [s]
    decreases |s|
  {
    if s != [] {
      assert forall x :: x in s[1..] ==> x in s;
      SplitNoSep(s[1..], c);
      assert [s[0]] + s[1..] == s;
    }
  }

  // ---------------------------------------------------------------------------
  // String helpers with JavaScript semantics
  // ---------------------------------------------------------------------------

  /** The characters matched by the regular expression class `\s` and removed by `trim()`. */
  predicate IsSpace(c: char)
  {
    c == ' ' || c == '\t' || c == '\n' || c == '\r' || c == '\U{B}' || c == '\U{C}'
    || c == '\U{A0}' || c == '\U{1680}' || ('\U{2000}' <= c <= '\U{200A}')
    || c == '\U{2028}' || c == '\U{2029}' || c == '\U{202F}' || c == '\U{205F}'
    || c == '\U{3000}' || c == '\U{FEFF}'
  }

  /** The number of whitespace characters at the start of `s`. */
  function LeadingSpaces(s: string): (k: nat)
    ensures k <= |s|
    ensures forall i :: 0 <= i < k ==> IsSpace(s[i])
    ensures k < |s| ==> !IsSpace(s[k])
  {
    if s != [] && IsSpace(s[0]) then 1 + LeadingSpaces(s[1..]) else 0
  }

  /** The number of whitespace characters at the end of `s`. */
  function TrailingSpaces(s: string): (k: nat)
    ensures k <= |s|
    ensures forall i :: |s| - k <= i < |s| ==> IsSpace(s[i])
    ensures k < |s| ==> !IsSpace(s[|s| - k - 1])
  {
    if s != [] && IsSpace(s[|s| - 1]) then 1 + TrailingSpaces(s[..|s| - 1]) else 0
  }

  /** `s.trim()` */
  function Trim(s: string): (r: string)
    ensures r == [] || (!IsSpace(r[0]) && !IsSpace(r[|r| - 1]))
    ensures |r| <= |s|
    ensures s == [] || (!IsSpace(s[0]) && !IsSpace(s[|s| - 1])) ==> r == s
  {
    var t := s[LeadingSpaces(s)..];
    t[..|t| - TrailingSpaces(t)]
  }

  /** `s.trim()` is empty exactly when `s` is blank. */
  lemma TrimBlank(s: string)
    ensures Trim(s) == [] <==> forall i :: 0 <= i < |s| ==> IsSpace(s[i])
  {
    var a := LeadingSpaces(s);
    var t := s[a..];
    assert a < |s| ==> t[0] == s[a];
  }

  /** Whether `s` has a character other than whitespace. */
  predicate HasNonSpace(s: string)
    decreases |s|
  {
    s != [] && (!IsSpace(s[0]) || HasNonSpace(s[1..]))
  }

  /** `s.trim()` is non-empty exactly when `s` has a non-whitespace character. */
  lemma {:induction false} HasNonSpaceTrim(s: string)
    ensures HasNonSpace(s) <==> Trim(s) != []
  {
    TrimBlank(s);
    HasNonSpaceAt(s);
  }

  lemma {:induction false} HasNonSpaceAt(s: string)
    ensures HasNonSpace(s) <==> exists i :: 0 <= i < |s| && !IsSpace(s[i])
    decreases |s|
  {
    if s != [] {
      HasNonSpaceAt(s[1..]);
      if !IsSpace(s[0]) {
        assert !IsSpace(s[0]);
      } else {
        if exists i :: 0 <= i < |s| && !IsSpace(s[i]) {
          var i :| 0 <= i < |s| && !IsSpace(s[i]);
          assert s[1..][i - 1] == s[i];
        }
        if HasNonSpace(s[1..]) {
          var i :| 0 <= i < |s| - 1 && !IsSpace(s[1..][i]);
          assert s[i + 1] == s[1..][i];
        }
      }
    }
  }

  /** `s.trim()` keeps only characters of `s`. */
  lemma TrimChars(s: string)
    ensures forall c :: c in Trim(s) ==> c in s
  {
    var t := s[LeadingSpaces(s)..];
    var r := t[..|t| - TrailingSpaces(t)];
    assert forall i :: 0 <= i < |r| ==> r[i] == s[LeadingSpaces(s) + i];
  }

  /** `r` is the slice of `s` that starts after its leading whitespace and is followed only by whitespace. */
  predicate SliceAfterSpaces(r: string, s: string)
  {
    var a := LeadingSpaces(s);
    && a + |r| <= |s|
    && r == s[a..a + |r|]
    && forall i :: a + |r| <= i < |s| ==> IsSpace(s[i])
  }

  /** `s.trim()` is the slice of `s` between its leading and its trailing whitespace. */
  lemma TrimIsSlice(s: string)
    ensures SliceAfterSpaces(Trim(s), s)
  {
    var a := LeadingSpaces(s);
    var t := s[a..];
    var b := TrailingSpaces(t);
    var r := Trim(s);
    assert r == t[..|t| - b];
    assert r == s[a..a + |r|] by {
      assert forall i :: 0 <= i < |r| ==> r[i] == s[a + i];
    }
    forall i | a + |r| <= i < |s|
      ensures IsSpace(s[i])
    {
      assert s[i] == t[i - a];
    }
  }

  predicate AllSpace(s: string)
  {
    forall i :: 0 <= i < |s| ==> IsSpace(s[i])
  }

  lemma {:induction false} LeadingPad(p: string, t: string)
    requires AllSpace(p)
    ensures LeadingSpaces(p + t) == |p| + LeadingSpaces(t)
    decreases |p|
  {
    if p != [] {
      assert (p + t)[0] == p[0];
      assert (p + t)[1..] == p[1..] + t;
      LeadingPad(p[1..], t);
    } else {
      assert p + t == t;
    }
  }

  lemma {:induction false} TrailingPad(t: string, q: string)
    requires AllSpace(q)
    ensures TrailingSpaces(t + q) == |q| + TrailingSpaces(t)
    decreases |q|
  {
    if q != [] {
      var x := t + q;
      assert x[|x| - 1] == q[|q| - 1];
      assert x[..|x| - 1] == t + q[..|q| - 1];
      TrailingPad(t, q[..|q| - 1]);
    } else {
      assert t + q == t;
    }
  }

  lemma {:induction false} LeadingSuffix(t: string, q: string)
    requires !AllSpace(t)
    ensures LeadingSpaces(t + q) == LeadingSpaces(t)
    decreases |t|
  {
    assert (t + q)[0] == t[0];
    if IsSpace(t[0]) {
      var i :| 0 <= i < |t| && !IsSpace(t[i]);
      assert t[1..][i - 1] == t[i];
      assert (t + q)[1..] == t[1..] + q;
      LeadingSuffix(t[1..], q);
    }
  }

  /** Whitespace around a string does not change its trimmed form. */
  lemma TrimPadded(p: string, t: string, q: string)
    requires AllSpace(p) && AllSpace(q)
    ensures Trim(p + t + q) == Trim(t)
  {
    if AllSpace(t) {
      BlankPadded(p, t, q);
      TrimBlank(p + t + q);
      TrimBlank(t);
    } else {
      assert p + t + q == p + (t + q);
      TrimPaddedNonBlank(p, t, q);
    }
  }

  lemma BlankPadded(p: string, t: string, q: string)
    requires AllSpace(p) && AllSpace(t) && AllSpace(q)
    ensures AllSpace(p + t + q)
  {
    var x := p + t + q;
    forall i | 0 <= i < |x|
      ensures IsSpace(x[i])
    {
      if i < |p| { assert x[i] == p[i]; }
      else if i < |p| + |t| { assert x[i] == t[i - |p|]; }
      else { assert x[i] == q[i - |p| - |t|]; }
    }
  }

  /** `Trim` once the leading whitespace `k` and the trailing whitespace `m` of the rest `v` are known. */
  lemma TrimOfSplit(x: string, k: nat, v: string, m: nat)
    requires LeadingSpaces(x) == k && v == x[k..] && TrailingSpaces(v) == m
    ensures Trim(x) == v[..|v| - m]
  {
  }

  lemma TrimPaddedNonBlank(p: string, t: string, q: string)
    requires AllSpace(p) && AllSpace(q) && !AllSpace(t)
    ensures Trim(p + (t + q)) == Trim(t)
  {
    var x := p + (t + q);
    var a := LeadingSpaces(t);
    var u := t[a..];
    var b := TrailingSpaces(u);
    PaddedSplit(p, t, q);
    SliceOfPadded(p, t, q, a);
    TrimOfSplit(x, |p| + a, u + q, |q| + b);
    PrefixOfPadded(u, q, b);
    TrimOfSplit(t, a, u, b);
    assert Trim(x) == u[..|u| - b] == Trim(t);
  }

  lemma SliceOfPadded(p: string, t: string, q: string, a: nat)
    requires a <= |t|
    ensures (p + (t + q))[|p| + a..] == t[a..] + q
  {
  }

  lemma PrefixOfPadded(u: string, q: string, b: nat)
    requires b <= |u|
    ensures (u + q)[..|u + q| - (|q| + b)] == u[..|u| - b]
  {
  }

  /** Where the leading and trailing whitespace of a padded non-blank string end. */
  lemma PaddedSplit(p: string, t: string, q: string)
    requires AllSpace(p) && AllSpace(q) && !AllSpace(t)
    ensures LeadingSpaces(p + (t + q)) == |p| + LeadingSpaces(t)
    ensures TrailingSpaces(t[LeadingSpaces(t)..] + q) == |q| + TrailingSpaces(t[LeadingSpaces(t)..])
  {
    PaddedLeading(p, t, q);
    TrailingPad(t[LeadingSpaces(t)..], q);
  }

  lemma PaddedLeading(p: string, t: string, q: string)
    requires AllSpace(p) && !AllSpace(t)
    ensures LeadingSpaces(p + (t + q)) == |p| + LeadingSpaces(t)
  {
    LeadingPad(p, t + q);
    LeadingSuffix(t, q);
  }

  lemma ToLowerConcat(a: string, b: string)
    ensures ToLower(a + b) == ToLower(a) + ToLower(b)
  {
  }

  lemma ToLowerIdempotent(s: string)
    ensures ToLower(ToLower(s)) == ToLower(s)
  {
  }

  /** Lower-casing leaves whitespace alone. */
  lemma ToLowerKeepsSpaces(p: string)
    requires AllSpace(p)
    ensures ToLower(p) == p
  {
  }

  function StartsWith(s: string, prefix: string): (r: bool)
    ensures r <==> |prefix| <= |s| && s[..|prefix|] == prefix
  {
    |prefix| <= |s| && s[..|prefix|] == prefix
  }

  /** `s.slice(0, end)` with JavaScript's clamping of a negative or too large `end`. */
  function SliceTo(s: string, end: int): (r: string)
    ensures 0 <= end <= |s| ==> r == s[..end]
    ensures end > |s| ==> r == s
    ensures end < 0 ==> r == s[..if |s| + end < 0 then 0 else |s| + end]
  {
    var e := if end < 0 then (if |s| + end < 0 then 0 else |s| + end) else if end > |s| then |s| else end;
    s[..e]
  }

  /** ASCII upper case to lower case; other characters are kept. */
  function LowerChar(c: char): (r: char)
    ensures !('A' <= r <= 'Z')
    ensures !('A' <= c <= 'Z') ==> r == c
  {
    if 'A' <= c <= 'Z' then (c as int - 'A' as int + 'a' as int) as char else c
  }

  /** `s.toLowerCase()` restricted to ASCII letters. */
  function ToLower(s: string): (r: string)
    ensures |r| == |s|
    ensures forall i :: 0 <= i < |s| ==> r[i] == LowerChar(s[i])
  {
    seq(|s|, i requires 0 <= i < |s| => LowerChar(s[i]))
  }

  /** Truthiness of an optional string (a header, a query parameter, a setting): present and non-empty. */
  predicate Present(o: Option<string>)
  {
    o.Some? && o.value != ""
  }

  /** An optional string as a JS value: `null` when absent. */
  function OptStr(o: Option<string>): (v: JsVal)
    ensures Truthy(v) <==> Present(o)
  {
    if o.Some? then Str(o.value) else Null
  }
}
