/**
 * Base64 with the standard alphabet and '=' padding (section 4 of RFC 4648),
 * as `buffer.toString('base64')` produces it, with a decoder to state the
 * round trip.
 */
module Base64 {
  import opened Wrappers
  import opened Http

  /** The character for a 6-bit value: A-Z, a-z, 0-9, '+', '/'. */
  function CharOf(k: nat): (c: char)
    requires k < 64
  {
    if k < 26 then ('A' as int + k) as char
    else if k < 52 then ('a' as int + k - 26) as char
    else if k < 62 then ('0' as int + k - 52) as char
    else if k == 62 then '+'
    else '/'
  }

  predicate InAlphabet(c: char)
  {
    'A' <= c <= 'Z' || 'a' <= c <= 'z' || '0' <= c <= '9' || c == '+' || c == '/'
  }

  /** The 6-bit value of an alphabet character. */
  function ValueOf(c: char): (k: nat)
    requires InAlphabet(c)
    ensures k < 64
  {
    if 'A' <= c <= 'Z' then c as int - 'A' as int
    else if 'a' <= c <= 'z' then c as int - 'a' as int + 26
    else if '0' <= c <= '9' then c as int - '0' as int + 52
    else if c == '+' then 62
    else 63
  }

  /** Every 6-bit value has its own alphabet character, which decodes back to it. */
  lemma CharOfValueOf(k: nat)
    requires k < 64
    ensures InAlphabet(CharOf(k)) && CharOf(k) != '='
    ensures ValueOf(CharOf(k)) == k
  {
  }

  /** Three bytes as four characters. */
  function Group3(b0: Byte, b1: Byte, b2: Byte): string
  {
    var x0, x1, x2 := b0 as int, b1 as int, b2 as int;
    [CharOf(x0 / 4), CharOf((x0 % 4) * 16 + x1 / 16), CharOf((x1 % 16) * 4 + x2 / 64), CharOf(x2 % 64)]
  }

  /** A final group of two bytes: three characters and one '='. */
  function Group2(b0: Byte, b1: Byte): string
  {
    var x0, x1 := b0 as int, b1 as int;
    [CharOf(x0 / 4), CharOf((x0 % 4) * 16 + x1 / 16), CharOf((x1 % 16) * 4), '=']
  }

  /** A final single byte: two characters and "==". */
  function Group1(b0: Byte): string
  {
    var x0 := b0 as int;
    [CharOf(x0 / 4), CharOf((x0 % 4) * 16), '=', '=']
  }

  function Encode(b: Bytes): (r: string)
    ensures b != [] ==> |r| >= 4
    decreases |b|
  {
    if |b| == 0 then ""
    else if |b| == 1 then Group1(b[0])
    else if |b| == 2 then Group2(b[0], b[1])
    else Group3(b[0], b[1], b[2]) + Encode(b[3..])
  }

  /** Every started group of three bytes becomes four characters. */
  lemma {:induction false} EncodeLength(b: Bytes)
    ensures |Encode(b)| == 4 * ((|b| + 2) / 3)
    decreases |b|
  {
    if |b| > 2 {
      EncodeLength(b[3..]);
      EncodeLengthStep(b);
    } else {
      EncodeLengthShort(b);
    }
  }

  lemma EncodeLengthStep(b: Bytes)
    requires |b| > 2 && |Encode(b[3..])| == 4 * ((|b| - 1) / 3)
    ensures |Encode(b)| == 4 * ((|b| + 2) / 3)
  {
    GroupLengths(b[0], b[1], b[2]);
    EncodeCons(b);
    var n := |b| - 3;
    assert (n + 5) / 3 == (n + 2) / 3 + 1;
  }

  lemma EncodeLengthShort(b: Bytes)
    requires |b| <= 2
    ensures |Encode(b)| == 4 * ((|b| + 2) / 3)
  {
    if |b| > 0 {
      GroupLengths(b[0], b[|b| - 1], b[0]);
    }
  }

  lemma EncodeCons(b: Bytes)
    requires |b| > 2
    ensures Encode(b) == Group3(b[0], b[1], b[2]) + Encode(b[3..])
  {
  }

  lemma GroupLengths(b0: Byte, b1: Byte, b2: Byte)
    ensures |Group3(b0, b1, b2)| == 4 && |Group2(b0, b1)| == 4 && |Group1(b0)| == 4
  {
  }

  /** Four alphabet characters as three bytes; None when any character is outside the alphabet. */
  function DecodeQuad(q: string): Option<Bytes>
    requires |q| == 4
  {
    if !(InAlphabet(q[0]) && InAlphabet(q[1]) && InAlphabet(q[2]) && InAlphabet(q[3])) then None
    else
      var c0, c1, c2, c3 := ValueOf(q[0]), ValueOf(q[1]), ValueOf(q[2]), ValueOf(q[3]);
      Some([(c0 * 4 + c1 / 16) as Byte, ((c1 % 16) * 16 + c2 / 4) as Byte, ((c2 % 4) * 64 + c3) as Byte])
  }

  /** The last quad, which may end in "=" or "==". */
  function DecodeLast(q: string): Option<Bytes>
    requires |q| == 4
  {
    if q[2] == '=' && q[3] == '=' then
      if InAlphabet(q[0]) && InAlphabet(q[1]) then
        Some([(ValueOf(q[0]) * 4 + ValueOf(q[1]) / 16) as Byte])
      else None
    else if q[3] == '=' then
      if InAlphabet(q[0]) && InAlphabet(q[1]) && InAlphabet(q[2]) then
        var c0, c1, c2 := ValueOf(q[0]), ValueOf(q[1]), ValueOf(q[2]);
        Some([(c0 * 4 + c1 / 16) as Byte, ((c1 % 16) * 16 + c2 / 4) as Byte])
      else None
    else DecodeQuad(q)
  }

  function Decode(s: string): Option<Bytes>
    decreases |s|
  {
    if s == [] then Some([])
    else if |s| < 4 then None
    else if |s| == 4 then DecodeLast(s)
    else
      var head := DecodeQuad(s[..4]);
      var tail := Decode(s[4..]);
      if head.None? || tail.None? then None else Some(head.value + tail.value)
  }

  /** The encoding uses only the alphabet and trailing '=' padding. */
  lemma {:induction false} EncodeAlphabet(b: Bytes)
    ensures forall i :: 0 <= i < |Encode(b)| ==> InAlphabet(Encode(b)[i]) || Encode(b)[i] == '='
    decreases |b|
  {
    if |b| > 2 {
      EncodeAlphabet(b[3..]);
      var x0, x1, x2 := b[0] as int, b[1] as int, b[2] as int;
      CharOfValueOf(x0 / 4);
      CharOfValueOf((x0 % 4) * 16 + x1 / 16);
      CharOfValueOf((x1 % 16) * 4 + x2 / 64);
      CharOfValueOf(x2 % 64);
      assert Encode(b) == Group3(b[0], b[1], b[2]) + Encode(b[3..]);
    } else if |b| == 2 {
      var x0, x1 := b[0] as int, b[1] as int;
      CharOfValueOf(x0 / 4);
      CharOfValueOf((x0 % 4) * 16 + x1 / 16);
      CharOfValueOf((x1 % 16) * 4);
    } else if |b| == 1 {
      var x0 := b[0] as int;
      CharOfValueOf(x0 / 4);
      CharOfValueOf((x0 % 4) * 16);
    }
  }

  /** The sextets of three octets recombine into the octets. */
  lemma Sextets3(x0: int, x1: int, x2: int)
    requires 0 <= x0 < 256 && 0 <= x1 < 256 && 0 <= x2 < 256
    ensures var c0, c1, c2, c3 := x0 / 4, (x0 % 4) * 16 + x1 / 16, (x1 % 16) * 4 + x2 / 64, x2 % 64;
            && 0 <= c0 < 64 && 0 <= c1 < 64 && 0 <= c2 < 64 && 0 <= c3 < 64
            && c0 * 4 + c1 / 16 == x0
            && (c1 % 16) * 16 + c2 / 4 == x1
            && (c2 % 4) * 64 + c3 == x2
  {
  }

  lemma Group3RoundTrip(b0: Byte, b1: Byte, b2: Byte)
    ensures DecodeQuad(Group3(b0, b1, b2)) == Some([b0, b1, b2])
    ensures DecodeLast(Group3(b0, b1, b2)) == Some([b0, b1, b2])
  {
    var x0, x1, x2 := b0 as int, b1 as int, b2 as int;
    Sextets3(x0, x1, x2);
    var c0, c1, c2, c3 := x0 / 4, (x0 % 4) * 16 + x1 / 16, (x1 % 16) * 4 + x2 / 64, x2 % 64;
    CharOfValueOf(c0);
    CharOfValueOf(c1);
    CharOfValueOf(c2);
    CharOfValueOf(c3);
  }

  lemma Group2RoundTrip(b0: Byte, b1: Byte)
    ensures DecodeLast(Group2(b0, b1)) == Some([b0, b1])
  {
    var x0, x1 := b0 as int, b1 as int;
    Sextets3(x0, x1, 0);
    CharOfValueOf(x0 / 4);
    CharOfValueOf((x0 % 4) * 16 + x1 / 16);
    CharOfValueOf((x1 % 16) * 4);
  }

  lemma Group1RoundTrip(b0: Byte)
    ensures DecodeLast(Group1(b0)) == Some([b0])
  {
    var x0 := b0 as int;
    Sextets3(x0, 0, 0);
    CharOfValueOf(x0 / 4);
    CharOfValueOf((x0 % 4) * 16);
  }

  /** A leading full quad decodes on its own. */
  lemma DecodeCons(g: string, e: string)
    requires |g| == 4 && |e| >= 4
    ensures Decode(g + e) == if DecodeQuad(g).None? || Decode(e).None? then None
                             else Some(DecodeQuad(g).value + Decode(e).value)
  {
    assert (g + e)[..4] == g;
    assert (g + e)[4..] == e;
  }

  /** A single quad is the last one. */
  lemma DecodeFour(q: string)
    requires |q| == 4
    ensures Decode(q) == DecodeLast(q)
  {
  }

  lemma DecodeEncode1(b: Bytes)
    requires |b| == 1
    ensures Decode(Encode(b)) == Some(b)
  {
    assert Encode(b) == Group1(b[0]);
    DecodeFour(Group1(b[0]));
    Group1RoundTrip(b[0]);
    assert [b[0]] == b;
  }

  lemma DecodeEncode2(b: Bytes)
    requires |b| == 2
    ensures Decode(Encode(b)) == Some(b)
  {
    assert Encode(b) == Group2(b[0], b[1]);
    DecodeFour(Group2(b[0], b[1]));
    Group2RoundTrip(b[0], b[1]);
    assert [b[0], b[1]] == b;
  }

  lemma DecodeEncode3(b: Bytes)
    requires |b| == 3
    ensures Decode(Encode(b)) == Some(b)
  {
    assert Encode(b[3..]) == "";
    assert Encode(b) == Group3(b[0], b[1], b[2]);
    DecodeFour(Group3(b[0], b[1], b[2]));
    Group3RoundTrip(b[0], b[1], b[2]);
    assert [b[0], b[1], b[2]] == b;
  }

  /** Decoding the encoding gives the bytes back. */
  lemma {:induction false} DecodeEncode(b: Bytes)
    ensures Decode(Encode(b)) == Some(b)
    decreases |b|
  {
    if |b| == 1 {
      DecodeEncode1(b);
    } else if |b| == 2 {
      DecodeEncode2(b);
    } else if |b| == 3 {
      DecodeEncode3(b);
    } else if |b| > 3 {
      DecodeEncode(b[3..]);
      DecodeEncodeCons(b);
    }
  }

  /** One more leading group of three: its quad decodes in front of the rest. */
  lemma DecodeEncodeCons(b: Bytes)
    requires |b| > 3 && Decode(Encode(b[3..])) == Some(b[3..])
    ensures Decode(Encode(b)) == Some(b)
  {
    var g := Group3(b[0], b[1], b[2]);
    var e := Encode(b[3..]);
    Group3RoundTrip(b[0], b[1], b[2]);
    assert Encode(b) == g + e;
    GroupLengths(b[0], b[1], b[2]);
    DecodePrefix(g, e, [b[0], b[1], b[2]], b[3..]);
    SplitThree(b);
  }

  lemma SplitThree(b: Bytes)
    requires |b| >= 3
    ensures [b[0], b[1], b[2]] + b[3..] == b
  {
  }

  lemma DecodePrefix(g: string, e: string, x: Bytes, y: Bytes)
    requires |g| == 4 && |e| >= 4 && DecodeQuad(g) == Some(x) && Decode(e) == Some(y)
    ensures Decode(g + e) == Some(x + y)
  {
    DecodeCons(g, e);
  }
}
