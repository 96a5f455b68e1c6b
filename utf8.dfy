/**
 * Python text and its strict UTF-8 codec, as far as `str.encode("utf-8")`
 * and `bytes.decode("utf-8")` matter to service/shared/terminal_colors.py.
 *
 * A Python `str` is a sequence of code points 0 .. 0x10FFFF, and unlike a
 * Dafny `char` a code point may be a lone surrogate (0xD800 .. 0xDFFF).
 * The strict encoder raises `UnicodeEncodeError` at the first surrogate;
 * the strict decoder accepts only well-formed UTF-8 (no overlong forms, no
 * encoded surrogates, nothing above 0x10FFFF).
 */
module Utf8 {
  import opened Wrappers

  newtype CodePoint = x: int | 0 <= x < 0x11_0000
  newtype Byte = x: int | 0 <= x < 0x100

  /** A Python `str`. */
  type PyStr = seq<CodePoint>

  /** `UnicodeEncodeError`, with the index of the offending code point. */
  datatype EncodeError = UnicodeEncodeError(position: nat)

  /** `UnicodeDecodeError`, with the index of the byte where decoding failed. */
  datatype DecodeError = UnicodeDecodeError(position: nat)

  predicate IsSurrogate(c: CodePoint)
  {
    0xD800 <= c <= 0xDFFF
  }

  /** A text the strict encoder accepts. */
  predicate Encodable(s: PyStr)
  {
    forall i :: 0 <= i < |s| ==> !IsSurrogate(s[i])
  }

  /** A continuation byte, 10xxxxxx. */
  predicate IsContinuation(b: Byte)
  {
    0x80 <= b <= 0xBF
  }

  /** The UTF-8 form of one code point: 1 to 4 bytes by magnitude. */
  function EncodeChar(c: CodePoint): (b: seq<Byte>)
    requires !IsSurrogate(c)
    ensures 1 <= |b| <= 4
    ensures |b| == 1 <==> c < 0x80
    ensures forall i :: 1 <= i < |b| ==> IsContinuation(b[i])
  {
    var n := c as int;
    if n < 0x80 then [n as Byte]
    else if n < 0x800 then [(0xC0 + n / 0x40) as Byte, (0x80 + n % 0x40) as Byte]
    else if n < 0x1_0000 then
      [(0xE0 + n / 0x1000) as Byte, (0x80 + n / 0x40 % 0x40) as Byte, (0x80 + n % 0x40) as Byte]
    else
      [(0xF0 + n / 0x4_0000) as Byte, (0x80 + n / 0x1000 % 0x40) as Byte,
       (0x80 + n / 0x40 % 0x40) as Byte, (0x80 + n % 0x40) as Byte]
  }

  /** `s.encode("utf-8")`: fails exactly on a text holding a surrogate, and
      then reports the first one. */
  function Encode(s: PyStr): (r: Result<seq<Byte>, EncodeError>)
    ensures r.Ok? <==> Encodable(s)
    ensures r.Err? ==> r.error.position < |s| && IsSurrogate(s[r.error.position])
                       && Encodable(s[..r.error.position])
  {
    if s == [] then Ok([])
    else if IsSurrogate(s[0]) then Err(UnicodeEncodeError(0))
    else
      match Encode(s[1..])
      case Ok(rest) => Ok(EncodeChar(s[0]) + rest)
      case Err(e) =>
        assert forall i :: 0 <= i < e.position ==> s[1..][..e.position][i] == s[..e.position + 1][i + 1];
        Err(UnicodeEncodeError(e.position + 1))
  }

  /** The code point at the start of `b` and how many bytes it takes, if
      those bytes are a well-formed UTF-8 sequence. */
  function DecodeOne(b: seq<Byte>): (r: Option<(CodePoint, nat)>)
    requires |b| > 0
    ensures r.Some? ==> 1 <= r.value.1 <= |b| && r.value.1 <= 4
    ensures r.Some? ==> !IsSurrogate(r.value.0)
  {
    var b0 := b[0] as int;
    if b0 < 0x80 then Some((b0 as CodePoint, 1))
    else if 0xC2 <= b0 <= 0xDF then
      if |b| >= 2 && IsContinuation(b[1]) then
        Some((((b0 - 0xC0) * 0x40 + (b[1] as int - 0x80)) as CodePoint, 2))
      else None
    else if 0xE0 <= b0 <= 0xEF then
      if |b| >= 3 && IsContinuation(b[1]) && IsContinuation(b[2]) then
        var n := (b0 - 0xE0) * 0x1000 + (b[1] as int - 0x80) * 0x40 + (b[2] as int - 0x80);
        if 0x800 <= n && !(0xD800 <= n <= 0xDFFF) then Some((n as CodePoint, 3)) else None
      else None
    else if 0xF0 <= b0 <= 0xF4 then
      if |b| >= 4 && IsContinuation(b[1]) && IsContinuation(b[2]) && IsContinuation(b[3]) then
        var n := (b0 - 0xF0) * 0x4_0000 + (b[1] as int - 0x80) * 0x1000
                 + (b[2] as int - 0x80) * 0x40 + (b[3] as int - 0x80);
        if 0x1_0000 <= n < 0x11_0000 then Some((n as CodePoint, 4)) else None
      else None
    else None
  }

  /** `b.decode("utf-8")` with strict error handling. */
  function Decode(b: seq<Byte>): (r: Result<PyStr, DecodeError>)
    ensures r.Ok? ==> Encodable(r.value) && |r.value| <= |b|
    ensures r.Ok? && b != [] ==> 1 <= |r.value|
    ensures r.Err? ==> r.error.position < |b|
    decreases |b|
  {
    if b == [] then Ok([])
    else
      match DecodeOne(b)
      case None => Err(UnicodeDecodeError(0))
      case Some((c, n)) =>
        match Decode(b[n..])
        case Ok(rest) => Ok([c] + rest)
        case Err(e) => Err(UnicodeDecodeError(e.position + n))
  }

  /** Decoding reads back the code point that `EncodeChar` wrote, whatever
      follows it. */
  lemma DecodeOneEncodeChar(c: CodePoint, rest: seq<Byte>)
    requires !IsSurrogate(c)
    ensures DecodeOne(EncodeChar(c) + rest) == Some((c, |EncodeChar(c)|))
  {
    var n := c as int;
    if n < 0x80 {
    } else if n < 0x800 {
      DecodeTwo(c, rest);
    } else if n < 0x1_0000 {
      DecodeThree(c, rest);
    } else {
      DecodeFour(c, rest);
    }
  }

  lemma DecodeTwo(c: CodePoint, rest: seq<Byte>)
    requires 0x80 <= c < 0x800
    ensures DecodeOne(EncodeChar(c) + rest) == Some((c, 2))
  {
  }

  lemma DecodeThree(c: CodePoint, rest: seq<Byte>)
    requires 0x800 <= c < 0x1_0000 && !IsSurrogate(c)
    ensures DecodeOne(EncodeChar(c) + rest) == Some((c, 3))
  {
    var n := c as int;
    var b := EncodeChar(c) + rest;
    var q1, r1 := n / 0x40, n % 0x40;
    var q2, r2 := q1 / 0x40, q1 % 0x40;
    assert n == q1 * 0x40 + r1;
    assert q1 == q2 * 0x40 + r2;
    assert n / 0x1000 == q2;
    assert b[0] as int == 0xE0 + q2 && b[1] as int == 0x80 + r2 && b[2] as int == 0x80 + r1;
    assert n == q2 * 0x1000 + r2 * 0x40 + r1;
  }

  lemma DecodeFour(c: CodePoint, rest: seq<Byte>)
    requires 0x1_0000 <= c
    ensures DecodeOne(EncodeChar(c) + rest) == Some((c, 4))
  {
    var n := c as int;
    var b := EncodeChar(c) + rest;
    var q1, r1 := n / 0x40, n % 0x40;
    var q2, r2 := q1 / 0x40, q1 % 0x40;
    var q3, r3 := q2 / 0x40, q2 % 0x40;
    assert n == q1 * 0x40 + r1;
    assert q1 == q2 * 0x40 + r2;
    assert q2 == q3 * 0x40 + r3;
    assert n / 0x1000 == q2 && n / 0x4_0000 == q3;
    assert b[0] as int == 0xF0 + q3 && b[1] as int == 0x80 + r3;
    assert b[2] as int == 0x80 + r2 && b[3] as int == 0x80 + r1;
    assert n == q3 * 0x4_0000 + r3 * 0x1000 + r2 * 0x40 + r1;
  }

  /** The round trip: decoding the encoding of an encodable text gives the
      text back. */
  lemma {:induction false} DecodeEncode(s: PyStr)
    requires Encodable(s)
    ensures Encode(s).Ok? && Decode(Encode(s).value) == Ok(s)
  {
    if s != [] {
      assert Encodable(s[1..]) by {
        assert forall i :: 0 <= i < |s[1..]| ==> s[1..][i] == s[i + 1];
      }
      DecodeEncode(s[1..]);
      var head := EncodeChar(s[0]);
      var rest := Encode(s[1..]).value;
      DecodeOneEncodeChar(s[0], rest);
      assert (head + rest)[|head|..] == rest;
      assert [s[0]] + s[1..] == s;
    }
  }
}
