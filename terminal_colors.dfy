/**
 * ANSI colouring of service/shared/terminal_colors.py: the `ColorCode`
 * constants and `coloring`.
 *
 * Every constant is a Select Graphic Rendition control sequence of
 * ECMA-48 (ISO/IEC 6429), section 8.3.117: ESC, `[`, parameters, `m`.
 * `Reset` is SGR 0, which cancels every attribute; a `...Bg` constant is
 * two such sequences, a background from the 256-colour palette
 * (`48;5;n`) followed by black text (`30`, bold in three of them).
 */
module TerminalColors {
  import opened Wrappers
  import opened Utf8

  /** A Dafny string literal as Python text, code point by code point. */
  function Lift(s: string): (r: PyStr)
    ensures |r| == |s|
    ensures forall i :: 0 <= i < |s| ==> r[i] as int == s[i] as int
    ensures Encodable(r)
  {
    seq(|s|, i requires 0 <= i < |s| => s[i] as int as CodePoint)
  }

  /** The class `ColorCode`. */
  const Reset: PyStr := Lift("\U{1B}[0m")
  const LightRedTxt: PyStr := Lift("\U{1B}[91m")
  const LightRedBg: PyStr := Lift("\U{1B}[48;5;217m\U{1B}[30m")
  const DarkRedTxt: PyStr := Lift("\U{1B}[1;91m")
  const DarkRedBg: PyStr := Lift("\U{1B}[48;5;88m\U{1B}[30m")
  const BrightRedTxt: PyStr := Lift("\U{1B}[91;1m")
  const BrightRedBg: PyStr := Lift("\U{1B}[48;5;197m\U{1B}[30m")
  const BoldarkRedTxt: PyStr := Lift("\U{1B}[1;91m")
  const BoldarkRedBg: PyStr := Lift("\U{1B}[48;5;197m\U{1B}[30;1m")
  const LightGreenTxt: PyStr := Lift("\U{1B}[92m")
  const LightGreenBg: PyStr := Lift("\U{1B}[48;5;157m\U{1B}[30m")
  const DarkGreenTxt: PyStr := Lift("\U{1B}[1;92m")
  const DarkGreenBg: PyStr := Lift("\U{1B}[48;5;22m\U{1B}[30m")
  const BrightGreenTxt: PyStr := Lift("\U{1B}[92;1m")
  const BrightGreenBg: PyStr := Lift("\U{1B}[48;5;34m\U{1B}[30m")
  const LightCyanTxt: PyStr := Lift("\U{1B}[96m")
  const LightCyanBg: PyStr := Lift("\U{1B}[48;5;159m\U{1B}[30m")
  const DarkCyanTxt: PyStr := Lift("\U{1B}[1;96m")
  const DarkCyanBg: PyStr := Lift("\U{1B}[48;5;31m\U{1B}[30m")
  const BrightCyanTxt: PyStr := Lift("\U{1B}[96;1m")
  const BrightCyanBg: PyStr := Lift("\U{1B}[48;5;51m\U{1B}[30m")
  const LightYellowTxt: PyStr := Lift("\U{1B}[93m")
  const LightYellowBg: PyStr := Lift("\U{1B}[48;5;226m\U{1B}[30m")
  const DarkYellowTxt: PyStr := Lift("\U{1B}[1;93m")
  const DarkYellowBg: PyStr := Lift("\U{1B}[48;5;184m\U{1B}[30m")
  const BrightYellowTxt: PyStr := Lift("\U{1B}[93;1m")
  const BrightYellowBg: PyStr := Lift("\U{1B}[48;5;226m\U{1B}[30m")
  const LightBlueTxt: PyStr := Lift("\U{1B}[94m")
  const LightBlueBg: PyStr := Lift("\U{1B}[48;5;153m\U{1B}[30m")
  const DarkBlueTxt: PyStr := Lift("\U{1B}[1;94m")
  const DarkBlueBg: PyStr := Lift("\U{1B}[48;5;17m\U{1B}[30m")
  const BrightBlueTxt: PyStr := Lift("\U{1B}[94;1m")
  const BrightBlueBg: PyStr := Lift("\U{1B}[48;5;20m\U{1B}[30m")
  const LightMagentaTxt: PyStr := Lift("\U{1B}[95m")
  const LightMagentaBg: PyStr := Lift("\U{1B}[48;5;207m\U{1B}[30m")
  const DarkMagentaTxt: PyStr := Lift("\U{1B}[1;95m")
  const DarkMagentaBg: PyStr := Lift("\U{1B}[48;5;54m\U{1B}[30m")
  const BrightMagentaTxt: PyStr := Lift("\U{1B}[95;1m")
  const BrightMagentaBg: PyStr := Lift("\U{1B}[48;5;127m\U{1B}[30m")
  const LightOrangeTxt: PyStr := Lift("\U{1B}[38;5;208m")
  const LightOrangeBg: PyStr := Lift("\U{1B}[48;5;208m\U{1B}[30m")
  const DarkOrangeTxt: PyStr := Lift("\U{1B}[38;5;166m")
  const DarkOrangeBg: PyStr := Lift("\U{1B}[48;5;166m\U{1B}[30m")
  const BrightOrangeTxt: PyStr := Lift("\U{1B}[38;5;214m")
  const BrightOrangeBg: PyStr := Lift("\U{1B}[48;5;214m\U{1B}[30m")
  const LightWhiteTxt: PyStr := Lift("\U{1B}[97m")
  const LightWhiteBg: PyStr := Lift("\U{1B}[48;5;231m\U{1B}[30m")
  const DarkWhiteTxt: PyStr := Lift("\U{1B}[1;97m")
  const DarkWhiteBg: PyStr := Lift("\U{1B}[48;5;231m\U{1B}[30;1m")
  const LightGrayTxt: PyStr := Lift("\U{1B}[37m")
  const LightGrayBg: PyStr := Lift("\U{1B}[48;5;251m\U{1B}[30m")
  const LightBlackTxt: PyStr := Lift("\U{1B}[30m")
  const LightBlackBg: PyStr := Lift("\U{1B}[48;5;0m\U{1B}[30m")
  const DarkBlackTxt: PyStr := Lift("\U{1B}[1;30m")
  const DarkBlackBg: PyStr := Lift("\U{1B}[48;5;238m\U{1B}[30;1m")

  /** `coloring(text, code)` exactly as written: the `try` catches only
      `UnicodeDecodeError`, which decoding freshly encoded bytes never
      raises, while `UnicodeEncodeError` from `.encode` propagates. */
  function ColoringAsWritten(text: PyStr, code: PyStr := LightCyanTxt): (r: Result<PyStr, EncodeError>)
    ensures Encodable(code) && Encodable(text) ==> r == Ok(code + text + Reset)
    ensures !(Encodable(code) && Encodable(text)) ==> r.Err?
  {
    var rText := code + text + Reset;
    EncodableConcat(code, text);
    match Encode(rText)
    case Err(e) => Err(e)
    case Ok(bytes) =>
      DecodeEncode(rText);
      match Decode(bytes)
      case Ok(s) => Ok(s)
      case Err(_) => Ok(text)
  }

  /** `coloring(text, code)` with the fallback it evidently aims at: when the
      UTF-8 round trip of the coloured text fails, the text comes back
      uncoloured.  For every text Python can encode this is the code, then
      the text, then SGR 0. */
  function Coloring(text: PyStr, code: PyStr := LightCyanTxt): (r: PyStr)
    ensures Encodable(code) && Encodable(text) ==> r == code + text + Reset
    ensures !(Encodable(code) && Encodable(text)) ==> r == text
  {
    var rText := code + text + Reset;
    EncodableConcat(code, text);
    match Encode(rText)
    case Err(_) => text
    case Ok(bytes) =>
      DecodeEncode(rText);
      match Decode(bytes)
      case Ok(s) => s
      case Err(_) => text
  }

  /** The coloured text is encodable exactly when code and text are. */
  lemma EncodableConcat(code: PyStr, text: PyStr)
    ensures Encodable(code + text + Reset) <==> Encodable(code) && Encodable(text)
  {
    var s := code + text + Reset;
    assert forall i :: 0 <= i < |code| ==> s[i] == code[i];
    assert forall i :: 0 <= i < |text| ==> s[|code| + i] == text[i];
    assert forall i :: 0 <= i < |Reset| ==> s[|code| + |text| + i] == Reset[i];
  }

  /** Takes a coloured text apart: the text between `code` and `Reset`. */
  function Uncolor(s: PyStr, code: PyStr): (r: Option<PyStr>)
    ensures r.Some? ==> code + r.value + Reset == s
  {
    if |s| >= |code| + |Reset| && s[..|code|] == code && s[|s| - |Reset|..] == Reset
    then
      var mid := s[|code|..|s| - |Reset|];
      assert s == s[..|code|] + mid + s[|s| - |Reset|..];
      Some(mid)
    else None
  }

  /** The result starts with the code, ends with SGR 0, and is four code
      points longer than code and text together. */
  lemma ColoringShape(text: PyStr, code: PyStr)
    requires Encodable(code) && Encodable(text)
    ensures var r := Coloring(text, code);
      && |r| == |code| + |text| + 4
      && r[..|code|] == code
      && r[|r| - 4..] == Reset
      && r[|code|..|code| + |text|] == text
  {
  }

  /** Stripping the code prefix and the reset suffix gives the text back. */
  lemma ColoringUncolor(text: PyStr, code: PyStr)
    requires Encodable(code) && Encodable(text)
    ensures Uncolor(Coloring(text, code), code) == Some(text)
  {
  }

  /** Leaving out the code argument is passing `LightCyanTxt`, for any text. */
  lemma DefaultCodeArgument(text: PyStr)
    ensures Coloring(text) == Coloring(text, LightCyanTxt)
  {
  }

  /** With no code given, the colour is light cyan, `ESC [ 96 m`. */
  lemma DefaultCodeIsLightCyan(text: PyStr)
    requires Encodable(text)
    ensures Coloring(text) == Lift("\U{1B}[96m") + text + Reset
  {
  }

  /** `Reset` is SGR with parameter 0, four code points long. */
  lemma ResetIsSgrZero()
    ensures Reset == [0x1B as CodePoint] + Lift("[0m")
    ensures |Reset| == 4
  {
  }

  /** Two pairs of constants are the same sequence under different names. */
  lemma Aliases()
    ensures DarkRedTxt == BoldarkRedTxt
    ensures LightYellowBg == BrightYellowBg
  {
  }

  /** As written, a lone surrogate in the text escapes as an exception (at
      index 5, right after the default code) instead of reaching the
      fallback; the corrected `Coloring` returns the text. */
  lemma SurrogateEscapes()
    ensures ColoringAsWritten([0xDC80 as CodePoint]) == Err(UnicodeEncodeError(5))
    ensures Coloring([0xDC80 as CodePoint]) == [0xDC80 as CodePoint]
  {
    var s := LightCyanTxt + [0xDC80 as CodePoint] + Reset;
    var e := Encode(s);
    assert |LightCyanTxt| == 5;
    assert IsSurrogate(s[5]);
    assert forall i :: 0 <= i < 5 ==> !IsSurrogate(s[i]);
  }

  /** On every input the two agree wherever the source returns normally. */
  lemma ColoringAgrees(text: PyStr, code: PyStr)
    ensures ColoringAsWritten(text, code).Ok? ==> ColoringAsWritten(text, code).value == Coloring(text, code)
  {
  }
}
