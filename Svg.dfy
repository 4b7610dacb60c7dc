/**
 * The discrete parts of the SVG writer: the escaping of text content, the
 * keywords colours and stroke enumerations print as, and the indentation of
 * a render context. Element rendering, which writes floating-point
 * coordinates to a stream, is outside this model.
 */
module Svg {
  import opened Wrappers
  import opened Decimal

  /** `uint8_t`, a colour component. */
  newtype uint8 = x: int | 0 <= x < 256

  /** `svg::Color`: no colour, a named colour, or an RGB(A) triple. */
  datatype Color =
    | NoColor
    | Named(name: string)
    | Rgb(red: uint8, green: uint8, blue: uint8)
    | Rgba(red: uint8, green: uint8, blue: uint8, opacity: real)

  datatype StrokeLineCap = BUTT | ROUND | SQUARE

  datatype StrokeLineJoin = ARCS | BEVEL | MITER | MITER_CLIP | ROUND

  // ---------------------------------------------------------------------
  // Text content
  // ---------------------------------------------------------------------

  /** The entity `EscapedString` writes for one character; other characters stand for themselves. */
  function EntityFor(c: char): string {
    if c == '"' then "&quot;"
    else if c == '\'' then "&apos;"
    else if c == '<' then "&lt;"
    else if c == '>' then "&gt;"
    else if c == '&' then "&amp;"
    else [c]
  }

  /** The escaped characters of a text, in order. */
  function EscapedText(str: string): string {
    if str == [] then [] else EntityFor(str[0]) + EscapedText(str[1..])
  }

  /** The switch of `EscapedString`'s loop, for one character. */
  method AppendEntity(c: char, output: string) returns (out: string)
    ensures out == output + EntityFor(c)
  {
    if c == '"' {
      out := output + "&quot;";
    } else if c == '\'' {
      out := output + "&apos;";
    } else if c == '<' {
      out := output + "&lt;";
    } else if c == '>' {
      out := output + "&gt;";
    } else if c == '&' {
      out := output + "&amp;";
    } else {
      out := output + [c];
    }
  }

  /** Escaping a text one character longer appends that character's escape. */
  lemma {:induction false} EscapedAppend(str: string, c: char)
    ensures EscapedText(str + [c]) == EscapedText(str) + EntityFor(c)
  {
    if str == [] {
      assert [c][1..] == [];
    } else {
      assert (str + [c])[1..] == str[1..] + [c];
      EscapedAppend(str[1..], c);
    }
  }

  /** `Text::EscapedString`: each character through the escaping switch, appended in order. */
  method EscapedString(str: string) returns (escaped: string)
    ensures escaped == EscapedText(str)
  {
    escaped := [];
    for i := 0 to |str|
      invariant escaped == EscapedText(str[..i])
    {
      EscapedAppend(str[..i], str[i]);
      assert str[..i + 1] == str[..i] + [str[i]];
      escaped := AppendEntity(str[i], escaped);
    }
    assert str[..|str|] == str;
  }

  /** Reading the entities back: the inverse of the escaping. */
  function Unescaped(text: string): string {
    if text == [] then []
    else if text[0] != '&' then [text[0]] + Unescaped(text[1..])
    else if |text| >= 6 && text[..6] == "&quot;" then "\"" + Unescaped(text[6..])
    else if |text| >= 6 && text[..6] == "&apos;" then "'" + Unescaped(text[6..])
    else if |text| >= 4 && text[..4] == "&lt;" then "<" + Unescaped(text[4..])
    else if |text| >= 4 && text[..4] == "&gt;" then ">" + Unescaped(text[4..])
    else if |text| >= 5 && text[..5] == "&amp;" then "&" + Unescaped(text[5..])
    else [text[0]] + Unescaped(text[1..])
  }

  /** One escaped character followed by anything reads back as that character. */
  lemma {:induction false} UnescapeEntity(c: char, rest: string)
    ensures Unescaped(EntityFor(c) + rest) == [c] + Unescaped(rest)
  {
    var e := EntityFor(c);
    var t := e + rest;
    assert t[..|e|] == e && t[|e|..] == rest;
    if c == '\'' {
      assert |t| >= 6 ==> t[..6][1] == 'a';
    } else if c == '<' || c == '>' {
      assert |t| >= 6 ==> t[..6][1] == e[1];
    } else if c == '&' {
      assert |t| >= 6 ==> t[..6][2] == 'm';
      assert t[..4][1] == 'a';
    }
  }

  /** Escaping loses nothing: the text reads back as the original. */
  lemma {:induction false} EscapedRoundTrip(str: string)
    ensures Unescaped(EscapedText(str)) == str
  {
    if str != [] {
      EscapedRoundTrip(str[1..]);
      UnescapeEntity(str[0], EscapedText(str[1..]));
      assert [str[0]] + str[1..] == str;
    }
  }

  /** Escaped text holds no quote, apostrophe or angle bracket, so it cannot end the element or open a tag. */
  lemma {:induction false} EscapedHasNoMarkup(str: string)
    ensures forall i :: 0 <= i < |EscapedText(str)| ==> EscapedText(str)[i] !in {'"', '\'', '<', '>'}
  {
    if str != [] {
      EscapedHasNoMarkup(str[1..]);
      var head := EntityFor(str[0]);
      var rest := EscapedText(str[1..]);
      forall i | 0 <= i < |head + rest|
        ensures (head + rest)[i] !in {'"', '\'', '<', '>'}
      {
        if i >= |head| {
          assert (head + rest)[i] == rest[i - |head|];
        }
      }
    }
  }

  // ---------------------------------------------------------------------
  // Colours and stroke keywords
  // ---------------------------------------------------------------------

  /** `ColorPrinter`: `none`, the name verbatim, or the functional notation with decimal components. */
  function ColorText(color: Color, format: DoubleFormat): string {
    match color
    case NoColor => "none"
    case Named(name) => name
    case Rgb(r, g, b) =>
      "rgb(" + NatToDecimal(r as nat) + "," + NatToDecimal(g as nat) + "," + NatToDecimal(b as nat) + ")"
    case Rgba(r, g, b, opacity) =>
      "rgba(" + NatToDecimal(r as nat) + "," + NatToDecimal(g as nat) + "," + NatToDecimal(b as nat) + "," +
      format(opacity) + ")"
  }

  /** The position of the first comma of a text, or its length when it has none. */
  function FirstComma(s: string): (r: nat)
    ensures r <= |s|
  {
    if s == [] then 0 else if s[0] == ',' then 0 else 1 + FirstComma(s[1..])
  }

  /** Digits hold no comma, so the comma after a digit run is the first one. */
  lemma {:induction false} FirstCommaAfterDigits(a: string, x: string)
    requires AllDigits(a)
    ensures FirstComma(a + "," + x) == |a|
  {
    if a != [] {
      assert (a + "," + x)[1..] == a[1..] + "," + x;
      assert IsDigit(a[0]);
      FirstCommaAfterDigits(a[1..], x);
    }
  }

  /** Two digit runs each followed by a comma split the same text only where they are equal. */
  lemma {:induction false} DigitsBeforeComma(a: string, x: string, b: string, y: string)
    requires AllDigits(a) && AllDigits(b)
    requires a + "," + x == b + "," + y
    ensures a == b && x == y
  {
    var t := a + "," + x;
    FirstCommaAfterDigits(a, x);
    FirstCommaAfterDigits(b, y);
    assert a == t[..|a|] && b == (b + "," + y)[..|b|];
    assert x == t[|a| + 1..] && y == (b + "," + y)[|b| + 1..];
  }

  /** Three digit runs joined by commas determine each run. */
  lemma {:induction false} DigitTriple(r1: string, g1: string, b1: string, r2: string, g2: string, b2: string)
    requires AllDigits(r1) && AllDigits(g1) && AllDigits(b1) && AllDigits(r2) && AllDigits(g2) && AllDigits(b2)
    requires r1 + "," + g1 + "," + b1 == r2 + "," + g2 + "," + b2
    ensures r1 == r2 && g1 == g2 && b1 == b2
  {
    assert r1 + "," + g1 + "," + b1 == r1 + "," + (g1 + "," + b1);
    assert r2 + "," + g2 + "," + b2 == r2 + "," + (g2 + "," + b2);
    DigitsBeforeComma(r1, g1 + "," + b1, r2, g2 + "," + b2);
    DigitsBeforeComma(g1, b1, g2, b2);
  }

  /** Different RGB colours print differently: the text determines all three components. */
  lemma {:induction false} RgbTextInjective(c: Color, d: Color, format: DoubleFormat)
    requires c.Rgb? && d.Rgb? && ColorText(c, format) == ColorText(d, format)
    ensures c == d
  {
    var r1, g1, b1 := NatToDecimal(c.red as nat), NatToDecimal(c.green as nat), NatToDecimal(c.blue as nat);
    var r2, g2, b2 := NatToDecimal(d.red as nat), NatToDecimal(d.green as nat), NatToDecimal(d.blue as nat);
    var inner1, inner2 := r1 + "," + g1 + "," + b1, r2 + "," + g2 + "," + b2;
    var t := ColorText(c, format);
    assert t == "rgb(" + inner1 + ")" == "rgb(" + inner2 + ")";
    assert inner1 == t[4..|t| - 1] == inner2;
    DigitTriple(r1, g1, b1, r2, g2, b2);
    NatToDecimalInjective(c.red as nat, d.red as nat);
    NatToDecimalInjective(c.green as nat, d.green as nat);
    NatToDecimalInjective(c.blue as nat, d.blue as nat);
  }

  /** `operator<<(StrokeLineCap)`. */
  function LineCapText(cap: StrokeLineCap): string {
    match cap
    case BUTT => "butt"
    case ROUND => "round"
    case SQUARE => "square"
  }

  /** `operator<<(StrokeLineJoin)`. */
  function LineJoinText(join: StrokeLineJoin): string {
    match join
    case ARCS => "arcs"
    case BEVEL => "bevel"
    case MITER => "miter"
    case MITER_CLIP => "miter-clip"
    case ROUND => "round"
  }

  /** The keyword a line cap attribute value stands for. */
  function ParseLineCap(text: string): Option<StrokeLineCap> {
    if text == "butt" then Some(BUTT)
    else if text == "round" then Some(StrokeLineCap.ROUND)
    else if text == "square" then Some(SQUARE)
    else None
  }

  /** The keyword a line join attribute value stands for. */
  function ParseLineJoin(text: string): Option<StrokeLineJoin> {
    if text == "arcs" then Some(ARCS)
    else if text == "bevel" then Some(BEVEL)
    else if text == "miter" then Some(MITER)
    else if text == "miter-clip" then Some(MITER_CLIP)
    else if text == "round" then Some(StrokeLineJoin.ROUND)
    else None
  }

  /** Each line cap prints as its own keyword. */
  lemma LineCapRoundTrip(cap: StrokeLineCap)
    ensures ParseLineCap(LineCapText(cap)) == Some(cap)
  {
  }

  /** Each line join prints as its own keyword. */
  lemma LineJoinRoundTrip(join: StrokeLineJoin)
    ensures ParseLineJoin(LineJoinText(join)) == Some(join)
  {
  }

  // ---------------------------------------------------------------------
  // Indentation
  // ---------------------------------------------------------------------

  /** `RenderContext` without its stream: the step and the current indent. */
  datatype RenderContext = RenderContext(indentStep: int, indent: int) {
    /** `Indented`: one step deeper, with the same step. */
    function Indented(): (r: RenderContext)
      ensures r.indentStep == indentStep && r.indent - indent == indentStep
    {
      RenderContext(indentStep, indent + indentStep)
    }
  }

  /** `n` spaces. */
  function Spaces(n: nat): (r: string)
    ensures |r| == n && forall i :: 0 <= i < n ==> r[i] == ' '
  {
    if n == 0 then [] else Spaces(n - 1) + " "
  }

  /** `RenderIndent`: writes one space per unit of indent; a negative indent writes none. */
  method RenderIndent(context: RenderContext, output: string) returns (out: string)
    ensures out == output + Spaces(if context.indent < 0 then 0 else context.indent)
  {
    out := output;
    var i := 0;
    while i < context.indent
      invariant 0 <= i && i <= (if context.indent < 0 then 0 else context.indent)
      invariant out == output + Spaces(i)
    {
      assert output + Spaces(i + 1) == (output + Spaces(i)) + " ";
      out := out + " ";
      i := i + 1;
    }
  }

  /** A context indented `k` times is `k` steps deeper. */
  function IndentedTimes(context: RenderContext, k: nat): RenderContext {
    if k == 0 then context else IndentedTimes(context, k - 1).Indented()
  }

  lemma {:induction false} IndentedTimesDepth(context: RenderContext, k: nat)
    ensures IndentedTimes(context, k) == RenderContext(context.indentStep, context.indent + k * context.indentStep)
  {
    if k > 0 {
      IndentedTimesDepth(context, k - 1);
      assert (k - 1) * context.indentStep + context.indentStep == k * context.indentStep;
    }
  }
}
