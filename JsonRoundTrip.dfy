/**
 * Printing and loading agree: the loader reads back exactly the tree the
 * printer wrote, for every tree that holds no `double` (whose text is the
 * host's formatting) and whose object keys contain no character the
 * printer would have had to escape (keys are written as they are). String
 * values may hold any character: the printer escapes exactly the ones the
 * loader refuses raw.
 *
 * The proof reads the printed text through its layout (`JsonLayout.Laid`):
 * whatever sits in `s` with that layout, `LoadNode` reads back.
 */
module JsonRoundTrip {
  import opened Wrappers
  import opened Text
  import opened Decimal
  import opened JsonNode
  import opened JsonParse
  import opened JsonPrint
  import opened JsonLayout

  /** What may follow a number's text without being read as part of it. */
  predicate NumberDelimited(s: string, e: nat) {
    e <= |s| && (e == |s| || !(IsDigit(s[e]) || s[e] == '.' || s[e] == 'e' || s[e] == 'E'))
  }

  /** A key the printer writes as it is and the loader reads back unchanged. */
  predicate PlainKey(k: string) {
    forall i :: 0 <= i < |k| ==> k[i] != '"' && k[i] != '\\' && k[i] != '\n' && k[i] != '\r'
  }

  /** Trees whose printed text loads back: no `double`, plain keys, objects in key order. */
  predicate Printable(n: Node)
    decreases n
  {
    match n
    case Double(_) => false
    case Array(items) => forall i :: 0 <= i < |items| ==> Printable(items[i])
    case Dict(entries) =>
      Sorted(entries) && forall i :: 0 <= i < |entries| ==> PlainKey(entries[i].0) && Printable(entries[i].1)
    case _ => true
  }

  /** Every character of `s` from `a` up to `b` is whitespace. */
  predicate Skippable(s: string, a: nat, b: nat)
    decreases b - a
  {
    a <= b <= |s| && (a == b || (IsWhitespace(s[a]) && Skippable(s, a + 1, b)))
  }

  lemma {:induction false} TokenStartSkip(s: string, a: nat, b: nat)
    requires Skippable(s, a, b)
    ensures TokenStart(s, a) == TokenStart(s, b)
    decreases b - a
  {
    if a < b {
      TokenStartSkip(s, a + 1, b);
    }
  }

  lemma {:induction false} ParseNodeSkip(s: string, a: nat, b: nat)
    requires Skippable(s, a, b)
    ensures ParseNode(s, a) == ParseNode(s, b)
  {
    TokenStartSkip(s, a, b);
  }

  lemma {:induction false} DigitRunEndAt(s: string, a: nat, b: nat)
    requires a <= b <= |s|
    requires forall k :: a <= k < b ==> IsDigit(s[k])
    requires b == |s| || !IsDigit(s[b])
    ensures DigitRunEnd(s, a) == b
    decreases b - a
  {
    if a < b {
      DigitRunEndAt(s, a + 1, b);
    }
  }

  /** Escaping a plain key changes nothing. */
  lemma {:induction false} PlainEscaped(k: string)
    requires PlainKey(k)
    ensures Escaped(k) == k
  {
    if k != [] {
      assert PlainKey(k[1..]);
      PlainEscaped(k[1..]);
      assert [k[0]] + k[1..] == k;
    }
  }

  /** `LoadString` reads back what `PrintString` escaped, whatever the characters. */
  lemma {:induction false} ParseEscaped(s: string, a: nat, str: string, acc: string)
    requires At(s, a, Escaped(str) + "\"")
    ensures ParseStringFrom(s, a, acc) == Ok((String(acc + str), a + |Escaped(str)| + 1))
    decreases str
  {
    if str == [] {
      AtIndex(s, a, Escaped(str) + "\"", 0);
      assert acc + str == acc;
    } else {
      var c := str[0];
      var e := EscapeChar(c);
      assert Escaped(str) + "\"" == e + (Escaped(str[1..]) + "\"");
      AtSplit(s, a, e, Escaped(str[1..]) + "\"");
      AtIndex(s, a, e, 0);
      if |e| == 2 {
        AtIndex(s, a, e, 1);
      }
      ParseEscaped(s, a + |e|, str[1..], acc + [c]);
      assert acc + [c] + str[1..] == acc + str;
    }
  }

  lemma {:induction false} ParseNumberParts(s: string, pos: nat, p2: nat, p3: nat, p4: nat)
    requires pos <= |s|
    requires IntegerPart(s, if pos < |s| && s[pos] == '-' then pos + 1 else pos) == Ok(p2)
    requires FractionPart(s, p2) == Ok(p3)
    requires ExponentPart(s, p3) == Ok(p4)
    ensures var p1 := if pos < |s| && s[pos] == '-' then pos + 1 else pos;
            ParseNumber(s, pos) == Ok((NumeralNode(s, p1, p2, p3, p4, pos < |s| && s[pos] == '-'), p4))
  {
  }

  /** A canonical run of digits followed by a delimiter is an integer part with no fraction and no exponent. */
  lemma {:induction false} DigitsPrinted(s: string, p1: nat, digits: string)
    requires At(s, p1, digits) && AllDigits(digits) && |digits| >= 1
    requires |digits| > 1 ==> digits[0] != '0'
    requires NumberDelimited(s, p1 + |digits|)
    ensures IntegerPart(s, p1) == Ok(p1 + |digits|)
    ensures FractionPart(s, p1 + |digits|) == Ok(p1 + |digits|)
    ensures ExponentPart(s, p1 + |digits|) == Ok(p1 + |digits|)
  {
    var e := p1 + |digits|;
    AtIndex(s, p1, digits, 0);
    forall k | p1 <= k < e
      ensures IsDigit(s[k])
    {
      AtIndex(s, p1, digits, k - p1);
    }
    if digits[0] != '0' {
      DigitRunEndAt(s, p1, e);
    }
  }

  /**
   * Reading the digits `d` that sit in `s` at `a`, from the `j`-th on, after
   * the value of the first `j` has been accumulated, gives the value of `d`.
   */
  lemma {:induction false} DigitsValueInAt(s: string, a: nat, d: string, j: nat)
    requires At(s, a, d) && AllDigits(d) && j <= |d| && DigitsIn(s, a + j, a + |d|)
    ensures AllDigits(d[..j]) && DigitsValueIn(s, a + j, a + |d|, DigitsValue(d[..j])) == DigitsValue(d)
    decreases |d| - j
  {
    if j == |d| {
      assert d[..j] == d;
    } else {
      AtIndex(s, a, d, j);
      var next := d[..j + 1];
      assert next[..j] == d[..j] && next[j] == d[j];
      assert DigitsValue(next) == DigitsValue(d[..j]) * 10 + DigitValue(d[j]);
      DigitsValueInAt(s, a, d, j + 1);
    }
  }

  /** `LoadNumber` reads back the decimal text of an `int` as that Int. */
  lemma {:induction false} ParseIntPrinted(s: string, a: nat, i: int32)
    requires At(s, a, IntToDecimal(i as int))
    requires NumberDelimited(s, a + |IntToDecimal(i as int)|)
    ensures ParseNumber(s, a) == Ok((Int(i), a + |IntToDecimal(i as int)|))
  {
    var t := IntToDecimal(i as int);
    var negative := i < 0;
    var magnitude: nat := if negative then -(i as int) else i as int;
    var digits := NatToDecimal(magnitude);
    var sign := if negative then "-" else "";
    assert t == sign + digits;
    AtSplit(s, a, sign, digits);
    var p1 := a + |sign|;
    var e := p1 + |digits|;
    AtIndex(s, p1, digits, 0);
    if negative {
      AtIndex(s, a, t, 0);
    }
    assert (a < |s| && s[a] == '-') == negative;
    DigitsPrinted(s, p1, digits);
    ParseNumberParts(s, a, e, e, e);
    NumeralPrinted(s, p1, digits, negative, magnitude);
  }

  /** The numeral made of the canonical digits of `magnitude`, with no fraction or exponent, is that Int. */
  lemma {:induction false} NumeralPrinted(s: string, p1: nat, digits: string, negative: bool, magnitude: nat)
    requires digits == NatToDecimal(magnitude) && At(s, p1, digits)
    requires IntMin <= (if negative then -(magnitude as int) else magnitude) <= IntMax
    requires NumberDelimited(s, p1 + |digits|) && DigitsIn(s, p1, p1 + |digits|)
    ensures NumeralNode(s, p1, p1 + |digits|, p1 + |digits|, p1 + |digits|, negative)
         == Int((if negative then -(magnitude as int) else magnitude) as int32)
  {
    DigitsValueInAt(s, p1, digits, 0);
    NatToDecimalValue(magnitude);
  }

  // ---------------------------------------------------------------------
  // Scalars
  // ---------------------------------------------------------------------

  /** A string value is read back whatever characters it holds. */
  lemma {:induction false} ParseStringLaid(str: string, s: string, a: nat)
    requires At(s, a, StringText(str))
    ensures ParseNode(s, a) == Ok((String(str), a + |StringText(str)|))
  {
    assert StringText(str) == "\"" + (Escaped(str) + "\"");
    AtSplit(s, a, "\"", Escaped(str) + "\"");
    AtIndex(s, a, "\"", 0);
    assert TokenStart(s, a) == Ok(a);
    assert ParseNode(s, a) == ParseStringFrom(s, a + 1, []);
    ParseEscaped(s, a + 1, str, []);
    assert [] + str == str;
  }

  /** A laid-out string value is read back. */
  lemma {:induction false} StringNodeLaid(n: Node, indent: nat, format: DoubleFormat, s: string, a: nat)
    requires n.String? && Laid(s, a, n, indent, format)
    ensures ParseNode(s, a) == Ok((n, a + Len(n, indent, format)))
  {
    ParseStringLaid(n.s, s, a);
  }

  /** An integer's text starts with `-` or a digit, so `LoadNode` hands it to `LoadNumber`. */
  lemma {:induction false} IntNodeLaid(n: Node, indent: nat, format: DoubleFormat, s: string, a: nat)
    requires n.Int? && Laid(s, a, n, indent, format)
    requires NumberDelimited(s, a + Len(n, indent, format))
    ensures ParseNode(s, a) == Ok((n, a + Len(n, indent, format)))
  {
    var t := IntToDecimal(n.i as int);
    assert At(s, a, t) && Len(n, indent, format) == |t|;
    AtIndex(s, a, t, 0);
    if n.i >= 0 {
      assert IsDigit(t[0]);
    }
    assert TokenStart(s, a) == Ok(a);
    assert ParseNode(s, a) == ParseNumber(s, a);
    ParseIntPrinted(s, a, n.i);
  }

  /** `null`, `true` and `false` are read back. */
  lemma {:induction false} LiteralNodeLaid(n: Node, indent: nat, format: DoubleFormat, s: string, a: nat)
    requires !n.Array? && !n.Dict? && !n.String? && !n.Int? && Printable(n) && Laid(s, a, n, indent, format)
    ensures ParseNode(s, a) == Ok((n, a + Len(n, indent, format)))
  {
    var t := ScalarText(n, format);
    assert At(s, a, t) && Len(n, indent, format) == |t|;
    AtIndex(s, a, t, 0);
    assert TokenStart(s, a) == Ok(a);
    if n.Null? {
      assert t == "n" + "ull";
      AtSplit(s, a, "n", "ull");
      ParseNullAccepts(s, a + 1);
      assert ParseNode(s, a) == ParseNull(s, a + 1);
    } else {
      ParseBoolAccepts(s, a);
      assert ParseNode(s, a) == ParseBool(s, a);
    }
  }

  // ---------------------------------------------------------------------
  // Values in their layout
  // ---------------------------------------------------------------------

  /** The first character of a laid-out printable value is where its token starts. */
  lemma {:induction false} LaidStart(n: Node, indent: nat, format: DoubleFormat, s: string, a: nat)
    requires Printable(n) && Laid(s, a, n, indent, format)
    ensures a < |s| && TokenStart(s, a) == Ok(a) && s[a] != ']' && s[a] != '}'
  {
    match n
    case Array(_) =>
    case Dict(_) =>
    case String(str) =>
      AtIndex(s, a, StringText(str), 0);
    case Int(i) =>
      var t := IntToDecimal(i as int);
      AtIndex(s, a, t, 0);
      if i >= 0 {
        assert IsDigit(t[0]);
      }
    case Null =>
      AtIndex(s, a, "null", 0);
    case Bool(b) =>
      AtIndex(s, a, ScalarText(n, format), 0);
  }

  /** Whitespace, then blanks: the loader skips both. */
  lemma {:induction false} BlankSkip(s: string, b: nat, p: nat, c: nat)
    requires Skippable(s, b, p) && p <= c && Blank(s, p, c - p)
    ensures Skippable(s, b, c)
    decreases p - b
  {
    if b == p {
      BlankSkippable(s, p, c - p);
    } else {
      BlankSkip(s, b + 1, p, c);
    }
  }

  lemma {:induction false} BlankSkippable(s: string, p: nat, k: nat)
    requires Blank(s, p, k)
    ensures Skippable(s, p, p + k)
    decreases k
  {
    if k > 0 {
      BlankSkippable(s, p + 1, k - 1);
    }
  }

  /** After a line break, the indentation and the closing bracket: the next token is that bracket. */
  lemma {:induction false} CloseToken(s: string, e: nat, indent: nat, close: char)
    requires e < |s| && s[e] == '\n' && CloseLaid(s, e + 1, indent, close)
    requires close == ']' || close == '}'
    ensures e + 1 + 4 * indent < |s| && s[e + 1 + 4 * indent] == close
    ensures TokenStart(s, e) == Ok(e + 1 + 4 * indent)
  {
    var x := e + 1 + 4 * indent;
    BlankSkip(s, e, e + 1, x);
    TokenStartSkip(s, e, x);
  }

  /** `LoadNode` reads back a printable value wherever its layout sits. */
  lemma {:induction false} ParseLaid(n: Node, indent: nat, format: DoubleFormat, s: string, a: nat)
    requires Printable(n) && Laid(s, a, n, indent, format)
    requires NumberDelimited(s, a + Len(n, indent, format))
    ensures ParseNode(s, a) == Ok((n, a + Len(n, indent, format)))
    decreases n, 3
  {
    if n.Array? {
      ParseArrayLaid(n, indent, format, s, a);
    } else if n.Dict? {
      ParseDictLaid(n, indent, format, s, a);
    } else if n.String? {
      StringNodeLaid(n, indent, format, s, a);
    } else if n.Int? {
      IntNodeLaid(n, indent, format, s, a);
    } else {
      LiteralNodeLaid(n, indent, format, s, a);
    }
  }

  /** After a line break and the indentation, a line's value is the next token and reads back. */
  lemma {:induction false} ParseLineValue(n: Node, indent: nat, format: DoubleFormat, s: string, b: nat, c: nat, e: nat,
                                          comma: bool)
    requires Printable(n)
    requires b < c <= |s| && s[b] == '\n' && Blank(s, b + 1, c - b - 1)
    requires Laid(s, c, n, indent, format) && e == c + Len(n, indent, format) && LineEnd(s, e, comma)
    ensures TokenStart(s, b) == Ok(c) && s[c] != ']' && s[c] != '}'
    ensures ParseNode(s, b) == Ok((n, e))
    decreases n, 4
  {
    LaidStart(n, indent, format, s, c);
    LineStartSkip(s, b, c);
    TokenStartSkip(s, b, c);
    ParseNodeSkip(s, b, c);
    LineEndDelimits(s, e, comma);
    ParseLaid(n, indent, format, s, c);
  }

  /** A line break and the indentation after it are whitespace the loader skips. */
  lemma {:induction false} LineStartSkip(s: string, b: nat, c: nat)
    requires b < c <= |s| && s[b] == '\n' && Blank(s, b + 1, c - b - 1)
    ensures Skippable(s, b, c)
  {
    assert Skippable(s, b + 1, b + 1);
    BlankSkip(s, b, b + 1, c);
  }

  /** The end of a line also ends a number. */
  lemma {:induction false} LineEndDelimits(s: string, e: nat, comma: bool)
    requires LineEnd(s, e, comma)
    ensures NumberDelimited(s, e)
  {
  }

  // ---------------------------------------------------------------------
  // Arrays
  // ---------------------------------------------------------------------

  /** An array's text starts with `[`, so `LoadNode` hands it to `LoadArray`. */
  lemma {:induction false} ParseArrayLaid(n: Node, indent: nat, format: DoubleFormat, s: string, a: nat)
    requires n.Array? && Printable(n) && Laid(s, a, n, indent, format)
    ensures ParseNode(s, a) == Ok((n, a + Len(n, indent, format)))
    decreases n, 2
  {
    assert TokenStart(s, a) == Ok(a);
    assert ParseNode(s, a) == ParseArray(s, a + 1);
    ParseArrayBody(n, n.items, indent, format, s, a + 1);
  }

  /** `LoadArray` after the `[`: the line break, the element lines and the closing bracket. */
  lemma {:induction false} ParseArrayBody(parent: Node, items: seq<Node>, indent: nat, format: DoubleFormat, s: string, b: nat)
    requires parent == Array(items) && Printable(parent)
    requires b < |s| && s[b] == '\n' && ItemsLaid(s, b + 1, parent, items, 0, indent, format)
    ensures ParseArray(s, b) == Ok((parent, b + 1 + ItemsLen(parent, items, 0, indent, format) + 4 * indent + 1))
    decreases parent, 1
  {
    if |items| == 0 {
      EmptyArrayBody(parent, indent, format, s, b);
    } else {
      ParseItemsLaid(parent, items, 0, indent, format, s, b, b + 1 + ItemsLen(parent, items, 0, indent, format) + 4 * indent + 1);
      assert items[..0] == [];
      ArrayOpens(s, b, b + 1 + 4 * (indent + 1));
    }
  }

  lemma {:induction false} EmptyArrayBody(parent: Node, indent: nat, format: DoubleFormat, s: string, b: nat)
    requires parent == Array([])
    requires b < |s| && s[b] == '\n' && ItemsLaid(s, b + 1, parent, [], 0, indent, format)
    ensures ParseArray(s, b) == Ok((parent, b + 1 + 4 * indent + 1))
  {
    CloseToken(s, b, indent, ']');
  }

  /** `LoadArray` reads the element lines from the `i`-th on, which follow the line break at `b`, after the elements before it. */
  lemma {:induction false} ParseItemsLaid(parent: Node, items: seq<Node>, i: nat, indent: nat, format: DoubleFormat,
                                          s: string, b: nat, end: nat)
    requires parent == Array(items) && Printable(parent) && i < |items|
    requires b < |s| && s[b] == '\n' && ItemsLaid(s, b + 1, parent, items, i, indent, format)
    requires end == b + 1 + ItemsLen(parent, items, i, indent, format) + 4 * indent + 1
    ensures TokenStart(s, b) == Ok(b + 1 + 4 * (indent + 1)) && s[b + 1 + 4 * (indent + 1)] != ']'
    ensures ParseItems(s, b, items[..i]) == Ok((parent, end))
    decreases parent, 0, |items| - i
  {
    if i < |items| - 1 {
      var next := ItemStepLaid(parent, items, i, indent, format, s, b, end);
      ItemStep(parent, items, i, indent, format, s, b, next);
      ParseItemsLaid(parent, items, i + 1, indent, format, s, next, end);
    } else {
      ItemFinal(parent, items, i, indent, format, s, b, end);
    }
  }

  /** An element line followed by a comma: `LoadArray` reads it and goes on after the comma. */
  lemma {:induction false} ItemStep(parent: Node, items: seq<Node>, i: nat, indent: nat, format: DoubleFormat,
                                    s: string, b: nat, next: nat)
    requires parent == Array(items) && Printable(parent) && i < |items| - 1
    requires b < |s| && s[b] == '\n' && ItemsLaid(s, b + 1, parent, items, i, indent, format)
    requires next == b + 1 + 4 * (indent + 1) + Len(items[i], indent + 1, format) + 1
    ensures TokenStart(s, b) == Ok(b + 1 + 4 * (indent + 1)) && s[b + 1 + 4 * (indent + 1)] != ']'
    ensures ParseItems(s, b, items[..i]) == ParseItems(s, next, items[..i + 1])
    decreases parent, 0, |items| - i, 2
  {
    var p := b + 1;
    var c := p + 4 * (indent + 1);
    var e := c + Len(items[i], indent + 1, format);
    ItemsLaidStep(s, p, parent, items, i, indent, format, c, e, e + 2);
    ItemLineNext(items, i, indent, format, s, b, c, e);
  }

  /** The lines after an element line that ends in a comma start after its line break, and are that much shorter. */
  lemma {:induction false} ItemStepLaid(parent: Node, items: seq<Node>, i: nat, indent: nat, format: DoubleFormat,
                                        s: string, b: nat, end: nat) returns (next: nat)
    requires parent == Array(items) && i < |items| - 1
    requires b < |s| && s[b] == '\n' && ItemsLaid(s, b + 1, parent, items, i, indent, format)
    requires end == b + 1 + ItemsLen(parent, items, i, indent, format) + 4 * indent + 1
    ensures next == b + 1 + 4 * (indent + 1) + Len(items[i], indent + 1, format) + 1
    ensures b < next < |s| && s[next] == '\n' && ItemsLaid(s, next + 1, parent, items, i + 1, indent, format)
    ensures end == next + 1 + ItemsLen(parent, items, i + 1, indent, format) + 4 * indent + 1
  {
    var c := b + 1 + 4 * (indent + 1);
    var e := c + Len(items[i], indent + 1, format);
    ItemsLaidStep(s, b + 1, parent, items, i, indent, format, c, e, e + 2);
    next := e + 1;
  }

  /** An element line that ends in a comma: `LoadArray` reads the element and goes on after the comma. */
  lemma {:induction false} ItemLineNext(items: seq<Node>, i: nat, indent: nat, format: DoubleFormat,
                                        s: string, b: nat, c: nat, e: nat)
    requires i < |items| && Printable(items[i])
    requires b < c <= |s| && s[b] == '\n' && Blank(s, b + 1, c - b - 1)
    requires Laid(s, c, items[i], indent + 1, format) && e == c + Len(items[i], indent + 1, format)
    requires LineEnd(s, e, true)
    ensures TokenStart(s, b) == Ok(c) && s[c] != ']'
    ensures ParseItems(s, b, items[..i]) == ParseItems(s, e + 1, items[..i + 1])
    decreases items[i], 5
  {
    ParseLineValue(items[i], indent + 1, format, s, b, c, e, true);
    ItemsNext(Array(items), items, i, s, b, e);
  }

  /** The last element line and the closing bracket: `LoadArray` returns all the elements. */
  lemma {:induction false} ItemFinal(parent: Node, items: seq<Node>, i: nat, indent: nat, format: DoubleFormat,
                                     s: string, b: nat, end: nat)
    requires parent == Array(items) && Printable(parent) && i == |items| - 1
    requires b < |s| && s[b] == '\n' && ItemsLaid(s, b + 1, parent, items, i, indent, format)
    requires end == b + 1 + ItemsLen(parent, items, i, indent, format) + 4 * indent + 1
    ensures TokenStart(s, b) == Ok(b + 1 + 4 * (indent + 1)) && s[b + 1 + 4 * (indent + 1)] != ']'
    ensures ParseItems(s, b, items[..i]) == Ok((parent, end))
    decreases parent, 0, |items| - i, 2
  {
    var p := b + 1;
    var c := p + 4 * (indent + 1);
    var e := c + Len(items[i], indent + 1, format);
    ItemsLaidStep(s, p, parent, items, i, indent, format, c, e, e + 1);
    ItemLineLast(items, i, indent, format, s, b, c, e);
  }

  /** The last element line: `LoadArray` reads the element, then the closing bracket. */
  lemma {:induction false} ItemLineLast(items: seq<Node>, i: nat, indent: nat, format: DoubleFormat,
                                        s: string, b: nat, c: nat, e: nat)
    requires i == |items| - 1 && Printable(items[i])
    requires b < c <= |s| && s[b] == '\n' && Blank(s, b + 1, c - b - 1)
    requires Laid(s, c, items[i], indent + 1, format) && e == c + Len(items[i], indent + 1, format)
    requires LineEnd(s, e, false) && CloseLaid(s, e + 1, indent, ']')
    ensures TokenStart(s, b) == Ok(c) && s[c] != ']'
    ensures ParseItems(s, b, items[..i]) == Ok((Array(items), e + 1 + 4 * indent + 1))
    decreases items[i], 5
  {
    ParseLineValue(items[i], indent + 1, format, s, b, c, e, false);
    ItemsClose(items, i, indent, s, b, e);
  }

  /** The last element, its line break and the closing line: `LoadArray` returns all the elements. */
  lemma {:induction false} ItemsClose(items: seq<Node>, i: nat, indent: nat, s: string, b: nat, e: nat)
    requires i == |items| - 1
    requires b <= e < |s| && ParseNode(s, b) == Ok((items[i], e))
    requires s[e] == '\n' && CloseLaid(s, e + 1, indent, ']')
    ensures ParseItems(s, b, items[..i]) == Ok((Array(items), e + 1 + 4 * indent + 1))
  {
    CloseToken(s, e, indent, ']');
    ItemsLast(Array(items), items, i, s, b, e, e + 1 + 4 * indent);
  }

  /** An array that does not close at once: `LoadArray` reads elements from where it stands, skipping the whitespace before the first. */
  lemma {:induction false} ArrayOpens(s: string, b: nat, p: nat)
    requires b <= p < |s| && TokenStart(s, b) == Ok(p) && s[p] != ']'
    ensures ParseArray(s, b) == ParseItems(s, b, [])
  {
    assert TokenStart(s, p) == Ok(p);
    assert ParseNode(s, b) == ParseNode(s, p);
  }

  /** After the `i`-th element and a comma, `LoadArray` goes on with the next element. */
  lemma {:induction false} ItemsNext(parent: Node, items: seq<Node>, i: nat, s: string, b: nat, e: nat)
    requires parent == Array(items) && i < |items|
    requires b <= e < |s| && ParseNode(s, b) == Ok((items[i], e)) && s[e] == ','
    ensures ParseItems(s, b, items[..i]) == ParseItems(s, e + 1, items[..i + 1])
  {
    assert items[..i] + [items[i]] == items[..i + 1];
    assert TokenStart(s, e) == Ok(e);
  }

  /** After the last element and the closing bracket, `LoadArray` returns all the elements. */
  lemma {:induction false} ItemsLast(parent: Node, items: seq<Node>, i: nat, s: string, b: nat, e: nat, x: nat)
    requires parent == Array(items) && i == |items| - 1
    requires b <= e <= x < |s| && ParseNode(s, b) == Ok((items[i], e)) && TokenStart(s, e) == Ok(x) && s[x] == ']'
    ensures ParseItems(s, b, items[..i]) == Ok((parent, x + 1))
  {
    assert items[..i] + [items[i]] == items;
  }

  // ---------------------------------------------------------------------
  // Objects
  // ---------------------------------------------------------------------

  /** An object's text starts with `{`, so `LoadNode` hands it to `LoadDict`. */
  lemma {:induction false} ParseDictLaid(n: Node, indent: nat, format: DoubleFormat, s: string, a: nat)
    requires n.Dict? && Printable(n) && Laid(s, a, n, indent, format)
    ensures ParseNode(s, a) == Ok((n, a + Len(n, indent, format)))
    decreases n, 2
  {
    assert TokenStart(s, a) == Ok(a);
    assert ParseNode(s, a) == ParseDict(s, a + 1);
    ParseDictBody(n, n.entries, indent, format, s, a + 1);
  }

  /** `LoadDict` after the `{`: the line break, the member lines and the closing brace. */
  lemma {:induction false} ParseDictBody(parent: Node, entries: seq<(string, Node)>, indent: nat, format: DoubleFormat,
                                         s: string, b: nat)
    requires parent == Dict(entries) && Printable(parent)
    requires b < |s| && s[b] == '\n' && MembersLaid(s, b + 1, parent, entries, 0, indent, format)
    ensures ParseDict(s, b) == Ok((parent, b + 1 + MembersLen(parent, entries, 0, indent, format) + 4 * indent + 1))
    decreases parent, 1
  {
    if |entries| == 0 {
      EmptyDictBody(parent, indent, format, s, b);
    } else {
      DictMembersPrintable(parent, entries);
      SortedEmplacesInOrder(entries);
      DictLines(parent, entries, indent, format, s, b, b + 1 + MembersLen(parent, entries, 0, indent, format) + 4 * indent + 1);
    }
  }

  /** The entries of a printable object are sorted, and their keys and values printable. */
  lemma {:induction false} DictMembersPrintable(parent: Node, entries: seq<(string, Node)>)
    requires parent == Dict(entries) && Printable(parent)
    ensures Sorted(entries) && PrintableMembers(entries)
  {
  }

  /** `LoadDict` after the `{` of an object with members: the member lines and the closing brace. */
  lemma {:induction false} DictLines(parent: Node, entries: seq<(string, Node)>, indent: nat, format: DoubleFormat,
                                     s: string, b: nat, end: nat)
    requires parent == Dict(entries) && PrintableMembers(entries) && EmplacesInOrder(entries) && 0 < |entries|
    requires b < |s| && s[b] == '\n' && MembersLaid(s, b + 1, parent, entries, 0, indent, format)
    requires end == b + 1 + MembersLen(parent, entries, 0, indent, format) + 4 * indent + 1
    ensures ParseDict(s, b) == Ok((parent, end))
    decreases parent, 0, |entries| + 1
  {
    ParseMembersLaid(parent, entries, 0, indent, format, s, b, end);
    assert entries[..0] == [];
    DictOpens(s, b, b + 1 + 4 * (indent + 1));
  }

  lemma {:induction false} EmptyDictBody(parent: Node, indent: nat, format: DoubleFormat, s: string, b: nat)
    requires parent == Dict([])
    requires b < |s| && s[b] == '\n' && MembersLaid(s, b + 1, parent, [], 0, indent, format)
    ensures ParseDict(s, b) == Ok((parent, b + 1 + 4 * indent + 1))
  {
    CloseToken(s, b, indent, '}');
  }

  /** Emplacing the `i`-th entry of an object in key order after the entries before it appends it. */
  lemma {:induction false} EntriesPrefix(entries: seq<(string, Node)>, i: nat)
    requires i < |entries| && Sorted(entries)
    ensures Emplace(entries[..i], entries[i].0, entries[i].1) == entries[..i + 1]
  {
    assert entries[..i] + [entries[i]] == entries[..i + 1];
    SortedPrefix(entries, i + 1);
    EmplaceGreatest(entries[..i], entries[i].0, entries[i].1);
  }

  /** The keys and values of an object's members are printable. */
  predicate PrintableMembers(entries: seq<(string, Node)>) {
    forall k :: 0 <= k < |entries| ==> PlainKey(entries[k].0) && Printable(entries[k].1)
  }

  /** Emplacing each member after the ones before it appends it. */
  predicate EmplacesInOrder(entries: seq<(string, Node)>) {
    forall i {:trigger Emplace(entries[..i], entries[i].0, entries[i].1)} :: 0 <= i < |entries| ==> Emplace(entries[..i], entries[i].0, entries[i].1) == entries[..i + 1]
  }

  lemma {:induction false} SortedEmplacesInOrder(entries: seq<(string, Node)>)
    requires Sorted(entries)
    ensures EmplacesInOrder(entries)
  {
    forall i | 0 <= i < |entries|
      ensures Emplace(entries[..i], entries[i].0, entries[i].1) == entries[..i + 1]
    {
      EntriesPrefix(entries, i);
    }
  }

  /** `LoadDict` reads the member lines from the `i`-th on, which follow the line break at `b`, after the members before it. */
  lemma {:induction false} ParseMembersLaid(parent: Node, entries: seq<(string, Node)>, i: nat, indent: nat,
                                            format: DoubleFormat, s: string, b: nat, end: nat)
    requires parent == Dict(entries) && PrintableMembers(entries) && EmplacesInOrder(entries) && i < |entries|
    requires b < |s| && s[b] == '\n' && MembersLaid(s, b + 1, parent, entries, i, indent, format)
    requires end == b + 1 + MembersLen(parent, entries, i, indent, format) + 4 * indent + 1
    ensures TokenStart(s, b) == Ok(b + 1 + 4 * (indent + 1)) && s[b + 1 + 4 * (indent + 1)] != '}'
    ensures ParseMembers(s, b, entries[..i]) == Ok((parent, end))
    decreases parent, 0, |entries| - i
  {
    if i < |entries| - 1 {
      var next := MemberStepLaid(parent, entries, i, indent, format, s, b, end);
      MemberStep(parent, entries, i, indent, format, s, b, next);
      ParseMembersLaid(parent, entries, i + 1, indent, format, s, next, end);
    } else {
      MemberFinal(parent, entries, i, indent, format, s, b, end);
    }
  }

  /** A member line followed by a comma: `LoadDict` reads it and goes on after the comma. */
  lemma {:induction false} MemberStep(parent: Node, entries: seq<(string, Node)>, i: nat, indent: nat,
                                      format: DoubleFormat, s: string, b: nat, next: nat)
    requires parent == Dict(entries) && PrintableMembers(entries) && EmplacesInOrder(entries) && i < |entries| - 1
    requires b < |s| && s[b] == '\n' && MembersLaid(s, b + 1, parent, entries, i, indent, format)
    requires next == b + 1 + 4 * (indent + 1) + |entries[i].0| + 4 + Len(entries[i].1, indent + 1, format) + 1
    ensures TokenStart(s, b) == Ok(b + 1 + 4 * (indent + 1)) && s[b + 1 + 4 * (indent + 1)] != '}'
    ensures ParseMembers(s, b, entries[..i]) == ParseMembers(s, next, entries[..i + 1])
    decreases parent, 0, |entries| - i, 2
  {
    var p := b + 1;
    var c := p + 4 * (indent + 1);
    var v := c + |entries[i].0| + 4;
    var e := v + Len(entries[i].1, indent + 1, format);
    MembersLaidStep(s, p, parent, entries, i, indent, format, v, e, e + 2);
    MemberLineNext(entries, i, indent, format, s, b, c, v, e);
  }

  /** The lines after a member line that ends in a comma start after its line break, and are that much shorter. */
  lemma {:induction false} MemberStepLaid(parent: Node, entries: seq<(string, Node)>, i: nat, indent: nat,
                                          format: DoubleFormat, s: string, b: nat, end: nat) returns (next: nat)
    requires parent == Dict(entries) && i < |entries| - 1
    requires b < |s| && s[b] == '\n' && MembersLaid(s, b + 1, parent, entries, i, indent, format)
    requires end == b + 1 + MembersLen(parent, entries, i, indent, format) + 4 * indent + 1
    ensures next == b + 1 + 4 * (indent + 1) + |entries[i].0| + 4 + Len(entries[i].1, indent + 1, format) + 1
    ensures b < next < |s| && s[next] == '\n' && MembersLaid(s, next + 1, parent, entries, i + 1, indent, format)
    ensures end == next + 1 + MembersLen(parent, entries, i + 1, indent, format) + 4 * indent + 1
  {
    var v := b + 1 + 4 * (indent + 1) + |entries[i].0| + 4;
    var e := v + Len(entries[i].1, indent + 1, format);
    MembersLaidStep(s, b + 1, parent, entries, i, indent, format, v, e, e + 2);
    next := e + 1;
  }

  /** A member line that ends in a comma: `LoadDict` reads the member and goes on after the comma. */
  lemma {:induction false} MemberLineNext(entries: seq<(string, Node)>, i: nat, indent: nat, format: DoubleFormat,
                                          s: string, b: nat, c: nat, v: nat, e: nat)
    requires PrintableMembers(entries) && EmplacesInOrder(entries) && i < |entries|
    requires b < c <= |s| && s[b] == '\n' && Blank(s, b + 1, c - b - 1)
    requires At(s, c, "\"" + entries[i].0 + "\": ") && v == c + |entries[i].0| + 4
    requires Laid(s, v, entries[i].1, indent + 1, format) && e == v + Len(entries[i].1, indent + 1, format)
    requires LineEnd(s, e, true)
    ensures TokenStart(s, b) == Ok(c) && s[c] != '}'
    ensures ParseMembers(s, b, entries[..i]) == ParseMembers(s, e + 1, entries[..i + 1])
    decreases entries[i].1, 6
  {
    ParseMemberLine(entries[i].0, entries[i].1, indent + 1, format, s, b, c, v, e, true, entries[..i]);
    assert Emplace(entries[..i], entries[i].0, entries[i].1) == entries[..i + 1];
    MembersNext(Dict(entries), entries, i, s, b, e);
  }

  /** The last member line and the closing brace: `LoadDict` returns all the members. */
  lemma {:induction false} MemberFinal(parent: Node, entries: seq<(string, Node)>, i: nat, indent: nat,
                                       format: DoubleFormat, s: string, b: nat, end: nat)
    requires parent == Dict(entries) && PrintableMembers(entries) && EmplacesInOrder(entries) && i == |entries| - 1
    requires b < |s| && s[b] == '\n' && MembersLaid(s, b + 1, parent, entries, i, indent, format)
    requires end == b + 1 + MembersLen(parent, entries, i, indent, format) + 4 * indent + 1
    ensures TokenStart(s, b) == Ok(b + 1 + 4 * (indent + 1)) && s[b + 1 + 4 * (indent + 1)] != '}'
    ensures ParseMembers(s, b, entries[..i]) == Ok((parent, end))
    decreases parent, 0, |entries| - i, 2
  {
    var p := b + 1;
    var c := p + 4 * (indent + 1);
    var v := c + |entries[i].0| + 4;
    var e := v + Len(entries[i].1, indent + 1, format);
    MembersLaidStep(s, p, parent, entries, i, indent, format, v, e, e + 1);
    MemberLineLast(entries, i, indent, format, s, b, c, v, e);
  }

  /** The last member line and the closing brace: `LoadDict` returns all the members. */
  lemma {:induction false} MemberLineLast(entries: seq<(string, Node)>, i: nat, indent: nat, format: DoubleFormat,
                                          s: string, b: nat, c: nat, v: nat, e: nat)
    requires PrintableMembers(entries) && EmplacesInOrder(entries) && i == |entries| - 1
    requires b < c <= |s| && s[b] == '\n' && Blank(s, b + 1, c - b - 1)
    requires At(s, c, "\"" + entries[i].0 + "\": ") && v == c + |entries[i].0| + 4
    requires Laid(s, v, entries[i].1, indent + 1, format) && e == v + Len(entries[i].1, indent + 1, format)
    requires LineEnd(s, e, false) && CloseLaid(s, e + 1, indent, '}')
    ensures TokenStart(s, b) == Ok(c) && s[c] != '}'
    ensures ParseMembers(s, b, entries[..i]) == Ok((Dict(entries), e + 1 + 4 * indent + 1))
    decreases entries[i].1, 6
  {
    ParseMemberLine(entries[i].0, entries[i].1, indent + 1, format, s, b, c, v, e, false, entries[..i]);
    assert Emplace(entries[..i], entries[i].0, entries[i].1) == entries[..i + 1];
    MembersClose(entries, i, indent, s, b, e);
  }

  /** The last member, its line break and the closing line: `LoadDict` returns all the members. */
  lemma {:induction false} MembersClose(entries: seq<(string, Node)>, i: nat, indent: nat, s: string, b: nat, e: nat)
    requires i == |entries| - 1
    requires b <= e < |s| && ParseMember(s, b, entries[..i]) == Ok((entries[..i + 1], e))
    requires s[e] == '\n' && CloseLaid(s, e + 1, indent, '}')
    ensures ParseMembers(s, b, entries[..i]) == Ok((Dict(entries), e + 1 + 4 * indent + 1))
  {
    CloseToken(s, e, indent, '}');
    MembersLast(Dict(entries), entries, i, s, b, e, e + 1 + 4 * indent);
  }

  /** A key written as it is, then `": "`: its string token, the colon and the space. */
  lemma {:induction false} KeyLaid(key: string, s: string, c: nat)
    requires PlainKey(key) && At(s, c, "\"" + key + "\": ")
    ensures s[c] == '"' && ParseNode(s, c) == Ok((String(key), c + |key| + 2))
    ensures s[c + |key| + 2] == ':' && s[c + |key| + 3] == ' '
  {
    PlainEscaped(key);
    assert "\"" + key + "\": " == StringText(key) + ": ";
    AtSplit(s, c, StringText(key), ": ");
    AtIndex(s, c, StringText(key), 0);
    AtIndex(s, c + |key| + 2, ": ", 0);
    AtIndex(s, c + |key| + 2, ": ", 1);
    ParseStringLaid(key, s, c);
  }

  /** The space after a key's colon is whitespace the loader skips. */
  lemma {:induction false} KeySpace(key: string, s: string, c: nat)
    requires PlainKey(key) && At(s, c, "\"" + key + "\": ")
    ensures Skippable(s, c + |key| + 3, c + |key| + 4)
  {
    KeyLaid(key, s, c);
    assert Skippable(s, c + |key| + 4, c + |key| + 4);
  }

  /** After a line break and the indentation, one member line reads back as that member emplaced. */
  lemma {:induction false} ParseMemberLine(key: string, value: Node, indent: nat, format: DoubleFormat, s: string,
                                           b: nat, c: nat, v: nat, e: nat, comma: bool, acc: seq<(string, Node)>)
    requires PlainKey(key) && Printable(value)
    requires b < c <= |s| && s[b] == '\n' && Blank(s, b + 1, c - b - 1)
    requires At(s, c, "\"" + key + "\": ") && v == c + |key| + 4
    requires Laid(s, v, value, indent, format) && e == v + Len(value, indent, format) && LineEnd(s, e, comma)
    ensures TokenStart(s, b) == Ok(c) && s[c] == '"'
    ensures ParseMember(s, b, acc) == Ok((Emplace(acc, key, value), e))
    decreases value, 5
  {
    KeySpace(key, s, c);
    MemberValueLine(value, indent, format, s, c + |key| + 3, v, comma);
    MemberKeyThenValue(key, value, s, b, c, e, acc);
  }

  /** A member line whose value is read up to `e`: the key, the colon, then that value. */
  lemma {:induction false} MemberKeyThenValue(key: string, value: Node, s: string, b: nat, c: nat, e: nat,
                                              acc: seq<(string, Node)>)
    requires PlainKey(key)
    requires b < c <= |s| && s[b] == '\n' && Blank(s, b + 1, c - b - 1)
    requires At(s, c, "\"" + key + "\": ")
    requires c + |key| + 3 <= |s| && ParseNode(s, c + |key| + 3) == Ok((value, e))
    ensures TokenStart(s, b) == Ok(c) && s[c] == '"'
    ensures ParseMember(s, b, acc) == Ok((Emplace(acc, key, value), e))
  {
    MemberKeyLine(key, s, b, c);
    MemberFromParts(s, b, c + |key| + 2, e, key, value, acc);
  }

  /** The line break, the indentation and the key of a member line: the key's token, then the colon. */
  lemma {:induction false} MemberKeyLine(key: string, s: string, b: nat, c: nat)
    requires PlainKey(key)
    requires b < c <= |s| && s[b] == '\n' && Blank(s, b + 1, c - b - 1)
    requires At(s, c, "\"" + key + "\": ")
    ensures TokenStart(s, b) == Ok(c) && s[c] == '"'
    ensures ParseNode(s, b) == Ok((String(key), c + |key| + 2))
    ensures TokenStart(s, c + |key| + 2) == Ok(c + |key| + 2) && s[c + |key| + 2] == ':'
  {
    KeyLaid(key, s, c);
    BlankSkip(s, b, b + 1, c);
    TokenStartSkip(s, b, c);
    ParseNodeSkip(s, b, c);
    var colon := c + |key| + 2;
    assert TokenStart(s, colon) == Ok(colon);
  }

  /** The space after the colon and the value of a member line: the value is read back. */
  lemma {:induction false} MemberValueLine(value: Node, indent: nat, format: DoubleFormat, s: string, a: nat, v: nat,
                                           comma: bool)
    requires Printable(value) && Skippable(s, a, v)
    requires Laid(s, v, value, indent, format) && LineEnd(s, v + Len(value, indent, format), comma)
    ensures ParseNode(s, a) == Ok((value, v + Len(value, indent, format)))
    decreases value, 4
  {
    ParseNodeSkip(s, a, v);
    ParseLaid(value, indent, format, s, v);
  }

  /** `LoadDict`'s step for one member, given where its key, colon and value were read. */
  lemma {:induction false} MemberFromParts(s: string, b: nat, colon: nat, e: nat, key: string, value: Node,
                                           acc: seq<(string, Node)>)
    requires b <= colon < |s|
    requires ParseNode(s, b) == Ok((String(key), colon))
    requires TokenStart(s, colon) == Ok(colon) && s[colon] == ':'
    requires ParseNode(s, colon + 1) == Ok((value, e))
    ensures ParseMember(s, b, acc) == Ok((Emplace(acc, key, value), e))
  {
  }

  /** An object that does not close at once: `LoadDict` reads members from where it stands, skipping the whitespace before the first. */
  lemma {:induction false} DictOpens(s: string, b: nat, p: nat)
    requires b <= p < |s| && TokenStart(s, b) == Ok(p) && s[p] != '}'
    ensures ParseDict(s, b) == ParseMembers(s, b, [])
  {
    assert TokenStart(s, p) == Ok(p);
    assert ParseNode(s, b) == ParseNode(s, p);
    assert ParseMember(s, b, []) == ParseMember(s, p, []);
  }

  /** After the `i`-th member and a comma, `LoadDict` goes on with the next member. */
  lemma {:induction false} MembersNext(parent: Node, entries: seq<(string, Node)>, i: nat, s: string, b: nat, e: nat)
    requires parent == Dict(entries) && i < |entries|
    requires b <= e < |s| && ParseMember(s, b, entries[..i]) == Ok((entries[..i + 1], e)) && s[e] == ','
    ensures ParseMembers(s, b, entries[..i]) == ParseMembers(s, e + 1, entries[..i + 1])
  {
    assert TokenStart(s, e) == Ok(e);
  }

  /** After the last member and the closing brace, `LoadDict` returns all the members. */
  lemma {:induction false} MembersLast(parent: Node, entries: seq<(string, Node)>, i: nat, s: string, b: nat, e: nat,
                                       x: nat)
    requires parent == Dict(entries) && i == |entries| - 1
    requires b <= e <= x < |s| && ParseMember(s, b, entries[..i]) == Ok((entries[..i + 1], e))
    requires TokenStart(s, e) == Ok(x) && s[x] == '}'
    ensures ParseMembers(s, b, entries[..i]) == Ok((parent, x + 1))
  {
    assert entries[..i + 1] == entries;
  }

  lemma {:induction false} SortedPrefix(entries: seq<(string, Node)>, j: nat)
    requires Sorted(entries) && j <= |entries|
    ensures Sorted(entries[..j])
  {
    var p := entries[..j];
    forall x, y | 0 <= x < y < |p|
      ensures Less(p[x].0, p[y].0)
    {
      assert p[x] == entries[x] && p[y] == entries[y];
    }
  }

  // ---------------------------------------------------------------------
  // The round trip
  // ---------------------------------------------------------------------

  /** `Load(Print(doc)) == doc` for every document whose tree is printable. */
  lemma {:induction false} PrintLoadRoundTrip(doc: Document, format: DoubleFormat)
    requires Printable(doc.root)
    ensures Load(DocumentText(doc, format)) == Ok(doc)
  {
    var s := DocumentText(doc, format);
    AtWhole(s);
    LaidPrinted(doc.root, 0, format, s, 0);
    ParseLaid(doc.root, 0, format, s, 0);
  }
}
