/**
 * The loader as the source writes it: a cursor moved through the text by
 * loops that accumulate characters, digits and elements, and recursive
 * calls for nested values. Every method is proved to return exactly what
 * the grammar in module JsonParse prescribes; the stream is the text `s`
 * and the cursor `pos`, and `putback` is not moving the cursor.
 */
module JsonLoad {
  import opened Wrappers
  import opened Decimal
  import Text
  import opened JsonNode
  import opened JsonParse

  /** `MoveToToken`: the `read_char` loop that skips whitespace and escaped whitespace. */
  method MoveToToken(s: string, pos: nat) returns (r: Result<nat, ParseError>)
    requires pos <= |s|
    ensures r == TokenStart(s, pos)
  {
    var i := pos;
    var c := ' ';
    while IsWhitespace(c)
      invariant pos <= i <= |s|
      invariant IsWhitespace(c) ==> TokenStart(s, i) == TokenStart(s, pos)
      invariant !IsWhitespace(c) ==> pos < i && c == s[i - 1] && c != '\\' && TokenStart(s, pos) == Ok(i - 1)
      decreases |s| - i, if IsWhitespace(c) then 1 else 0
    {
      if i == |s| {
        return Err(ReadFailure);
      }
      c := s[i];
      i := i + 1;
      if c == '\\' {
        if i == |s| {
          return Err(ReadFailure);
        }
        c := s[i];
        i := i + 1;
        if c == 't' {
          c := '\t';
        } else if c == 'n' {
          c := '\n';
        } else if c == 'r' {
          c := '\r';
        } else if IsWhitespace(c) {
          i := i - 1;
        } else {
          return Err(StrayBackslash(c));
        }
      }
    }
    return Ok(i - 1);
  }

  /** `read_digits`: at least one digit, then every digit that follows. */
  method ReadDigits(s: string, pos: nat) returns (r: Result<nat, ParseError>)
    requires pos <= |s|
    ensures r == Digits(s, pos)
  {
    if !(pos < |s| && IsDigit(s[pos])) {
      return Err(DigitExpected);
    }
    var i := pos;
    while i < |s| && IsDigit(s[i])
      invariant pos <= i <= |s|
      invariant DigitRunEnd(s, i) == DigitRunEnd(s, pos)
    {
      i := i + 1;
    }
    return Ok(i);
  }

  /** The integer part of `LoadNumber`: a lone `0`, or `read_digits`. */
  method ReadIntegerPart(s: string, pos: nat) returns (r: Result<nat, ParseError>)
    requires pos <= |s|
    ensures r == IntegerPart(s, pos)
  {
    if pos < |s| && s[pos] == '0' {
      return Ok(pos + 1);
    }
    r := ReadDigits(s, pos);
  }

  /** The fraction of `LoadNumber`: if a `.` follows, `read_digits` after it. */
  method ReadFraction(s: string, pos: nat) returns (r: Result<nat, ParseError>)
    requires pos <= |s|
    ensures r == FractionPart(s, pos)
  {
    if pos < |s| && s[pos] == '.' {
      r := ReadDigits(s, pos + 1);
    } else {
      r := Ok(pos);
    }
  }

  /** The exponent of `LoadNumber`: if `e` or `E` follows, an optional sign and `read_digits`. */
  method ReadExponent(s: string, pos: nat) returns (r: Result<nat, ParseError>)
    requires pos <= |s|
    ensures r == ExponentPart(s, pos)
  {
    if pos < |s| && (s[pos] == 'e' || s[pos] == 'E') {
      var start := pos + 1;
      if pos + 1 < |s| && (s[pos + 1] == '+' || s[pos + 1] == '-') {
        start := pos + 2;
      }
      r := ReadDigits(s, start);
    } else {
      r := Ok(pos);
    }
  }

  /** `LoadNumber`, with the cursor on the `-` or the first digit. */
  method LoadNumber(s: string, pos: nat) returns (r: Parsed)
    requires pos <= |s|
    ensures r == ParseNumber(s, pos)
  {
    var negative := pos < |s| && s[pos] == '-';
    var p1 := if negative then pos + 1 else pos;
    var p2 :- ReadIntegerPart(s, p1);
    var p3 :- ReadFraction(s, p2);
    var p4 :- ReadExponent(s, p3);
    return Ok((NumeralNode(s, p1, p2, p3, p4, negative), p4));
  }

  /** `LoadString`, after the opening quote: the character loop that decodes escapes. */
  method LoadString(s: string, pos: nat) returns (r: Parsed)
    requires pos <= |s|
    ensures r == ParseStringFrom(s, pos, [])
  {
    var i := pos;
    var acc: string := [];
    while true
      invariant pos <= i <= |s|
      invariant ParseStringFrom(s, i, acc) == ParseStringFrom(s, pos, [])
      decreases |s| - i
    {
      if i == |s| {
        return Err(StringNotClosed);
      }
      var ch := s[i];
      if ch == '"' {
        return Ok((String(acc), i + 1));
      } else if ch == '\\' {
        i := i + 1;
        if i == |s| {
          return Err(StringNotClosed);
        }
        var escaped := s[i];
        match Unescaped(escaped)
        case Some(c) =>
          acc := acc + [c];
        case None =>
          return Err(UnrecognizedEscape(escaped));
      } else if ch == '\n' || ch == '\r' {
        return Err(UnexpectedEndOfLine);
      } else {
        acc := acc + [ch];
      }
      i := i + 1;
    }
  }

  /** `LoadNull`, after the `n`: reads three characters and compares them with `ull`. */
  method LoadNull(s: string, pos: nat) returns (r: Parsed)
    requires pos <= |s|
    ensures r == ParseNull(s, pos)
  {
    var text: string := [];
    for i := 0 to 3
      invariant pos + i <= |s|
      invariant text == s[pos..pos + i]
    {
      if pos + i == |s| {
        return Err(NullReadFailure);
      }
      text := text + [s[pos + i]];
    }
    Text.AtIff(s, pos, "ull");
    if text != "ull" {
      return Err(InvalidNullToken);
    }
    return Ok((Null, pos + 3));
  }

  /** `LoadBool`, at the `t` or `f`: reads `true` or `false` character by character. */
  method LoadBool(s: string, pos: nat) returns (r: Parsed)
    requires pos < |s|
    ensures r == ParseBool(s, pos)
  {
    var text: string := [s[pos]];
    var isTrue := text == "t";
    var n: nat := if isTrue then 3 else 4;
    for i := 1 to n + 1
      invariant pos + i <= |s|
      invariant text == s[pos..pos + i]
    {
      if pos + i == |s| {
        return Err(BoolReadFailure);
      }
      text := text + [s[pos + i]];
    }
    Text.AtIff(s, pos, if isTrue then "true" else "false");
    if isTrue {
      if text != "true" {
        return Err(InvalidBoolToken);
      }
      return Ok((Bool(true), pos + 4));
    } else {
      if text != "false" {
        return Err(InvalidBoolToken);
      }
      return Ok((Bool(false), pos + 5));
    }
  }

  /** `LoadNode`: skips to the next token and dispatches on its first character. */
  method LoadNode(s: string, pos: nat) returns (r: Parsed)
    requires pos <= |s|
    ensures r == ParseNode(s, pos)
    decreases |s| - pos, 0
  {
    var t := MoveToToken(s, pos);
    if t.Err? {
      return Err(t.error);
    }
    var p := t.value;
    var c := s[p];
    if c == '[' {
      r := LoadArray(s, p + 1);
    } else if c == '{' {
      r := LoadDict(s, p + 1);
    } else if c == '"' {
      r := LoadString(s, p + 1);
    } else if c == '-' || IsDigit(c) {
      r := LoadNumber(s, p);
    } else if c == 'n' {
      r := LoadNull(s, p + 1);
    } else if c == 't' || c == 'f' {
      r := LoadBool(s, p);
    } else {
      r := Err(UnknownToken);
    }
  }

  /** `LoadArray`, after the `[`: elements until `]`, each followed by `,` or `]`. */
  method LoadArray(s: string, pos: nat) returns (r: Parsed)
    requires pos <= |s|
    ensures r == ParseArray(s, pos)
    decreases |s| - pos, 2
  {
    var t := MoveToToken(s, pos);
    if t.Err? {
      return Err(t.error);
    }
    var p := t.value;
    if s[p] == ']' {
      return Ok((Array([]), p + 1));
    }
    var items: seq<Node> := [];
    while true
      invariant pos <= p <= |s|
      invariant ParseItems(s, p, items) == ParseArray(s, pos)
      decreases |s| - p
    {
      var e := LoadNode(s, p);
      if e.Err? {
        return Err(e.error);
      }
      var (v, q) := e.value;
      var d := MoveToToken(s, q);
      if d.Err? {
        return Err(d.error);
      }
      var c := s[d.value];
      if c == ',' {
        items := items + [v];
        p := d.value + 1;
      } else if c == ']' {
        return Ok((Array(items + [v]), d.value + 1));
      } else {
        return Err(ArrayDelimiterMissing);
      }
    }
  }

  /** One member of `LoadDict`'s loop: the key, which must be a string, the `:` and the value. */
  method LoadMember(s: string, pos: nat, entries: seq<(string, Node)>) returns (r: Result<(seq<(string, Node)>, nat), ParseError>)
    requires pos <= |s|
    ensures r == ParseMember(s, pos, entries)
    decreases |s| - pos, 1
  {
    var k := LoadNode(s, pos);
    if k.Err? {
      return Err(k.error);
    }
    var (key, q) := k.value;
    if !key.IsString() {
      return Err(DictKeyNotString);
    }
    var colon := MoveToToken(s, q);
    if colon.Err? {
      return Err(colon.error);
    }
    if s[colon.value] != ':' {
      return Err(DictColonMissing);
    }
    var e := LoadNode(s, colon.value + 1);
    if e.Err? {
      return Err(e.error);
    }
    var (v, q2) := e.value;
    return Ok((Emplace(entries, key.s, v), q2));
  }

  /** `LoadDict`, after the `{`: members until `}`, each followed by `,` or `}`; a repeated key keeps its first value. */
  method LoadDict(s: string, pos: nat) returns (r: Parsed)
    requires pos <= |s|
    ensures r == ParseDict(s, pos)
    decreases |s| - pos, 3
  {
    var t := MoveToToken(s, pos);
    if t.Err? {
      return Err(t.error);
    }
    var p := t.value;
    if s[p] == '}' {
      return Ok((Dict([]), p + 1));
    }
    var entries: seq<(string, Node)> := [];
    while true
      invariant pos <= p <= |s|
      invariant ParseMembers(s, p, entries) == ParseDict(s, pos)
      decreases |s| - p
    {
      var m := LoadMember(s, p, entries);
      if m.Err? {
        return Err(m.error);
      }
      var q := m.value.1;
      entries := m.value.0;
      var d := MoveToToken(s, q);
      if d.Err? {
        return Err(d.error);
      }
      var c := s[d.value];
      if c == ',' {
        p := d.value + 1;
      } else if c == '}' {
        return Ok((Dict(entries), d.value + 1));
      } else {
        return Err(DictDelimiterMissing);
      }
    }
  }

  /** `json::Load`: one value from the start of the text; the rest of the text is left unread. */
  method LoadDocument(s: string) returns (r: Result<Document, ParseError>)
    ensures r == Load(s)
  {
    var n := LoadNode(s, 0);
    if n.Err? {
      return Err(n.error);
    }
    return Ok(Document(n.value.0));
  }
}
