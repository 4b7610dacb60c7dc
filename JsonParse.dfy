/**
 * The JSON grammar the recursive-descent loader accepts, as functions over
 * the input text and a cursor. Each function reads from position `pos` and
 * returns the value read together with the position just after it, or the
 * `ParsingError` the loader throws. The loader's methods (module JsonLoad)
 * are proved to compute exactly these functions.
 */
module JsonParse {
  import opened Wrappers
  import opened Text
  import opened Decimal
  import opened JsonNode

  /** The `ParsingError`s the loader throws, one per message it uses. */
  datatype ParseError =
    | ReadFailure            // the stream ended where MoveToToken needed a character
    | StrayBackslash(c: char) // a backslash outside a string followed by neither whitespace nor t, n or r
    | DigitExpected
    | StringNotClosed
    | UnrecognizedEscape(c: char)
    | UnexpectedEndOfLine
    | NullReadFailure
    | InvalidNullToken
    | BoolReadFailure
    | InvalidBoolToken
    | ArrayDelimiterMissing
    | DictKeyNotString
    | DictColonMissing
    | DictDelimiterMissing
    | UnknownToken
  {
    function Message(): string {
      match this
      case ReadFailure => "Failed to read number from stream"
      case StrayBackslash(c) => "Unexpected character after backslash"
      case DigitExpected => "A digit is expected"
      case StringNotClosed => "String parsing error"
      case UnrecognizedEscape(c) => "Unrecognized escape sequence \\" + [c]
      case UnexpectedEndOfLine => "Unexpected end of line"
      case NullReadFailure => "Failed to read null from stream"
      case InvalidNullToken => "Invalid null token"
      case BoolReadFailure => "Failed to read bool from stream"
      case InvalidBoolToken => "Invalid bool token"
      case ArrayDelimiterMissing => "Failed to load array: ',' or ']' is missing"
      case DictKeyNotString => "Failed to load dict key"
      case DictColonMissing => "Failed to load dict: ':' is missing"
      case DictDelimiterMissing => "Failed to load dict: ',' or '}' is missing"
      case UnknownToken => "Unknown token"
    }
  }

  /** A value read from the text and the position just after it. */
  type Parsed = Result<(Node, nat), ParseError>

  predicate IsWhitespace(c: char) {
    c == ' ' || c == '\t' || c == '\n' || c == '\r'
  }

  /** The letters that, after a backslash outside a string, stand for whitespace. */
  predicate IsEscapedWhitespace(c: char) {
    c == 't' || c == 'n' || c == 'r'
  }

  /**
   * `MoveToToken`: skips spaces, tabs, line feeds and carriage returns, a
   * backslash followed by `t`, `n` or `r`, and a backslash followed by
   * whitespace (the whitespace is put back and skipped in turn), and yields
   * the position of the first other character.
   */
  function TokenStart(s: string, pos: nat): (r: Result<nat, ParseError>)
    requires pos <= |s|
    ensures r.Ok? ==> pos <= r.value < |s| && !IsWhitespace(s[r.value]) && s[r.value] != '\\'
    decreases |s| - pos
  {
    if pos == |s| then Err(ReadFailure)
    else if IsWhitespace(s[pos]) then TokenStart(s, pos + 1)
    else if s[pos] == '\\' then
      if pos + 1 == |s| then Err(ReadFailure)
      else if IsEscapedWhitespace(s[pos + 1]) then TokenStart(s, pos + 2)
      else if IsWhitespace(s[pos + 1]) then TokenStart(s, pos + 1)
      else Err(StrayBackslash(s[pos + 1]))
    else Ok(pos)
  }

  // ---------------------------------------------------------------------
  // Numbers
  // ---------------------------------------------------------------------

  /** Every character of `s` from `a` up to `b` is a digit. */
  predicate DigitsIn(s: string, a: nat, b: nat)
    decreases b - a
  {
    a <= b <= |s| && (a == b || (IsDigit(s[a]) && DigitsIn(s, a + 1, b)))
  }

  /** The end of the run of digits that starts at `pos` (possibly empty). */
  function DigitRunEnd(s: string, pos: nat): (e: nat)
    requires pos <= |s|
    ensures pos <= e <= |s| && DigitsIn(s, pos, e)
    ensures e < |s| ==> !IsDigit(s[e])
    decreases |s| - pos
  {
    if pos < |s| && IsDigit(s[pos]) then DigitRunEnd(s, pos + 1) else pos
  }

  /** `read_digits`: one or more digits, else "A digit is expected". */
  function Digits(s: string, pos: nat): (r: Result<nat, ParseError>)
    requires pos <= |s|
    ensures r.Ok? ==> pos < r.value <= |s| && DigitsIn(s, pos, r.value)
  {
    if pos < |s| && IsDigit(s[pos]) then Ok(DigitRunEnd(s, pos)) else Err(DigitExpected)
  }

  /**
   * The number the digits of `s` from `a` up to `b` denote, read the way
   * `stoi` reads them: each digit multiplies what was read before by ten.
   * `acc` is the value of the digits already read.
   */
  function DigitsValueIn(s: string, a: nat, b: nat, acc: nat): nat
    requires DigitsIn(s, a, b)
    decreases b - a
  {
    if a == b then acc else DigitsValueIn(s, a + 1, b, acc * 10 + DigitValue(s[a]))
  }

  /** The value of the digits after a decimal point, `0.d1d2...`, for the digits from `a` up to `b`. */
  function FractionValueIn(s: string, a: nat, b: nat): (r: real)
    requires DigitsIn(s, a, b)
    ensures 0.0 <= r <= 1.0
    decreases b - a
  {
    if a == b then 0.0 else ((DigitValue(s[a]) as real) + FractionValueIn(s, a + 1, b)) / 10.0
  }

  /** `m` times ten to the power `e`, one factor of ten at a time. */
  function ScaleBy(m: real, e: int): real
    decreases if e < 0 then -e else e
  {
    if e == 0 then m else if e > 0 then ScaleBy(m * 10.0, e - 1) else ScaleBy(m / 10.0, e + 1)
  }

  const IntMin: int := -0x8000_0000
  const IntMax: int := 0x7FFF_FFFF

  /**
   * The node a numeral becomes: `whole` is the value of its integer digits,
   * `fraction` that of its fraction digits and `exponent` its signed
   * exponent. Without fraction and exponent it is an Int when its value
   * fits an `int` (what `std::stoi` accepts), and a Double otherwise; a
   * fraction or an exponent always makes it a Double.
   */
  function NumberNode(negative: bool, whole: nat, hasFrac: bool, fraction: real, hasExp: bool, exponent: int): (n: Node)
    ensures n.Int? || n.Double?
    ensures n.Int? <==> !hasFrac && !hasExp && IntMin <= (if negative then -(whole as int) else whole) <= IntMax
    ensures n.Int? ==> n.i as int == if negative then -(whole as int) else whole
  {
    var signed: int := if negative then -(whole as int) else whole;
    if !hasFrac && !hasExp && IntMin <= signed <= IntMax then Int(signed as int32)
    else
      var magnitude := ScaleBy((whole as real) + (if hasFrac then fraction else 0.0), if hasExp then exponent else 0);
      Double(if negative then -magnitude else magnitude)
  }

  /** The integer part: a single `0`, after which no digit is read, or a run of digits. */
  function IntegerPart(s: string, pos: nat): (r: Result<nat, ParseError>)
    requires pos <= |s|
    ensures r.Ok? ==> pos < r.value <= |s| && DigitsIn(s, pos, r.value)
  {
    if pos < |s| && s[pos] == '0' then Ok(pos + 1) else Digits(s, pos)
  }

  predicate HasFraction(s: string, pos: nat) {
    pos < |s| && s[pos] == '.'
  }

  /** The optional fraction: a `.` and one or more digits. */
  function FractionPart(s: string, pos: nat): (r: Result<nat, ParseError>)
    requires pos <= |s|
    ensures r.Ok? ==> pos <= r.value <= |s|
    ensures r.Ok? && HasFraction(s, pos) ==> pos + 1 < r.value && DigitsIn(s, pos + 1, r.value)
    ensures r.Ok? && !HasFraction(s, pos) ==> r.value == pos
  {
    if HasFraction(s, pos) then Digits(s, pos + 1) else Ok(pos)
  }

  predicate HasExponent(s: string, pos: nat) {
    pos < |s| && (s[pos] == 'e' || s[pos] == 'E')
  }

  /** Where the exponent's digits start: after the `e` and its optional sign. */
  function ExponentDigitsStart(s: string, pos: nat): (e: nat)
    requires pos < |s|
    ensures pos < e <= |s|
  {
    if pos + 1 < |s| && (s[pos + 1] == '+' || s[pos + 1] == '-') then pos + 2 else pos + 1
  }

  /** The optional exponent: `e` or `E`, an optional sign and one or more digits. */
  function ExponentPart(s: string, pos: nat): (r: Result<nat, ParseError>)
    requires pos <= |s|
    ensures r.Ok? ==> pos <= r.value <= |s|
    ensures r.Ok? && HasExponent(s, pos) ==> ExponentDigitsStart(s, pos) < r.value && DigitsIn(s, ExponentDigitsStart(s, pos), r.value)
    ensures r.Ok? && !HasExponent(s, pos) ==> r.value == pos
  {
    if HasExponent(s, pos) then Digits(s, ExponentDigitsStart(s, pos)) else Ok(pos)
  }

  /** The node for the numeral whose parts end at `p2` (integer), `p3` (fraction) and `p4` (exponent). */
  function NumeralNode(s: string, p1: nat, p2: nat, p3: nat, p4: nat, negative: bool): (n: Node)
    requires p1 < p2 <= p3 <= p4 <= |s| && DigitsIn(s, p1, p2)
    requires HasFraction(s, p2) ==> p2 + 1 < p3 && DigitsIn(s, p2 + 1, p3)
    requires HasExponent(s, p3) ==> ExponentDigitsStart(s, p3) < p4 && DigitsIn(s, ExponentDigitsStart(s, p3), p4)
  {
    var hasFrac := HasFraction(s, p2);
    var hasExp := HasExponent(s, p3);
    var expValue := if hasExp then DigitsValueIn(s, ExponentDigitsStart(s, p3), p4, 0) else 0;
    NumberNode(negative, DigitsValueIn(s, p1, p2, 0), hasFrac, if hasFrac then FractionValueIn(s, p2 + 1, p3) else 0.0,
               hasExp, if hasExp && s[p3 + 1] == '-' then -expValue else expValue)
  }

  /**
   * `LoadNumber`: optional `-`; a single `0` (no digit after it is read) or
   * a run of digits; optional `.` and digits; optional `e`/`E`, optional
   * sign and digits.
   */
  function ParseNumber(s: string, pos: nat): (r: Parsed)
    requires pos <= |s|
    ensures r.Ok? ==> pos < r.value.1 <= |s|
    ensures r.Ok? ==> r.value.0.Int? || r.value.0.Double?
  {
    var negative := pos < |s| && s[pos] == '-';
    var p1 := if negative then pos + 1 else pos;
    var p2 :- IntegerPart(s, p1);
    var p3 :- FractionPart(s, p2);
    var p4 :- ExponentPart(s, p3);
    Ok((NumeralNode(s, p1, p2, p3, p4, negative), p4))
  }

  // ---------------------------------------------------------------------
  // Strings and literals
  // ---------------------------------------------------------------------

  /** The character an escape `\c` inside a string literal stands for, if recognised. */
  function Unescaped(c: char): Option<char> {
    match c
    case 'n' => Some('\n')
    case 't' => Some('\t')
    case 'r' => Some('\r')
    case '"' => Some('"')
    case '\\' => Some('\\')
    case _ => None
  }

  /**
   * `LoadString`, after the opening quote: the characters read so far are
   * `acc`; reading goes on until an unescaped closing quote.
   */
  function ParseStringFrom(s: string, pos: nat, acc: string): (r: Parsed)
    requires pos <= |s|
    ensures r.Ok? ==> pos < r.value.1 <= |s| && r.value.0.String?
    decreases |s| - pos
  {
    if pos == |s| then Err(StringNotClosed)
    else if s[pos] == '"' then Ok((String(acc), pos + 1))
    else if s[pos] == '\\' then
      if pos + 1 == |s| then Err(StringNotClosed)
      else match Unescaped(s[pos + 1])
        case Some(c) => ParseStringFrom(s, pos + 2, acc + [c])
        case None => Err(UnrecognizedEscape(s[pos + 1]))
    else if s[pos] == '\n' || s[pos] == '\r' then Err(UnexpectedEndOfLine)
    else ParseStringFrom(s, pos + 1, acc + [s[pos]])
  }

  /** `LoadNull`, after the `n`: exactly `ull` must follow. */
  function ParseNull(s: string, pos: nat): (r: Parsed)
    requires pos <= |s|
    ensures r.Ok? ==> r.value == (Null, pos + 3)
  {
    if pos + 3 > |s| then Err(NullReadFailure)
    else if !At(s, pos, "ull") then Err(InvalidNullToken)
    else Ok((Null, pos + 3))
  }

  /** `LoadBool`, at the `t` or `f`: exactly `true` or `false`. */
  function ParseBool(s: string, pos: nat): (r: Parsed)
    requires pos < |s|
    ensures r.Ok? ==> r.value == (Bool(s[pos] == 't'), pos + if s[pos] == 't' then 4 else 5)
  {
    if s[pos] == 't' then
      if pos + 4 > |s| then Err(BoolReadFailure)
      else if !At(s, pos, "true") then Err(InvalidBoolToken)
      else Ok((Bool(true), pos + 4))
    else
      if pos + 5 > |s| then Err(BoolReadFailure)
      else if !At(s, pos, "false") then Err(InvalidBoolToken)
      else Ok((Bool(false), pos + 5))
  }

  /** `LoadNull` accepts exactly the three characters `ull` after the `n`. */
  lemma {:induction false} ParseNullAccepts(s: string, pos: nat)
    requires pos <= |s|
    ensures ParseNull(s, pos).Ok? <==> At(s, pos, "ull")
    ensures ParseNull(s, pos).Ok? ==> ParseNull(s, pos).value == (Null, pos + 3)
  {
  }

  /** `LoadBool` accepts exactly `true` after a `t` and exactly `false` otherwise. */
  lemma {:induction false} ParseBoolAccepts(s: string, pos: nat)
    requires pos < |s|
    ensures ParseBool(s, pos).Ok? <==> if s[pos] == 't' then At(s, pos, "true") else At(s, pos, "false")
    ensures ParseBool(s, pos).Ok? ==> ParseBool(s, pos).value == (Bool(s[pos] == 't'), pos + if s[pos] == 't' then 4 else 5)
  {
  }

  // ---------------------------------------------------------------------
  // Values and containers
  // ---------------------------------------------------------------------

  /** `LoadNode`: skips to the next token and lets its first character choose the form. */
  function ParseNode(s: string, pos: nat): (r: Parsed)
    requires pos <= |s|
    ensures r.Ok? ==> pos < r.value.1 <= |s|
    decreases |s| - pos, 1
  {
    var p :- TokenStart(s, pos);
    ParseValue(s, p)
  }

  /** The value whose first character is at `p`, which that character chooses. */
  function ParseValue(s: string, p: nat): (r: Parsed)
    requires p < |s|
    ensures r.Ok? ==> p < r.value.1 <= |s|
    decreases |s| - p, 0
  {
    var c := s[p];
    if c == '[' then ParseArray(s, p + 1)
    else if c == '{' then ParseDict(s, p + 1)
    else if c == '"' then ParseStringFrom(s, p + 1, [])
    else if c == '-' || IsDigit(c) then ParseNumber(s, p)
    else if c == 'n' then ParseNull(s, p + 1)
    else if c == 't' || c == 'f' then ParseBool(s, p)
    else Err(UnknownToken)
  }

  /** `LoadArray`, after the `[`. */
  function ParseArray(s: string, pos: nat): (r: Parsed)
    requires pos <= |s|
    ensures r.Ok? ==> pos < r.value.1 <= |s| && r.value.0.Array?
    decreases |s| - pos, 3
  {
    var p :- TokenStart(s, pos);
    if s[p] == ']' then Ok((Array([]), p + 1))
    else ParseItems(s, p, [])
  }

  /** The elements of an array from `pos` on, after the elements `acc` already read. */
  function ParseItems(s: string, pos: nat, acc: seq<Node>): (r: Parsed)
    requires pos <= |s|
    ensures r.Ok? ==> pos < r.value.1 <= |s| && r.value.0.Array?
    decreases |s| - pos, 2
  {
    var (v, q) :- ParseNode(s, pos);
    var p :- TokenStart(s, q);
    var items := acc + [v];
    if s[p] == ',' then ParseItems(s, p + 1, items)
    else if s[p] == ']' then Ok((Array(items), p + 1))
    else Err(ArrayDelimiterMissing)
  }

  /** `LoadDict`, after the `{`. */
  function ParseDict(s: string, pos: nat): (r: Parsed)
    requires pos <= |s|
    ensures r.Ok? ==> pos < r.value.1 <= |s| && r.value.0.Dict?
    decreases |s| - pos, 4
  {
    var p :- TokenStart(s, pos);
    if s[p] == '}' then Ok((Dict([]), p + 1))
    else ParseMembers(s, p, [])
  }

  /** One member at `pos`: a string key, `:` and a value, emplaced into `acc`. */
  function ParseMember(s: string, pos: nat, acc: seq<(string, Node)>): (r: Result<(seq<(string, Node)>, nat), ParseError>)
    requires pos <= |s|
    ensures r.Ok? ==> pos < r.value.1 <= |s|
    decreases |s| - pos, 2
  {
    var (k, q) :- ParseNode(s, pos);
    if !k.String? then Err(DictKeyNotString)
    else
      var p :- TokenStart(s, q);
      if s[p] != ':' then Err(DictColonMissing)
      else
        var (v, q2) :- ParseNode(s, p + 1);
        Ok((Emplace(acc, k.s, v), q2))
  }

  /**
   * The members of an object from `pos` on, emplaced into `acc`: a key
   * that is already present keeps its first value.
   */
  function ParseMembers(s: string, pos: nat, acc: seq<(string, Node)>): (r: Parsed)
    requires pos <= |s|
    ensures r.Ok? ==> pos < r.value.1 <= |s| && r.value.0.Dict?
    decreases |s| - pos, 3
  {
    var (entries, q) :- ParseMember(s, pos, acc);
    var p :- TokenStart(s, q);
    if s[p] == ',' then ParseMembers(s, p + 1, entries)
    else if s[p] == '}' then Ok((Dict(entries), p + 1))
    else Err(DictDelimiterMissing)
  }

  // ---------------------------------------------------------------------
  // What the loader builds is well-formed
  // ---------------------------------------------------------------------

  /** Every tree `LoadNode` builds is well-formed: each of its objects is a `std::map`, in key order. */
  lemma {:induction false} ParseNodeWellFormed(s: string, pos: nat)
    requires pos <= |s|
    ensures ParseNode(s, pos).Ok? ==> WellFormed(ParseNode(s, pos).value.0)
    decreases |s| - pos, 1
  {
    var t := TokenStart(s, pos);
    if t.Ok? {
      var p := t.value;
      if s[p] == '[' {
        ParseArrayWellFormed(s, p + 1);
      } else if s[p] == '{' {
        ParseDictWellFormed(s, p + 1);
      }
    }
  }

  lemma {:induction false} ParseArrayWellFormed(s: string, pos: nat)
    requires pos <= |s|
    ensures ParseArray(s, pos).Ok? ==> WellFormed(ParseArray(s, pos).value.0)
    decreases |s| - pos, 3
  {
    var t := TokenStart(s, pos);
    if t.Ok? && s[t.value] != ']' {
      ParseItemsWellFormed(s, t.value, []);
    }
  }

  lemma {:induction false} ParseItemsWellFormed(s: string, pos: nat, acc: seq<Node>)
    requires pos <= |s|
    requires forall i :: 0 <= i < |acc| ==> WellFormed(acc[i])
    ensures ParseItems(s, pos, acc).Ok? ==> WellFormed(ParseItems(s, pos, acc).value.0)
    decreases |s| - pos, 2
  {
    ParseNodeWellFormed(s, pos);
    var r := ParseNode(s, pos);
    if r.Ok? {
      var (v, q) := r.value;
      var items := acc + [v];
      assert forall i :: 0 <= i < |items| ==> WellFormed(items[i]);
      var t := TokenStart(s, q);
      if t.Ok? && s[t.value] == ',' {
        ParseItemsWellFormed(s, t.value + 1, items);
      }
    }
  }

  lemma {:induction false} ParseDictWellFormed(s: string, pos: nat)
    requires pos <= |s|
    ensures ParseDict(s, pos).Ok? ==> WellFormed(ParseDict(s, pos).value.0)
    decreases |s| - pos, 4
  {
    var t := TokenStart(s, pos);
    if t.Ok? && s[t.value] != '}' {
      ParseMembersWellFormed(s, t.value, []);
    }
  }

  lemma {:induction false} ParseMemberWellFormed(s: string, pos: nat, acc: seq<(string, Node)>)
    requires pos <= |s| && WellFormedEntries(acc)
    ensures ParseMember(s, pos, acc).Ok? ==> WellFormedEntries(ParseMember(s, pos, acc).value.0)
    decreases |s| - pos, 2
  {
    var r := ParseNode(s, pos);
    if r.Ok? && r.value.0.String? {
      var t := TokenStart(s, r.value.1);
      if t.Ok? && s[t.value] == ':' {
        ParseNodeWellFormed(s, t.value + 1);
        var v := ParseNode(s, t.value + 1);
        if v.Ok? {
          EmplaceWellFormed(acc, r.value.0.s, v.value.0);
        }
      }
    }
  }

  lemma {:induction false} ParseMembersWellFormed(s: string, pos: nat, acc: seq<(string, Node)>)
    requires pos <= |s| && WellFormedEntries(acc)
    ensures ParseMembers(s, pos, acc).Ok? ==> WellFormed(ParseMembers(s, pos, acc).value.0)
    decreases |s| - pos, 3
  {
    ParseMemberWellFormed(s, pos, acc);
    var r := ParseMember(s, pos, acc);
    if r.Ok? {
      var (entries, q) := r.value;
      var t := TokenStart(s, q);
      if t.Ok? && s[t.value] == ',' {
        ParseMembersWellFormed(s, t.value + 1, entries);
      }
    }
  }

  /** The numeral at `pos` is the single digit `0`, read as the Int 0. */
  lemma {:induction false} ZeroNumeral(s: string, pos: nat)
    requires pos + 1 < |s| && s[pos] == '0' && IsDigit(s[pos + 1])
    ensures ParseNumber(s, pos) == Ok((Int(0), pos + 1))
  {
    assert DigitsIn(s, pos, pos + 1) by {
      assert DigitsIn(s, pos + 1, pos + 1);
    }
    assert DigitsValueIn(s, pos, pos + 1, 0) == 0 by {
      assert DigitsValueIn(s, pos + 1, pos + 1, DigitValue(s[pos])) == 0;
    }
  }

  /**
   * After a leading `0` no further digit is read, and `Load` reads one
   * value and nothing after it: a text that starts with `02` loads as the
   * Int 0, and the `2` is never looked at.
   */
  lemma {:induction false} LeadingZeroAlone(s: string)
    requires |s| >= 2 && s[0] == '0' && IsDigit(s[1])
    ensures Load(s) == Ok(Document(Int(0)))
  {
    ZeroNumeral(s, 0);
    assert TokenStart(s, 0) == Ok(0);
    assert ParseValue(s, 0) == ParseNumber(s, 0);
  }

  /** A backslash followed by whitespace is skipped with it: the whitespace is put back and skipped in turn. */
  lemma {:induction false} BackslashWhitespaceSkipped(s: string, pos: nat)
    requires pos + 1 < |s| && s[pos] == '\\' && IsWhitespace(s[pos + 1])
    ensures TokenStart(s, pos) == TokenStart(s, pos + 2)
  {
    assert TokenStart(s, pos) == TokenStart(s, pos + 1);
  }

  /** A numeral of one digit, neither followed by another digit, a fraction nor an exponent, is that digit's Int. */
  lemma {:induction false} DigitNumeral(s: string, pos: nat)
    requires pos + 1 < |s| && IsDigit(s[pos]) && s[pos] != '0'
    requires !IsDigit(s[pos + 1]) && !HasFraction(s, pos + 1) && !HasExponent(s, pos + 1)
    ensures ParseNumber(s, pos) == Ok((Int(DigitValue(s[pos]) as int32), pos + 1))
  {
    assert DigitRunEnd(s, pos) == pos + 1;
    assert DigitsIn(s, pos, pos + 1) by {
      assert DigitsIn(s, pos + 1, pos + 1);
    }
    assert DigitsValueIn(s, pos, pos + 1, 0) == DigitValue(s[pos]) by {
      assert DigitsValueIn(s, pos + 1, pos + 1, DigitValue(s[pos])) == DigitValue(s[pos]);
    }
  }

  /** The array `[1,\ 2]` loads as the elements 1 and 2: the backslash before the space is skipped. */
  lemma {:induction false} BackslashSpaceInArray()
    ensures Load("[1,\\ 2]") == Ok(Document(Array([Int(1), Int(2)])))
  {
    var s := "[1,\\ 2]";
    assert s[0] == '[' && s[1] == '1' && s[2] == ',' && s[3] == '\\' && s[4] == ' ' && s[5] == '2' && s[6] == ']';
    assert TokenStart(s, 0) == Ok(0) && TokenStart(s, 1) == Ok(1) && TokenStart(s, 2) == Ok(2);
    assert TokenStart(s, 6) == Ok(6) && TokenStart(s, 5) == Ok(5);
    BackslashWhitespaceSkipped(s, 3);
    DigitNumeral(s, 1);
    DigitNumeral(s, 5);
    assert ParseNode(s, 3) == Ok((Int(2), 6));
    assert [Int(1)] + [Int(2)] == [Int(1), Int(2)];
    assert ParseItems(s, 3, [Int(1)]) == Ok((Array([Int(1), Int(2)]), 7));
    assert ParseNode(s, 1) == Ok((Int(1), 2));
    assert [] + [Int(1)] == [Int(1)];
    assert ParseItems(s, 1, []) == ParseItems(s, 3, [Int(1)]);
    assert ParseArray(s, 1) == ParseItems(s, 1, []);
    assert ParseValue(s, 0) == ParseArray(s, 1);
    assert ParseNode(s, 0) == Ok((Array([Int(1), Int(2)]), 7));
  }

  /** `json::Load`: one value from the start of the text; whatever follows it is not read. */
  function Load(s: string): (r: Result<Document, ParseError>)
    ensures r.Ok? ==> WellFormed(r.value.root)
  {
    var (n, _) :- ParseNode(s, 0);
    ParseNodeWellFormed(s, 0);
    Ok(Document(n))
  }
}
