/**
 * The line-oriented input format: after its kind word, a query line reads
 *
 *   Stop <name>: <lat>, <lng>[, <d>m to <stop>]*
 *   Bus <name>: <stop> > <stop> > ... > <stop>     (a ring)
 *   Bus <name>: <stop> - <stop> - ... - <stop>     (there and back)
 *
 * Each query is one `Line`: the kind word `>>` reads and the rest of that
 * line. Reading the coordinates is floating-point text parsing and is a
 * parameter. Where the source reads past the end of a string (`back()` of
 * an empty token) or calls `substr(1)` on an empty one, the model returns an
 * `InputError`.
 */
module InputReader {
  import opened Wrappers
  import opened Decimal
  import TC = TransportCatalogue

  /** `tc::input::Stop`. */
  datatype Stop = Stop(name: string, coordinates: TC.Coordinates, distances: seq<(string, TC.uint32)>)

  /** `tc::input::Bus`. */
  datatype Bus = Bus(name: string, ring: bool, stops: seq<string>)

  /** `tc::input::Queries`. */
  datatype Queries = Queries(stops: seq<Stop>, buses: seq<Bus>)

  /** A query: the word read with `>>`, and the rest of its line. */
  datatype Line = Line(kind: string, rest: string)

  datatype InputError =
    | NoColon            // the line has no ':' after the name
    | NoName             // `substr(1)` of an empty name
    | EmptyToken         // `back()` of an empty stop token
    | MalformedDistance  // the stream fails inside a distance

  /** The reader of "<lat>, <lng>": the coordinates and the text after the longitude. */
  type CoordinatesReader = string -> (TC.Coordinates, string)

  // ---------------------------------------------------------------------
  // Characters and spans
  // ---------------------------------------------------------------------

  /** `isspace` in the "C" locale. */
  predicate IsSpace(c: char) {
    c == ' ' || c == '\t' || c == '\n' || c == '\r' || c == 11 as char || c == 12 as char
  }

  predicate NotSpace(c: char) {
    !IsSpace(c)
  }

  function Except(d: char): char -> bool {
    c => c != d
  }

  /** The end of the run of characters satisfying `p` that starts at `i`. */
  function Span(s: string, i: nat, p: char -> bool): (j: nat)
    requires i <= |s|
    ensures i <= j <= |s|
    decreases |s| - i
  {
    if i == |s| || !p(s[i]) then i else Span(s, i + 1, p)
  }

  /** Every character of the run satisfies `p`, and the one after it, if any, does not. */
  lemma {:induction false} SpanRun(s: string, i: nat, p: char -> bool)
    requires i <= |s|
    ensures forall k :: i <= k < Span(s, i, p) ==> p(s[k])
    ensures Span(s, i, p) < |s| ==> !p(s[Span(s, i, p)])
    decreases |s| - i
  {
    if i < |s| && p(s[i]) {
      SpanRun(s, i + 1, p);
    }
  }

  /** A run is determined by where it starts. */
  lemma SpanIs(s: string, i: nat, p: char -> bool, j: nat)
    requires i <= j <= |s|
    requires forall k :: i <= k < j ==> p(s[k])
    requires j < |s| ==> !p(s[j])
    ensures Span(s, i, p) == j
  {
    SpanRun(s, i, p);
  }

  /** `getline(input, token, d)`: the index of the first `d`, or the length when there is none. */
  method FindDelimiter(s: string, d: char) returns (i: nat)
    ensures i == Span(s, 0, Except(d))
  {
    i := 0;
    while i < |s| && s[i] != d
      invariant i <= |s|
      invariant forall k :: 0 <= k < i ==> s[k] != d
    {
      i := i + 1;
    }
    SpanIs(s, 0, Except(d), i);
  }

  // ---------------------------------------------------------------------
  // Splitting with repeated getline
  // ---------------------------------------------------------------------

  /**
   * The tokens `while (getline(stream, token, d))` produces: the text
   * between delimiters, where a final delimiter ends the last token
   * rather than opening an empty one.
   */
  function Split(s: string, d: char): (r: seq<string>)
    ensures forall k :: 0 <= k < |r| ==> d !in r[k]
    ensures r == [] <==> s == []
    decreases |s|
  {
    if s == [] then []
    else
      var i := Span(s, 0, Except(d));
      SpanRun(s, 0, Except(d));
      assert forall k :: 0 <= k < i ==> s[..i][k] != d;
      if i == |s| then [s] else [s[..i]] + Split(s[i + 1..], d)
  }

  /** The tokens written back with the delimiter between them. */
  function Join(tokens: seq<string>, d: char): string {
    if tokens == [] then []
    else if |tokens| == 1 then tokens[0]
    else tokens[0] + [d] + Join(tokens[1..], d)
  }

  /** Text without the delimiter is one token, or none when empty. */
  lemma SplitWhole(t: string, d: char)
    requires d !in t
    ensures Split(t, d) == if t == [] then [] else [t]
  {
    if t != [] {
      SpanIs(t, 0, Except(d), |t|);
    }
  }

  /** A delimiter after delimiter-free text ends a token. */
  lemma SplitFront(prefix: string, rest: string, d: char)
    requires d !in prefix && rest != [] && rest[0] == d
    ensures Split(prefix + rest, d) == [prefix] + Split(rest[1..], d)
  {
    var s := prefix + rest;
    SpanIs(s, 0, Except(d), |prefix|);
    assert s[..|prefix|] == prefix;
    assert s[|prefix| + 1..] == rest[1..];
  }

  /**
   * Splitting the joined tokens gives them back, when none holds the
   * delimiter and the last is not empty.
   */
  lemma {:induction false} SplitJoin(tokens: seq<string>, d: char)
    requires forall k :: 0 <= k < |tokens| ==> d !in tokens[k]
    requires tokens != [] ==> tokens[|tokens| - 1] != []
    ensures Split(Join(tokens, d), d) == tokens
    decreases |tokens|
  {
    if |tokens| == 1 {
      SplitWhole(tokens[0], d);
    } else if |tokens| > 1 {
      var rest := Join(tokens[1..], d);
      assert Join(tokens, d) == tokens[0] + ([d] + rest);
      SplitFront(tokens[0], [d] + rest, d);
      assert ([d] + rest)[1..] == rest;
      SplitJoin(tokens[1..], d);
      assert tokens == [tokens[0]] + tokens[1..];
    }
  }

  /** Joining the tokens gives the text back, less a final delimiter. */
  lemma {:induction false} JoinSplit(s: string, d: char)
    ensures Join(Split(s, d), d) == if s != [] && s[|s| - 1] == d then s[..|s| - 1] else s
    decreases |s|
  {
    if s != [] {
      var i := Span(s, 0, Except(d));
      if i == |s| {
        SpanRun(s, 0, Except(d));
        assert Except(d)(s[|s| - 1]);
      } else {
        SpanRun(s, 0, Except(d));
        var rest := s[i + 1..];
        JoinSplit(rest, d);
        JoinSplitFront(s, i, d, Join(Split(rest, d), d));
      }
    }
  }

  /** The text put back together around its first delimiter, at `i`. */
  lemma JoinSplitFront(s: string, i: nat, d: char, tail: string)
    requires i < |s| && s[i] == d && Span(s, 0, Except(d)) == i
    requires tail == Join(Split(s[i + 1..], d), d)
    requires tail == if s[i + 1..] != [] && s[|s| - 1] == d then s[i + 1..|s| - 1] else s[i + 1..]
    ensures Join(Split(s, d), d) == if s[|s| - 1] == d then s[..|s| - 1] else s
  {
    var rest := s[i + 1..];
    assert Split(s, d) == [s[..i]] + Split(rest, d);
    if rest == [] {
      assert s[..|s| - 1] == s[..i];
    } else {
      JoinCons(s[..i], Split(rest, d), d);
      if s[|s| - 1] == d {
        assert s[..|s| - 1] == s[..i] + [d] + s[i + 1..|s| - 1];
      } else {
        assert s == s[..i] + [d] + rest;
      }
    }
  }

  /** Joining a token in front of other tokens puts the delimiter between them. */
  lemma JoinCons(head: string, tokens: seq<string>, d: char)
    requires tokens != []
    ensures Join([head] + tokens, d) == head + [d] + Join(tokens, d)
  {
    assert ([head] + tokens)[1..] == tokens;
  }

  /** One character more of the text: a delimiter ends the token, anything else extends it. */
  lemma SplitStep(token: string, rest: string, d: char)
    requires d !in token && rest != []
    ensures rest[0] == d ==> Split(token + rest, d) == [token] + Split([] + rest[1..], d)
    ensures rest[0] != d ==> d !in token + [rest[0]] && Split(token + rest, d) == Split((token + [rest[0]]) + rest[1..], d)
  {
    if rest[0] == d {
      SplitFront(token, rest, d);
      assert [] + rest[1..] == rest[1..];
    } else {
      assert (token + [rest[0]]) + rest[1..] == token + rest;
    }
  }

  /** `while (getline(stream, token, d)) tokens.push_back(token);` */
  method SplitTokens(s: string, d: char) returns (tokens: seq<string>)
    ensures tokens == Split(s, d)
  {
    tokens := [];
    var token: string := [];
    assert token + s[0..] == s;
    for i := 0 to |s|
      invariant d !in token
      invariant Split(s, d) == tokens + Split(token + s[i..], d)
    {
      SplitStep(token, s[i..], d);
      assert s[i..][1..] == s[i + 1..];
      if s[i] == d {
        tokens := tokens + [token];
        token := [];
      } else {
        token := token + [s[i]];
      }
    }
    assert token + s[|s|..] == token;
    SplitWhole(token, d);
    if token != [] {
      tokens := tokens + [token];
    }
  }

  /** Tokens without `c` join, with a delimiter other than `c`, to text without `c`. */
  lemma {:induction false} JoinAvoids(tokens: seq<string>, d: char, c: char)
    requires c != d && forall k :: 0 <= k < |tokens| ==> c !in tokens[k]
    ensures c !in Join(tokens, d)
    decreases |tokens|
  {
    if |tokens| > 1 {
      JoinAvoids(tokens[1..], d, c);
    }
  }

  /** Two tokens or more join to text holding the delimiter. */
  lemma JoinHolds(tokens: seq<string>, d: char)
    requires |tokens| >= 2
    ensures d in Join(tokens, d)
  {
    assert (tokens[0] + [d] + Join(tokens[1..], d))[|tokens[0]|] == d;
  }

  /** On " <name>:<text>" with no ':' in the name, getline(':') stops right after the name. */
  lemma NameBeforeColon(name: string, text: string)
    requires ':' !in name
    ensures var line := " " + name + ":" + text;
      Span(line, 0, Except(':')) == |name| + 1 && line[1..|name| + 1] == name && line[|name| + 2..] == text
  {
    var line := " " + name + ":" + text;
    forall k | 0 <= k < |name| + 1
      ensures Except(':')(line[k])
    {
      if k > 0 {
        assert line[k] == name[k - 1];
      }
    }
    SpanIs(line, 0, Except(':'), |name| + 1);
    assert line[|name| + 2..] == text;
    assert line[1..|name| + 1] == name;
  }

  // ---------------------------------------------------------------------
  // Bus lines
  // ---------------------------------------------------------------------

  /**
   * One stop token: drop its first character (the space after the
   * delimiter) and, when it ends in a space, its last one.
   */
  function StopName(token: string): Result<string, InputError> {
    if token == [] then Err(EmptyToken)
    else if token[|token| - 1] == ' ' then Ok(token[1..if |token| >= 2 then |token| - 1 else 1])
    else Ok(token[1..])
  }

  /**
   * `ReadBus`: the name up to ':' less its first character; a ring when the
   * stop list holds '>', which then separates the stops, '-' otherwise.
   */
  function BusLine(rest: string): Result<Bus, InputError> {
    var i := Span(rest, 0, Except(':'));
    if i == |rest| then Err(NoColon)
    else
      var text := rest[i + 1..];
      var ring := '>' in text;
      var stops :- Each(Split(text, if ring then '>' else '-'), StopName);
      if i == 0 then Err(NoName) else Ok(Bus(rest[1..i], ring, stops))
  }

  method ReadBus(rest: string) returns (r: Result<Bus, InputError>)
    ensures r == BusLine(rest)
  {
    var i := FindDelimiter(rest, ':');
    if i == |rest| {
      return Err(NoColon);
    }
    var text := rest[i + 1..];
    var delimiter := if '>' in text then '>' else '-';
    var tokens := SplitTokens(text, delimiter);
    var stops :- ReadEach(tokens, StopName);
    if i == 0 {
      return Err(NoName);
    }
    r := Ok(Bus(rest[1..i], delimiter == '>', stops));
  }

  /** The stop tokens of a bus line: each stop between single spaces, the last without the trailing one. */
  function BusTokens(stops: seq<string>): (r: seq<string>)
    ensures |r| == |stops|
  {
    seq(|stops|, k requires 0 <= k < |stops| => " " + stops[k] + (if k + 1 < |stops| then " " else ""))
  }

  /** The rest of the line a bus is written as, after "Bus". */
  function BusText(bus: Bus): string {
    " " + bus.name + ":" + Join(BusTokens(bus.stops), if bus.ring then '>' else '-')
  }

  lemma StopNameOfToken(stops: seq<string>, k: nat)
    requires k < |stops|
    requires stops[k] == [] || stops[k][|stops[k]| - 1] != ' '
    ensures StopName(BusTokens(stops)[k]) == Ok(stops[k])
  {
    var t := BusTokens(stops)[k];
    if k + 1 < |stops| {
      assert t == " " + stops[k] + " ";
      assert t[1..|t| - 1] == stops[k];
    } else {
      assert t == " " + stops[k];
      assert t[1..] == stops[k];
    }
  }

  /**
   * A bus line reads back as the bus it was written from, when the name
   * holds no ':', the stops hold no '>' (nor '-' on a bus that is not a
   * ring) and end in no space, and a ring has two stops or more.
   */
  lemma BusRoundTrip(bus: Bus)
    requires ':' !in bus.name
    requires bus.ring ==> |bus.stops| >= 2
    requires forall k :: 0 <= k < |bus.stops| ==> '>' !in bus.stops[k] && (!bus.ring ==> '-' !in bus.stops[k])
    requires forall k :: 0 <= k < |bus.stops| ==> bus.stops[k] == [] || bus.stops[k][|bus.stops[k]| - 1] != ' '
    ensures BusLine(BusText(bus)) == Ok(bus)
  {
    var d := if bus.ring then '>' else '-';
    var tokens := BusTokens(bus.stops);
    var text := Join(tokens, d);
    NameBeforeColon(bus.name, text);
    BusTokensFree(bus.stops, d);
    if bus.ring {
      JoinHolds(tokens, d);
    } else {
      BusTokensFree(bus.stops, '>');
      JoinAvoids(tokens, d, '>');
    }
    SplitJoin(tokens, d);
    BusTokensRead(bus.stops);
  }

  /** No stop token holds a character no stop holds, save the spaces around it. */
  lemma BusTokensFree(stops: seq<string>, c: char)
    requires c != ' '
    requires forall k :: 0 <= k < |stops| ==> c !in stops[k]
    ensures forall k :: 0 <= k < |stops| ==> c !in BusTokens(stops)[k]
    ensures stops != [] ==> BusTokens(stops)[|stops| - 1] != []
  {
    forall k | 0 <= k < |stops|
      ensures c !in BusTokens(stops)[k]
    {
      assert BusTokens(stops)[k] == " " + stops[k] + (if k + 1 < |stops| then " " else "");
    }
  }

  /** Each token reads back as its stop. */
  lemma BusTokensRead(stops: seq<string>)
    requires forall k :: 0 <= k < |stops| ==> stops[k] == [] || stops[k][|stops[k]| - 1] != ' '
    ensures Each(BusTokens(stops), StopName) == Ok(stops)
  {
    forall k | 0 <= k < |stops|
      ensures StopName(BusTokens(stops)[k]) == Ok(stops[k])
    {
      StopNameOfToken(stops, k);
    }
    EachPointwise(BusTokens(stops), StopName, stops);
  }

  // ---------------------------------------------------------------------
  // Distances and stop lines
  // ---------------------------------------------------------------------

  /** `stream >> word` from `i`: skip spaces, then the end of the word, or nothing when no word is left. */
  function Word(s: string, i: nat): (r: Option<nat>)
    requires i <= |s|
    ensures r.Some? ==> i < r.value <= |s|
  {
    var start := Span(s, i, IsSpace);
    var end := Span(s, start, NotSpace);
    if start == end then None else Some(end)
  }

  lemma WordIs(s: string, i: nat, start: nat, end: nat)
    requires i <= start < end <= |s|
    requires forall k :: i <= k < start ==> IsSpace(s[k])
    requires forall k :: start <= k < end ==> NotSpace(s[k])
    requires end < |s| ==> IsSpace(s[end])
    ensures Word(s, i) == Some(end)
  {
    SpanIs(s, i, IsSpace, start);
    SpanIs(s, start, NotSpace, end);
  }

  /**
   * `ParseDistance` on one piece "<d>m to <stop>": `>>` an unsigned
   * number, `>>` the word "m", `>>` the word "to", then the rest of the
   * piece less its first character.
   */
  function DistancePiece(piece: string): Result<(string, TC.uint32), InputError> {
    var a := Span(piece, 0, IsSpace);
    var b := Span(piece, a, IsDigit);
    if a == b then Err(MalformedDistance)
    else
      SpanRun(piece, a, IsDigit);
      assert forall k :: 0 <= k < b - a ==> piece[a..b][k] == piece[a + k];
      var value := DigitsValue(piece[a..b]);
      if value >= 0x1_0000_0000 then Err(MalformedDistance)
      else
        var m := Word(piece, b);
        if m.None? then Err(MalformedDistance)
        else
          var to := Word(piece, m.value);
          if to.None? || to.value == |piece| then Err(MalformedDistance)
          else Ok((piece[to.value + 1..], value as TC.uint32))
  }

  /** How a road distance is written: " <d>m to <stop>". */
  function DistanceText(distance: (string, TC.uint32)): string {
    " " + NatToDecimal(distance.1 as nat) + "m to " + distance.0
  }

  /** A distance piece reads back as the distance it was written from. */
  lemma DistanceRoundTrip(distance: (string, TC.uint32))
    ensures DistancePiece(DistanceText(distance)) == Ok(distance)
  {
    var digits := NatToDecimal(distance.1 as nat);
    var tail := "m to " + distance.0;
    assert DistanceText(distance) == " " + digits + tail;
    NumberFirst(digits, tail);
    NatToDecimalValue(distance.1 as nat);
    WordsAfter(" " + digits, distance.0);
    assert " " + digits + tail == (" " + digits) + "m to " + distance.0;
  }

  /** `>>` an unsigned number reads the digits after the space and stops before the text after them. */
  lemma NumberFirst(digits: string, tail: string)
    requires |digits| >= 1 && AllDigits(digits) && tail != [] && !IsDigit(tail[0])
    ensures var piece := " " + digits + tail;
      Span(piece, 0, IsSpace) == 1 && Span(piece, 1, IsDigit) == 1 + |digits| && piece[1..1 + |digits|] == digits
  {
    var piece := " " + digits + tail;
    assert forall k :: 1 <= k < 1 + |digits| ==> piece[k] == digits[k - 1];
    assert piece[1 + |digits|] == tail[0];
    SpanIs(piece, 0, IsSpace, 1);
    SpanIs(piece, 1, IsDigit, 1 + |digits|);
    assert piece[1..1 + |digits|] == digits;
  }

  /** After the number come the words "m" and "to", then the destination after one space. */
  lemma WordsAfter(number: string, to: string)
    ensures var piece := number + "m to " + to;
      var b := |number|;
      Word(piece, b) == Some(b + 1) && Word(piece, b + 1) == Some(b + 4) && piece[b + 5..] == to
  {
    var piece := number + "m to " + to;
    var b := |number|;
    assert piece[b] == 'm' && piece[b + 1] == ' ' && piece[b + 2] == 't' && piece[b + 3] == 'o' && piece[b + 4] == ' ';
    WordIs(piece, b, b, b + 1);
    WordIs(piece, b + 1, b + 2, b + 4);
    assert piece[b + 5..] == to;
  }

  /**
   * `ReadStop`: the name up to ':' less its first character, the
   * coordinates, and the distances only when the next character after the
   * longitude is ','; then each ','-separated piece of the rest of the line
   * is one distance.
   */
  function StopLine(rest: string, read: CoordinatesReader): Result<Stop, InputError> {
    var i := Span(rest, 0, Except(':'));
    if i == |rest| then Err(NoColon)
    else if i == 0 then Err(NoName)
    else
      var after := read(rest[i + 1..]);
      var tail := after.1;
      var j := Span(tail, 0, IsSpace);
      if j == |tail| || tail[j] != ',' then Ok(Stop(rest[1..i], after.0, []))
      else
        var distances :- Each(Split(tail[j + 1..], ','), DistancePiece);
        Ok(Stop(rest[1..i], after.0, distances))
  }

  method ReadStop(rest: string, read: CoordinatesReader) returns (r: Result<Stop, InputError>)
    ensures r == StopLine(rest, read)
  {
    var i := FindDelimiter(rest, ':');
    if i == |rest| {
      return Err(NoColon);
    }
    if i == 0 {
      return Err(NoName);
    }
    var name := rest[1..i];
    var after := read(rest[i + 1..]);
    var tail := after.1;
    var j := Span(tail, 0, IsSpace);
    if j == |tail| || tail[j] != ',' {
      return Ok(Stop(name, after.0, []));
    }
    var pieces := SplitTokens(tail[j + 1..], ',');
    var distances :- ReadEach(pieces, DistancePiece);
    r := Ok(Stop(name, after.0, distances));
  }

  function DistanceTexts(distances: seq<(string, TC.uint32)>): (r: seq<string>)
    ensures |r| == |distances|
  {
    seq(|distances|, k requires 0 <= k < |distances| => DistanceText(distances[k]))
  }

  /** What follows the longitude on a stop line: nothing, or ',' and the distances joined by ','. */
  function DistancesText(distances: seq<(string, TC.uint32)>): string {
    if distances == [] then "" else "," + Join(DistanceTexts(distances), ',')
  }

  /**
   * A stop line reads back as the stop it was written from, when the name
   * holds no ':', no destination holds ',', and the coordinates reader
   * leaves the distances after the longitude.
   */
  lemma StopRoundTrip(name: string, text: string, read: CoordinatesReader, distances: seq<(string, TC.uint32)>)
    requires ':' !in name
    requires forall k :: 0 <= k < |distances| ==> ',' !in distances[k].0
    requires read(text).1 == DistancesText(distances)
    ensures StopLine(" " + name + ":" + text, read) == Ok(Stop(name, read(text).0, distances))
  {
    NameBeforeColon(name, text);
    if distances != [] {
      var tail := DistancesText(distances);
      SpanIs(tail, 0, IsSpace, 0);
      assert tail[1..] == Join(DistanceTexts(distances), ',');
      DistancesRead(distances);
    }
  }

  lemma DistanceTextRead(distance: (string, TC.uint32))
    requires ',' !in distance.0
    ensures ',' !in DistanceText(distance) && DistancePiece(DistanceText(distance)) == Ok(distance)
  {
    var digits := NatToDecimal(distance.1 as nat);
    assert DistanceText(distance) == " " + digits + "m to " + distance.0;
    assert ',' !in digits;
    DistanceRoundTrip(distance);
  }

  /** The pieces of joined distance texts read back as the distances. */
  lemma DistancesRead(distances: seq<(string, TC.uint32)>)
    requires forall k :: 0 <= k < |distances| ==> ',' !in distances[k].0
    ensures Each(Split(Join(DistanceTexts(distances), ','), ','), DistancePiece) == Ok(distances)
  {
    var texts := DistanceTexts(distances);
    forall k | 0 <= k < |texts|
      ensures ',' !in texts[k] && DistancePiece(texts[k]) == Ok(distances[k])
    {
      DistanceTextRead(distances[k]);
    }
    SplitJoin(texts, ',');
    EachPointwise(texts, DistancePiece, distances);
  }

  // ---------------------------------------------------------------------
  // Queries
  // ---------------------------------------------------------------------

  datatype Query = StopQuery(stop: Stop) | BusQuery(bus: Bus)

  /** One query line: "Stop" lines are stops, every other line is a bus. */
  function QueryLine(line: Line, read: CoordinatesReader): Result<Query, InputError> {
    if line.kind == "Stop" then
      var stop :- StopLine(line.rest, read);
      Ok(StopQuery(stop))
    else
      var bus :- BusLine(line.rest);
      Ok(BusQuery(bus))
  }

  function LineReader(read: CoordinatesReader): Line -> Result<Query, InputError> {
    line => QueryLine(line, read)
  }

  function StopsOf(queries: seq<Query>): seq<Stop> {
    if queries == [] then []
    else
      var last := queries[|queries| - 1];
      StopsOf(queries[..|queries| - 1]) + (if last.StopQuery? then [last.stop] else [])
  }

  function BusesOf(queries: seq<Query>): seq<Bus> {
    if queries == [] then []
    else
      var last := queries[|queries| - 1];
      BusesOf(queries[..|queries| - 1]) + (if last.BusQuery? then [last.bus] else [])
  }

  /** `ReadQueries` over its `count` lines: the stops and the buses, each in line order. */
  function QueriesOf(lines: seq<Line>, read: CoordinatesReader): Result<Queries, InputError> {
    var queries :- Each(lines, LineReader(read));
    Ok(Queries(StopsOf(queries), BusesOf(queries)))
  }

  /** One turn of the loop: the kind word decides which reader takes the line. */
  method ReadQuery(line: Line, read: CoordinatesReader) returns (r: Result<Query, InputError>)
    ensures r == LineReader(read)(line)
  {
    if line.kind == "Stop" {
      var stop :- ReadStop(line.rest, read);
      r := Ok(StopQuery(stop));
    } else {
      var bus :- ReadBus(line.rest);
      r := Ok(BusQuery(bus));
    }
  }

  method ReadQueries(lines: seq<Line>, read: CoordinatesReader) returns (r: Result<Queries, InputError>)
    ensures r == QueriesOf(lines, read)
  {
    var stops: seq<Stop> := [];
    var buses: seq<Bus> := [];
    ghost var queries: seq<Query> := [];
    for i := 0 to |lines|
      invariant Each(lines[..i], LineReader(read)) == Ok(queries)
      invariant stops == StopsOf(queries) && buses == BusesOf(queries)
    {
      assert lines[..i + 1][..i] == lines[..i];
      assert lines[..i + 1][i] == lines[i];
      var next := ReadQuery(lines[i], read);
      if next.Err? {
        EachPrefixErr(lines, LineReader(read), i + 1);
        return Err(next.error);
      }
      var query := next.value;
      match query {
        case StopQuery(stop) => stops := stops + [stop];
        case BusQuery(bus) => buses := buses + [bus];
      }
      assert (queries + [query])[..|queries|] == queries;
      queries := queries + [query];
    }
    assert lines[..|lines|] == lines;
    r := Ok(Queries(stops, buses));
  }

  /** The number of "Stop" lines. */
  function StopLineCount(lines: seq<Line>): nat {
    if lines == [] then 0
    else StopLineCount(lines[..|lines| - 1]) + (if lines[|lines| - 1].kind == "Stop" then 1 else 0)
  }

  /**
   * Every "Stop" line gives one stop and every other line one bus: there
   * are as many stops as "Stop" lines and the rest are buses.
   */
  lemma {:induction false} QueriesCount(lines: seq<Line>, read: CoordinatesReader)
    requires QueriesOf(lines, read).Ok?
    ensures |QueriesOf(lines, read).value.stops| == StopLineCount(lines)
    ensures |QueriesOf(lines, read).value.buses| == |lines| - StopLineCount(lines)
  {
    var f := LineReader(read);
    var queries := Each(lines, f).value;
    EachSpec(lines, f);
    forall k | 0 <= k < |lines|
      ensures queries[k].StopQuery? <==> lines[k].kind == "Stop"
    {
      QueryKind(lines[k], read);
    }
    KindsCount(lines, queries);
  }

  /** A line read as a query is a stop exactly when its kind word is "Stop". */
  lemma QueryKind(line: Line, read: CoordinatesReader)
    requires QueryLine(line, read).Ok?
    ensures QueryLine(line, read).value.StopQuery? <==> line.kind == "Stop"
  {
  }

  lemma {:induction false} KindsCount(lines: seq<Line>, queries: seq<Query>)
    requires |queries| == |lines|
    requires forall k :: 0 <= k < |lines| ==> (queries[k].StopQuery? <==> lines[k].kind == "Stop")
    ensures |StopsOf(queries)| == StopLineCount(lines)
    ensures |BusesOf(queries)| == |lines| - StopLineCount(lines)
  {
    if lines != [] {
      var n := |lines| - 1;
      KindsCount(lines[..n], queries[..n]);
    }
  }

  /**
   * The queries of two runs of lines are those of the first run followed
   * by those of the second, stops and buses each in order; reading stops
   * at the first error.
   */
  lemma QueriesConcat(a: seq<Line>, b: seq<Line>, read: CoordinatesReader)
    ensures QueriesOf(a + b, read) ==
      (var x :- QueriesOf(a, read); var y :- QueriesOf(b, read); Ok(Queries(x.stops + y.stops, x.buses + y.buses)))
  {
    var f := LineReader(read);
    EachConcat(a, b, f);
    if Each(a, f).Ok? && Each(b, f).Ok? {
      QueriesSplitConcat(Each(a, f).value, Each(b, f).value);
    }
  }

  lemma {:induction false} QueriesSplitConcat(a: seq<Query>, b: seq<Query>)
    ensures StopsOf(a + b) == StopsOf(a) + StopsOf(b)
    ensures BusesOf(a + b) == BusesOf(a) + BusesOf(b)
    decreases |b|
  {
    if b == [] {
      assert a + b == a;
    } else {
      var n := |b| - 1;
      assert (a + b)[..|a + b| - 1] == a + b[..n];
      assert (a + b)[|a + b| - 1] == b[n];
      QueriesSplitConcat(a, b[..n]);
    }
  }
}
