/**
 * The JSON front end: the requests read out of a loaded document (stops and
 * buses to add, questions to answer, colours) and the reply document, one
 * dictionary per answer, that is printed back.
 *
 * `Dict::at` on a missing key throws `std::out_of_range` and an `As*`
 * accessor of the wrong kind throws `std::logic_error`; both are the error
 * values of `ReadError`, as is a failed `assert` (a debug build aborts
 * there). A reading stops at the first error, as the exception does.
 */
module JsonReader {
  import opened Wrappers
  import opened Text
  import opened JsonNode
  import opened JsonPrint
  import opened Decimal
  import opened Svg
  import TC = TransportCatalogue

  datatype ReadError =
    | MissingKey(key: string)
    | WrongType
    | AssertionFailed

  /** `dict.at(key)`. */
  function Field(dict: seq<(string, Node)>, key: string): (r: Result<Node, ReadError>)
    ensures r.Ok? <==> key in Keys(dict)
    ensures r.Ok? ==> Lookup(dict, key) == Some(r.value)
    ensures r.Err? ==> r.error == MissingKey(key)
  {
    match Lookup(dict, key)
    case None => Err(MissingKey(key))
    case Some(n) => Ok(n)
  }

  /** An accessor's type mismatch as a reading error. */
  function Typed<T>(r: Result<T, TypeError>): Result<T, ReadError> {
    match r
    case Ok(v) => Ok(v)
    case Err(_) => Err(WrongType)
  }

  function StringValue(n: Node): Result<string, ReadError> {
    Typed(n.AsString())
  }

  function StringField(dict: seq<(string, Node)>, key: string): Result<string, ReadError> {
    var n :- Field(dict, key);
    StringValue(n)
  }

  function IntField(dict: seq<(string, Node)>, key: string): Result<int32, ReadError> {
    var n :- Field(dict, key);
    Typed(n.AsInt())
  }

  function BoolField(dict: seq<(string, Node)>, key: string): Result<bool, ReadError> {
    var n :- Field(dict, key);
    Typed(n.AsBool())
  }

  function DoubleField(dict: seq<(string, Node)>, key: string): Result<real, ReadError> {
    var n :- Field(dict, key);
    Typed(n.AsDouble())
  }

  function ArrayField(dict: seq<(string, Node)>, key: string): Result<seq<Node>, ReadError> {
    var n :- Field(dict, key);
    Typed(n.AsArray())
  }

  function MapField(dict: seq<(string, Node)>, key: string): Result<seq<(string, Node)>, ReadError> {
    var n :- Field(dict, key);
    Typed(n.AsMap())
  }

  // ---------------------------------------------------------------------
  // Stat requests
  // ---------------------------------------------------------------------

  datatype RequestType = BUS | STOP | MAP

  /** A question: its id, its kind and, unless it asks for the map, the bus or stop name. */
  datatype StatRequest = StatRequest(id: int32, kind: RequestType, name: string)

  /** The text of a request's "type" field. */
  function TypeName(kind: RequestType): string {
    match kind
    case BUS => "Bus"
    case STOP => "Stop"
    case MAP => "Map"
  }

  /** `ReadStatRequest`: "id", then "type", then "name" unless the type is "Map". */
  function ReadStatRequest(dict: seq<(string, Node)>): Result<StatRequest, ReadError> {
    var id :- IntField(dict, "id");
    var typeName :- StringField(dict, "type");
    var kind :- if typeName == "Bus" then Ok(BUS)
                else if typeName == "Stop" then Ok(STOP)
                else if typeName == "Map" then Ok(MAP)
                else Err(AssertionFailed);
    if kind == MAP then Ok(StatRequest(id, MAP, ""))
    else
      var name :- StringField(dict, "name");
      Ok(StatRequest(id, kind, name))
  }

  /**
   * A request reads exactly when it has an Int "id", a String "type" naming
   * one of the three kinds and, unless the kind is "Map", a String "name";
   * the request carries that id, that kind and that name (none for the
   * map).
   */
  lemma {:induction false} ReadStatRequestSpec(dict: seq<(string, Node)>)
    ensures ReadStatRequest(dict).Ok? <==>
      (Lookup(dict, "id").Some? && Lookup(dict, "id").value.Int? &&
       Lookup(dict, "type").Some? && Lookup(dict, "type").value.String? &&
       Lookup(dict, "type").value.s in {"Bus", "Stop", "Map"} &&
       (Lookup(dict, "type").value.s != "Map" ==> Lookup(dict, "name").Some? && Lookup(dict, "name").value.String?))
    ensures ReadStatRequest(dict).Ok? ==>
      var r := ReadStatRequest(dict).value;
      r.id == Lookup(dict, "id").value.i &&
      TypeName(r.kind) == Lookup(dict, "type").value.s &&
      r.name == if r.kind == MAP then "" else Lookup(dict, "name").value.s
    ensures Lookup(dict, "id").None? ==> ReadStatRequest(dict) == Err(MissingKey("id"))
  {
    var id := Field(dict, "id");
    var kind := Field(dict, "type");
    var name := Field(dict, "name");
  }

  /** A request as the JSON dictionary it is read from, keys in map order. */
  function StatRequestDict(r: StatRequest): seq<(string, Node)> {
    [("id", Int(r.id)), ("name", String(r.name)), ("type", String(TypeName(r.kind)))]
  }

  /** Reading the dictionary of a request gives the request back. */
  lemma {:induction false} StatRequestRoundTrip(r: StatRequest)
    requires r.kind == MAP ==> r.name == ""
    ensures Sorted(StatRequestDict(r))
    ensures ReadStatRequest(StatRequestDict(r)) == Ok(r)
  {
    var d := StatRequestDict(r);
    assert Lookup(d, "id") == Some(Int(r.id));
    assert Lookup(d, "name") == Some(String(r.name));
    assert Lookup(d[1..][1..], "type") == Some(String(TypeName(r.kind)));
    AscendingSorted(d);
  }

  /** Keys ascending from each entry to the next make a dictionary in key order. */
  lemma {:induction false} AscendingSorted(entries: seq<(string, Node)>)
    requires forall i :: 0 <= i < |entries| - 1 ==> Less(entries[i].0, entries[i + 1].0)
    ensures Sorted(entries)
  {
    if |entries| > 1 {
      var rest := entries[1..];
      forall i | 0 <= i < |rest| - 1 ensures Less(rest[i].0, rest[i + 1].0) {
        assert rest[i] == entries[i + 1] && rest[i + 1] == entries[i + 2];
      }
      AscendingSorted(rest);
      PrependSorted(entries[0].0, entries[0].1, rest);
      assert [(entries[0].0, entries[0].1)] + rest == entries;
    }
  }

  // ---------------------------------------------------------------------
  // Colours
  // ---------------------------------------------------------------------

  /** The `uint8_t` an `int` converts to: the value modulo 256. */
  function ToUint8(i: int32): (r: uint8)
    ensures (r as int - i as int) % 256 == 0
    ensures 0 <= i < 256 ==> r as int == i as int
  {
    ((i as int) % 256) as uint8
  }

  function Component(n: Node): Result<uint8, ReadError> {
    var i :- Typed(n.AsInt());
    Ok(ToUint8(i))
  }

  /** `ReadColor`: a string names a colour, three Ints are RGB, three Ints and a number are RGBA. */
  function ReadColor(n: Node): Result<Color, ReadError> {
    if n.IsString() then Ok(Named(n.s))
    else if n.IsArray() && |n.items| == 3 then
      var red :- Component(n.items[0]);
      var green :- Component(n.items[1]);
      var blue :- Component(n.items[2]);
      Ok(Rgb(red, green, blue))
    else if n.IsArray() && |n.items| == 4 then
      var red :- Component(n.items[0]);
      var green :- Component(n.items[1]);
      var blue :- Component(n.items[2]);
      var opacity :- Typed(n.items[3].AsDouble());
      Ok(Rgba(red, green, blue, opacity))
    else Err(AssertionFailed)
  }

  /**
   * A colour reads exactly from a String, from an Array of three Ints, or
   * from an Array of three Ints and a number; it is never "none", and an
   * Array of any other length fails the assertion.
   */
  lemma {:induction false} ReadColorSpec(n: Node)
    ensures ReadColor(n).Ok? <==>
      n.String? ||
      (n.Array? && |n.items| == 3 && n.items[0].Int? && n.items[1].Int? && n.items[2].Int?) ||
      (n.Array? && |n.items| == 4 && n.items[0].Int? && n.items[1].Int? && n.items[2].Int? && n.items[3].IsDouble())
    ensures ReadColor(n).Ok? ==> ReadColor(n).value != NoColor
    ensures !n.String? && !(n.Array? && 3 <= |n.items| <= 4) ==> ReadColor(n) == Err(AssertionFailed)
    ensures n.Array? && |n.items| == 3 && ReadColor(n).Ok? ==>
      ReadColor(n).value == Rgb(ToUint8(n.items[0].i), ToUint8(n.items[1].i), ToUint8(n.items[2].i))
  {
  }

  /** A colour as the JSON it is read from. */
  function ColorNode(c: Color): Node {
    match c
    case NoColor => Null
    case Named(name) => String(name)
    case Rgb(r, g, b) => Array([Int(r as int32), Int(g as int32), Int(b as int32)])
    case Rgba(r, g, b, o) => Array([Int(r as int32), Int(g as int32), Int(b as int32), Double(o)])
  }

  /** Every colour but "none" reads back from its JSON. */
  lemma {:induction false} ColorRoundTrip(c: Color)
    requires c != NoColor
    ensures ReadColor(ColorNode(c)) == Ok(c)
  {
    match c
    case Named(_) =>
    case Rgb(r, g, b) =>
      assert ToUint8(r as int32) == r && ToUint8(g as int32) == g && ToUint8(b as int32) == b;
    case Rgba(r, g, b, _) =>
      assert ToUint8(r as int32) == r && ToUint8(g as int32) == g && ToUint8(b as int32) == b;
  }

  /** `ReadColorPalette`: every element of the array, in order. */
  method ReadColorPalette(palette: seq<Node>) returns (r: Result<seq<Color>, ReadError>)
    ensures r == Each(palette, ReadColor)
  {
    r := ReadEach(palette, ReadColor);
  }

  // ---------------------------------------------------------------------
  // Base requests
  // ---------------------------------------------------------------------

  /** A bus to add: its name, whether it is a ring, and its stop names in route order. */
  datatype BaseRequestBus = BaseRequestBus(name: string, ring: bool, stops: seq<string>)

  /** A stop to add: its name, coordinates, and road distances to other stops. */
  datatype BaseRequestStop = BaseRequestStop(name: string, coordinates: TC.Coordinates, distances: seq<(string, TC.uint32)>)

  function BusRequest(dict: seq<(string, Node)>): Result<BaseRequestBus, ReadError> {
    var name :- StringField(dict, "name");
    var ring :- BoolField(dict, "is_roundtrip");
    var items :- ArrayField(dict, "stops");
    var stops :- Each(items, StringValue);
    Ok(BaseRequestBus(name, ring, stops))
  }

  /** `ReadBaseRequestBus`: "name", "is_roundtrip", then each of "stops" as a string. */
  method ReadBaseRequestBus(dict: seq<(string, Node)>) returns (r: Result<BaseRequestBus, ReadError>)
    ensures r == BusRequest(dict)
  {
    var name :- StringField(dict, "name");
    var ring :- BoolField(dict, "is_roundtrip");
    var items :- ArrayField(dict, "stops");
    var stops :- ReadEach(items, StringValue);
    r := Ok(BaseRequestBus(name, ring, stops));
  }

  function StringNodes(names: seq<string>): (r: seq<Node>)
    ensures |r| == |names| && forall k :: 0 <= k < |names| ==> r[k] == String(names[k])
  {
    seq(|names|, k requires 0 <= k < |names| => String(names[k]))
  }

  /** A bus request as the JSON dictionary it is read from, keys in map order. */
  function BusRequestDict(bus: BaseRequestBus): seq<(string, Node)> {
    [("is_roundtrip", Bool(bus.ring)), ("name", String(bus.name)), ("stops", Array(StringNodes(bus.stops)))]
  }

  /** Reading the dictionary of a bus request gives the request back, stops in the same order. */
  lemma {:induction false} BusRequestRoundTrip(bus: BaseRequestBus)
    ensures Sorted(BusRequestDict(bus))
    ensures BusRequest(BusRequestDict(bus)) == Ok(bus)
  {
    var d := BusRequestDict(bus);
    var items := StringNodes(bus.stops);
    assert Lookup(d, "name") == Some(String(bus.name));
    assert Lookup(d, "is_roundtrip") == Some(Bool(bus.ring));
    assert Lookup(d[1..][1..], "stops") == Some(Array(items));
    AscendingSorted(d);
    EachSpec(items, StringValue);
    assert Each(items, StringValue).value == bus.stops;
  }

  /** The `uint32_t` an `int` converts to: the value modulo 2^32. */
  function ToUint32(i: int32): (r: TC.uint32)
    ensures (r as int - i as int) % 0x1_0000_0000 == 0
    ensures 0 <= i ==> r as int == i as int
  {
    ((i as int) % 0x1_0000_0000) as TC.uint32
  }

  /** One road distance: the destination and its Int length, converted to `uint32_t`. */
  function Distance(entry: (string, Node)): Result<(string, TC.uint32), ReadError> {
    var d :- Typed(entry.1.AsInt());
    Ok((entry.0, ToUint32(d)))
  }

  function StopRequest(dict: seq<(string, Node)>): Result<BaseRequestStop, ReadError> {
    var name :- StringField(dict, "name");
    var lat :- DoubleField(dict, "latitude");
    var lng :- DoubleField(dict, "longitude");
    var roads :- MapField(dict, "road_distances");
    var distances :- Each(roads, Distance);
    Ok(BaseRequestStop(name, TC.Coordinates(lat, lng), distances))
  }

  /** `ReadBaseRequestStop`: "name", "latitude", "longitude", then each entry of "road_distances". */
  method ReadBaseRequestStop(dict: seq<(string, Node)>) returns (r: Result<BaseRequestStop, ReadError>)
    ensures r == StopRequest(dict)
  {
    var name :- StringField(dict, "name");
    var lat :- DoubleField(dict, "latitude");
    var lng :- DoubleField(dict, "longitude");
    var roads :- MapField(dict, "road_distances");
    var distances :- ReadEach(roads, Distance);
    r := Ok(BaseRequestStop(name, TC.Coordinates(lat, lng), distances));
  }

  /**
   * The road distances come in the dictionary's order, so with strictly
   * ascending destinations, one per entry, each the entry's Int modulo 2^32;
   * they read exactly when every entry holds an Int.
   */
  lemma {:induction false} DistancesSpec(roads: seq<(string, Node)>)
    requires Sorted(roads)
    ensures Each(roads, Distance).Ok? <==> forall k :: 0 <= k < |roads| ==> roads[k].1.Int?
    ensures Each(roads, Distance).Ok? ==>
      var ds := Each(roads, Distance).value;
      |ds| == |roads| &&
      (forall k :: 0 <= k < |roads| ==> ds[k] == (roads[k].0, ToUint32(roads[k].1.i))) &&
      (forall i, j :: 0 <= i < j < |ds| ==> Less(ds[i].0, ds[j].0))
  {
    EachSpec(roads, Distance);
    if Each(roads, Distance).Ok? {
      var ds := Each(roads, Distance).value;
      forall i, j | 0 <= i < j < |ds| ensures Less(ds[i].0, ds[j].0) {
        assert ds[i].0 == roads[i].0 && ds[j].0 == roads[j].0;
      }
    }
  }

  // ---------------------------------------------------------------------
  // The whole input
  // ---------------------------------------------------------------------

  /** One element of "base_requests": a stop or a bus, by its "type". */
  datatype BaseRequest = StopItem(stop: BaseRequestStop) | BusItem(bus: BaseRequestBus)

  function BaseRequestNode(n: Node): Result<BaseRequest, ReadError> {
    var request :- Typed(n.AsMap());
    var kind :- StringField(request, "type");
    if kind == "Bus" then
      var bus :- BusRequest(request);
      Ok(BusItem(bus))
    else if kind == "Stop" then
      var stop :- StopRequest(request);
      Ok(StopItem(stop))
    else Err(AssertionFailed)
  }

  /** The stops among the base requests, in order. */
  function StopsOf(requests: seq<BaseRequest>): seq<BaseRequestStop> {
    if requests == [] then []
    else
      var last := requests[|requests| - 1];
      StopsOf(requests[..|requests| - 1]) + (if last.StopItem? then [last.stop] else [])
  }

  /** The buses among the base requests, in order. */
  function BusesOf(requests: seq<BaseRequest>): seq<BaseRequestBus> {
    if requests == [] then []
    else
      var last := requests[|requests| - 1];
      BusesOf(requests[..|requests| - 1]) + (if last.BusItem? then [last.bus] else [])
  }

  /**
   * Splitting by kind keeps order: the stops of two runs of requests are
   * the stops of the first run, then those of the second; so are the buses.
   */
  lemma {:induction false} SplitConcat(a: seq<BaseRequest>, b: seq<BaseRequest>)
    ensures StopsOf(a + b) == StopsOf(a) + StopsOf(b)
    ensures BusesOf(a + b) == BusesOf(a) + BusesOf(b)
    decreases |b|
  {
    if b == [] {
      assert a + b == a;
    } else {
      var n := |b| - 1;
      assert (a + b)[..|a + b| - 1] == a + b[..n];
      assert (a + b)[|a + b| - 1] == b[n];
      SplitConcat(a, b[..n]);
    }
  }

  /** Every base request is exactly one stop or one bus. */
  lemma {:induction false} SplitCount(requests: seq<BaseRequest>)
    ensures |StopsOf(requests)| + |BusesOf(requests)| == |requests|
  {
    if requests != [] {
      SplitCount(requests[..|requests| - 1]);
    }
  }

  /**
   * Routing loses and invents nothing: each stop request is among the
   * stops and each bus request among the buses, and nothing else is.
   */
  lemma {:induction false} SplitMembers(requests: seq<BaseRequest>)
    ensures forall x :: x in StopsOf(requests) <==> StopItem(x) in requests
    ensures forall x :: x in BusesOf(requests) <==> BusItem(x) in requests
  {
    if requests != [] {
      var n := |requests| - 1;
      SplitMembers(requests[..n]);
      assert requests == requests[..n] + [requests[n]];
    }
  }

  /** One base request, read by kind. */
  method ReadBaseRequest(n: Node) returns (r: Result<BaseRequest, ReadError>)
    ensures r == BaseRequestNode(n)
  {
    var request :- Typed(n.AsMap());
    var kind :- StringField(request, "type");
    if kind == "Bus" {
      var bus :- ReadBaseRequestBus(request);
      r := Ok(BusItem(bus));
    } else if kind == "Stop" {
      var stop :- ReadBaseRequestStop(request);
      r := Ok(StopItem(stop));
    } else {
      r := Err(AssertionFailed);
    }
  }

  /** A stat request element: a dictionary, read by `ReadStatRequest`. */
  function StatRequestNode(n: Node): Result<StatRequest, ReadError> {
    var dict :- Typed(n.AsMap());
    ReadStatRequest(dict)
  }

  /**
   * The input: stops and buses to add, questions in order, and the render
   * settings dictionary, whose fields are not read here.
   */
  datatype Input = Input(stops: seq<BaseRequestStop>, buses: seq<BaseRequestBus>, statRequests: seq<StatRequest>,
                         renderSettings: seq<(string, Node)>)

  function InputOf(root: Node): Result<Input, ReadError> {
    var document :- Typed(root.AsMap());
    var base :- ArrayField(document, "base_requests");
    var requests :- Each(base, BaseRequestNode);
    var stat :- ArrayField(document, "stat_requests");
    var questions :- Each(stat, StatRequestNode);
    var settings :- MapField(document, "render_settings");
    Ok(Input(StopsOf(requests), BusesOf(requests), questions, settings))
  }

  /** `JsonReader::Read` on a loaded document. */
  method Read(document: Document) returns (r: Result<Input, ReadError>)
    ensures r == InputOf(document.GetRoot())
  {
    var root :- Typed(document.GetRoot().AsMap());
    var base :- ArrayField(root, "base_requests");
    var stops: seq<BaseRequestStop> := [];
    var buses: seq<BaseRequestBus> := [];
    ghost var requests: seq<BaseRequest> := [];
    for i := 0 to |base|
      invariant Each(base[..i], BaseRequestNode) == Ok(requests)
      invariant stops == StopsOf(requests) && buses == BusesOf(requests)
    {
      assert base[..i + 1][..i] == base[..i];
      assert base[..i + 1][i] == base[i];
      var request := ReadBaseRequest(base[i]);
      if request.Err? {
        EachPrefixErr(base, BaseRequestNode, i + 1);
        return Err(request.error);
      }
      assert Each(base[..i + 1], BaseRequestNode) == Ok(requests + [request.value]);
      match request.value {
        case BusItem(bus) => buses := buses + [bus];
        case StopItem(stop) => stops := stops + [stop];
      }
      assert (requests + [request.value])[..|requests|] == requests;
      requests := requests + [request.value];
    }
    assert base[..|base|] == base;
    var stat :- ArrayField(root, "stat_requests");
    var questions :- ReadEach(stat, StatRequestNode);
    var settings :- MapField(root, "render_settings");
    r := Ok(Input(stops, buses, questions, settings));
  }

  // ---------------------------------------------------------------------
  // Replies
  // ---------------------------------------------------------------------

  /** An answer: nothing found, a bus, a stop, or the map's SVG text. */
  datatype Answer =
    | NotFound
    | BusAnswer(bus: TC.BusInfo)
    | StopAnswer(stop: TC.StopInfo)
    | MapAnswer(svg: string)

  datatype StatRequestResult = StatRequestResult(requestId: int32, answer: Answer)

  /** The `int` a count converts to: the value modulo 2^32, in the signed range. */
  function ToInt32(n: nat): (r: int32)
    ensures (r as int - n) % 0x1_0000_0000 == 0
    ensures n < 0x8000_0000 ==> r as int == n
  {
    ((n + 0x8000_0000) % 0x1_0000_0000 - 0x8000_0000) as int32
  }

  /** `StatResultPrinter`: the fields of one answer, emplaced after "request_id". */
  function Reply(result: StatRequestResult): seq<(string, Node)> {
    var d := Emplace([], "request_id", Int(result.requestId));
    match result.answer
    case NotFound => Emplace(d, "error_message", String("not found"))
    case BusAnswer(info) =>
      Emplace(Emplace(Emplace(Emplace(d, "curvature", Double(info.curvature)), "route_length", Double(info.length)),
                      "stop_count", Int(ToInt32(info.stops))), "unique_stop_count", Int(ToInt32(info.uniqueStops)))
    case StopAnswer(info) => Emplace(d, "buses", Array(StringNodes(info.buses)))
    case MapAnswer(svg) => Emplace(d, "map", String(svg))
  }

  /**
   * Emplacing four entries around a first one whose keys ascend as
   * `c < id < l < s < u` lays them out in that order.
   */
  lemma AscendingEmplaced(id: (string, Node), c: (string, Node), l: (string, Node), s: (string, Node), u: (string, Node))
    requires Less(c.0, id.0) && Less(id.0, l.0) && Less(l.0, s.0) && Less(s.0, u.0)
    ensures Emplace(Emplace(Emplace(Emplace([id], c.0, c.1), l.0, l.1), s.0, s.1), u.0, u.1) == [c, id, l, s, u]
    ensures Sorted([c, id, l, s, u])
  {
    LessIrreflexive(c.0);
    assert Emplace([id], c.0, c.1) == [c, id];
    AscendingSorted([c, id, l]);
    assert [c, id] + [l] == [c, id, l];
    EmplaceGreatest([c, id], l.0, l.1);
    AscendingSorted([c, id, l, s]);
    assert [c, id, l] + [s] == [c, id, l, s];
    EmplaceGreatest([c, id, l], s.0, s.1);
    AscendingSorted([c, id, l, s, u]);
    assert [c, id, l, s] + [u] == [c, id, l, s, u];
    EmplaceGreatest([c, id, l, s], u.0, u.1);
  }

  /**
   * Each reply is a dictionary in key order holding "request_id" and the
   * fields of its answer: the error message "not found", the four bus
   * figures, the buses through the stop in order, or the map.
   */
  lemma {:induction false} ReplyEntries(result: StatRequestResult)
    ensures Sorted(Reply(result))
    ensures var id := ("request_id", Int(result.requestId));
      match result.answer
      case NotFound => Reply(result) == [("error_message", String("not found")), id]
      case BusAnswer(info) => Reply(result) ==
        [("curvature", Double(info.curvature)), id, ("route_length", Double(info.length)),
         ("stop_count", Int(ToInt32(info.stops))), ("unique_stop_count", Int(ToInt32(info.uniqueStops)))]
      case StopAnswer(info) => Reply(result) == [("buses", Array(StringNodes(info.buses))), id]
      case MapAnswer(svg) => Reply(result) == [("map", String(svg)), id]
  {
    var id := ("request_id", Int(result.requestId));
    assert Emplace([], id.0, id.1) == [id];
    match result.answer
    case NotFound =>
      assert Less("error_message", "request_id");
    case BusAnswer(info) =>
      assert Less("curvature", "request_id");
      assert Less("request_id", "route_length");
      assert Less("route_length", "stop_count");
      assert Less("stop_count", "unique_stop_count");
      AscendingEmplaced(id, ("curvature", Double(info.curvature)), ("route_length", Double(info.length)),
                        ("stop_count", Int(ToInt32(info.stops))), ("unique_stop_count", Int(ToInt32(info.uniqueStops))));
    case StopAnswer(info) =>
      assert Less("buses", "request_id");
    case MapAnswer(svg) =>
      assert Less("map", "request_id");
  }

  /** The reply array: one dictionary per result, in order. */
  function Replies(results: seq<StatRequestResult>): (r: seq<Node>)
    ensures |r| == |results| && forall k :: 0 <= k < |results| ==> r[k] == Dict(Reply(results[k]))
  {
    seq(|results|, k requires 0 <= k < |results| => Dict(Reply(results[k])))
  }

  /** `JsonWriter::Write`: the reply array, printed as one document. */
  method Write(results: seq<StatRequestResult>, format: DoubleFormat, output: string) returns (out: string)
    ensures out == output + DocumentText(Document(Array(Replies(results))), format)
  {
    var replies: seq<Node> := [];
    for i := 0 to |results|
      invariant replies == Replies(results[..i])
    {
      replies := replies + [Dict(Reply(results[i]))];
    }
    assert results[..|results|] == results;
    out := Print(Document(Array(replies)), format, output);
  }
}
