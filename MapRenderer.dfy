/**
 * The discrete rules of the map renderer: which buses are drawn and in what
 * order, the colour each one gets from the palette, the set of stops drawn,
 * the points of a bus line, the stops a bus name is written at, and the
 * order of the four layers of the picture.
 *
 * Buses and stops are the catalogue's values; a stop pointer is a `StopRef`
 * into the stop table. The sphere projector, whose zoom is floating-point
 * arithmetic over the drawn stops, is a parameter: every position below is
 * `project` applied to a stop's coordinates. An SVG object is a `Shape`
 * value carrying the properties the renderer sets on it, and a container is
 * the sequence of shapes added to it.
 */
module MapRenderer {
  import opened Wrappers
  import opened Text
  import opened NameSet
  import opened Svg
  import opened TransportCatalogue

  datatype Point = Point(x: real, y: real)

  /** `SphereProjector::operator()`. */
  type Projector = Coordinates -> Point

  /** `svg::PathProps`: each property is absent until a setter gives it a value. */
  datatype PathProps = PathProps(
    fill: Option<Color>,
    stroke: Option<Color>,
    strokeWidth: Option<real>,
    lineCap: Option<StrokeLineCap>,
    lineJoin: Option<StrokeLineJoin>)

  /** The SVG objects the renderer creates: `svg::Polyline`, `svg::Circle` and `svg::Text`. */
  datatype Shape =
    | Polyline(points: seq<Point>, props: PathProps)
    | Circle(center: Point, radius: real, props: PathProps)
    | TextElement(position: Point, offset: Point, fontSize: int, fontFamily: string,
                  fontWeight: Option<string>, data: string, props: PathProps)

  /** `RenderSettings`. */
  datatype RenderSettings = RenderSettings(
    width: real,
    height: real,
    padding: real,
    lineWidth: real,
    stopRadius: real,
    busLabelFontSize: int,
    busLabelOffset: Point,
    stopLabelFontSize: int,
    stopLabelOffset: Point,
    underlayerColor: Color,
    underlayerWidth: real,
    palette: seq<Color>)

  /** Every stop of every bus is a real stop: drawing dereferences each one. */
  predicate Drawable(buses: seq<Bus>, stops: seq<Stop>) {
    forall b :: 0 <= b < |buses| ==> Resolves(buses[b].stops, |stops|)
  }

  /** The palette is only indexed when some bus has stops, and then it must not be empty. */
  predicate Paintable(buses: seq<Bus>, palette: seq<Color>) {
    |palette| > 0 || forall b :: 0 <= b < |buses| ==> buses[b].stops == []
  }

  // ---------------------------------------------------------------------
  // Buses for drawing: sorted by name, empty ones skipped, colours cycled
  // ---------------------------------------------------------------------

  /** Ascending by name, as `std::sort` with `a->name < b->name` leaves them. */
  predicate SortedByName(buses: seq<Bus>) {
    forall i, j :: 0 <= i < j < |buses| ==> !Less(buses[j].name, buses[i].name)
  }

  /** A bus placed before the first bus of a greater name. */
  function InsertByName(sorted: seq<Bus>, bus: Bus): seq<Bus> {
    if sorted == [] || Less(bus.name, sorted[0].name) then [bus] + sorted
    else [sorted[0]] + InsertByName(sorted[1..], bus)
  }

  /** No bus of the sequence has a name below `name`. */
  predicate NotBelow(buses: seq<Bus>, name: string) {
    forall k :: 0 <= k < |buses| ==> !Less(buses[k].name, name)
  }

  lemma {:induction false} SortedTail(sorted: seq<Bus>)
    requires SortedByName(sorted) && sorted != []
    ensures SortedByName(sorted[1..]) && NotBelow(sorted[1..], sorted[0].name)
  {
    forall k | 0 <= k < |sorted[1..]| ensures !Less(sorted[1..][k].name, sorted[0].name) {
      assert sorted[1..][k] == sorted[k + 1];
    }
  }

  lemma {:induction false} ConsSorted(bus: Bus, rest: seq<Bus>)
    requires SortedByName(rest) && NotBelow(rest, bus.name)
    ensures SortedByName([bus] + rest)
  {
    var r := [bus] + rest;
    forall i, j | 0 <= i < j < |r|
      ensures !Less(r[j].name, r[i].name)
    {
      assert r[j] == rest[j - 1];
      if i > 0 {
        assert r[i] == rest[i - 1];
      }
    }
  }

  lemma {:induction false} InsertByNameMultiset(sorted: seq<Bus>, bus: Bus)
    ensures multiset(InsertByName(sorted, bus)) == multiset(sorted) + multiset{bus}
  {
    if sorted != [] && !Less(bus.name, sorted[0].name) {
      InsertByNameMultiset(sorted[1..], bus);
      assert sorted == [sorted[0]] + sorted[1..];
    }
  }

  lemma {:induction false} InsertNotBelow(sorted: seq<Bus>, bus: Bus, name: string)
    requires NotBelow(sorted, name) && !Less(bus.name, name)
    ensures NotBelow(InsertByName(sorted, bus), name)
  {
    if sorted != [] && !Less(bus.name, sorted[0].name) {
      assert NotBelow(sorted[1..], name) by {
        forall k | 0 <= k < |sorted[1..]| ensures !Less(sorted[1..][k].name, name) {
          assert sorted[1..][k] == sorted[k + 1];
        }
      }
      InsertNotBelow(sorted[1..], bus, name);
      var r := [sorted[0]] + InsertByName(sorted[1..], bus);
      forall k | 0 <= k < |r| ensures !Less(r[k].name, name) {
        if k > 0 {
          assert r[k] == InsertByName(sorted[1..], bus)[k - 1];
        }
      }
    } else {
      var r := [bus] + sorted;
      forall k | 0 <= k < |r| ensures !Less(r[k].name, name) {
        if k > 0 {
          assert r[k] == sorted[k - 1];
        }
      }
    }
  }

  /** A bus below the first name is below no later one. */
  lemma {:induction false} BelowFirst(sorted: seq<Bus>, bus: Bus)
    requires SortedByName(sorted) && sorted != [] && Less(bus.name, sorted[0].name)
    ensures NotBelow(sorted, bus.name)
  {
    forall k | 0 <= k < |sorted| ensures !Less(sorted[k].name, bus.name) {
      if Less(sorted[k].name, bus.name) {
        LessTransitive(sorted[k].name, bus.name, sorted[0].name);
        if k == 0 {
          LessIrreflexive(sorted[0].name);
        }
      }
    }
  }

  /** Insertion keeps the order. */
  lemma {:induction false} InsertByNameSorted(sorted: seq<Bus>, bus: Bus)
    requires SortedByName(sorted)
    ensures SortedByName(InsertByName(sorted, bus))
  {
    if sorted == [] {
    } else if Less(bus.name, sorted[0].name) {
      BelowFirst(sorted, bus);
      ConsSorted(bus, sorted);
    } else {
      SortedTail(sorted);
      InsertByNameSorted(sorted[1..], bus);
      InsertNotBelow(sorted[1..], bus, sorted[0].name);
      ConsSorted(sorted[0], InsertByName(sorted[1..], bus));
    }
  }

  /** The buses in name order: each one inserted in turn. */
  function SortedBuses(buses: seq<Bus>): seq<Bus> {
    if buses == [] then []
    else InsertByName(SortedBuses(buses[..|buses| - 1]), buses[|buses| - 1])
  }

  /** The sorted buses are ascending by name and a permutation of the input. */
  lemma {:induction false} SortedBusesSorted(buses: seq<Bus>)
    ensures SortedByName(SortedBuses(buses))
    ensures multiset(SortedBuses(buses)) == multiset(buses)
  {
    if buses != [] {
      var init := buses[..|buses| - 1];
      SortedBusesSorted(init);
      InsertByNameSorted(SortedBuses(init), buses[|buses| - 1]);
      InsertByNameMultiset(SortedBuses(init), buses[|buses| - 1]);
      assert buses == init + [buses[|buses| - 1]];
    }
  }

  /** The sort of `GetBusesForDrawing`, one insertion per bus. */
  method SortByName(buses: seq<Bus>) returns (sorted: seq<Bus>)
    ensures sorted == SortedBuses(buses)
  {
    sorted := [];
    for i := 0 to |buses|
      invariant sorted == SortedBuses(buses[..i])
    {
      assert buses[..i + 1][..i] == buses[..i];
      sorted := InsertByName(sorted, buses[i]);
    }
    assert buses[..|buses|] == buses;
  }

  /** The buses with at least one stop, in order. */
  function Kept(buses: seq<Bus>): seq<Bus> {
    if buses == [] then []
    else Kept(buses[..|buses| - 1]) + (if buses[|buses| - 1].stops != [] then [buses[|buses| - 1]] else [])
  }

  /** Skipping empty buses keeps every bus with stops, as often as it occurs. */
  lemma {:induction false} KeptCount(buses: seq<Bus>)
    ensures forall b :: b in Kept(buses) ==> b.stops != []
    ensures forall b: Bus :: b.stops != [] ==> multiset(Kept(buses))[b] == multiset(buses)[b]
  {
    KeptHaveStops(buses);
    forall b: Bus | b.stops != []
      ensures multiset(Kept(buses))[b] == multiset(buses)[b]
    {
      KeptCountOf(buses, b);
    }
  }

  lemma {:induction false} KeptHaveStops(buses: seq<Bus>)
    ensures forall b :: b in Kept(buses) ==> b.stops != []
  {
    if buses != [] {
      var init, last := buses[..|buses| - 1], buses[|buses| - 1];
      KeptHaveStops(init);
      assert Kept(buses) == Kept(init) + (if last.stops != [] then [last] else []);
    }
  }

  lemma {:induction false} KeptCountOf(buses: seq<Bus>, b: Bus)
    requires b.stops != []
    ensures multiset(Kept(buses))[b] == multiset(buses)[b]
  {
    if buses != [] {
      var init, last := buses[..|buses| - 1], buses[|buses| - 1];
      var tail := if last.stops != [] then [last] else [];
      KeptCountOf(init, b);
      assert Kept(buses) == Kept(init) + tail;
      assert buses == init + [last];
      assert multiset(tail)[b] == multiset([last])[b];
    }
  }

  lemma {:induction false} SnocSorted(sorted: seq<Bus>, bus: Bus)
    requires SortedByName(sorted)
    requires forall k :: 0 <= k < |sorted| ==> !Less(bus.name, sorted[k].name)
    ensures SortedByName(sorted + [bus])
  {
    var r := sorted + [bus];
    forall i, j | 0 <= i < j < |r|
      ensures !Less(r[j].name, r[i].name)
    {
      assert r[i] == sorted[i];
    }
  }

  /** Skipping empty buses keeps the order. */
  lemma {:induction false} KeptSorted(buses: seq<Bus>)
    requires SortedByName(buses)
    ensures SortedByName(Kept(buses))
  {
    if buses != [] {
      var init := buses[..|buses| - 1];
      var last := buses[|buses| - 1];
      assert SortedByName(init);
      KeptSorted(init);
      if last.stops != [] {
        var k := Kept(init);
        KeptCount(init);
        forall i | 0 <= i < |k| ensures !Less(last.name, k[i].name) {
          assert k[i] in multiset(init);
          var m :| 0 <= m < |init| && init[m] == k[i];
          assert buses[m] == k[i];
        }
        SnocSorted(k, last);
      }
    }
  }

  /** Only kept buses draw from the palette. */
  lemma {:induction false} PaintableKept(buses: seq<Bus>, palette: seq<Color>)
    requires Paintable(buses, palette)
    ensures |palette| > 0 || Kept(buses) == []
  {
    if buses != [] {
      var init := buses[..|buses| - 1];
      assert Paintable(init, palette) by {
        forall b | 0 <= b < |init| ensures |palette| > 0 || init[b].stops == [] {
          assert init[b] == buses[b];
        }
      }
      PaintableKept(init, palette);
    }
  }

  /** The k-th bus drawn gets colour `k mod |palette|`. */
  function Colored(kept: seq<Bus>, palette: seq<Color>): (r: seq<(Bus, Color)>)
    requires |palette| > 0 || kept == []
    ensures |r| == |kept|
    ensures forall k :: 0 <= k < |r| ==> r[k] == (kept[k], palette[k % |palette|])
  {
    seq(|kept|, k requires 0 <= k < |kept| && |palette| > 0 => (kept[k], palette[k % |palette|]))
  }

  /** `GetBusesForDrawing`. */
  function BusesForDrawing(buses: seq<Bus>, palette: seq<Color>): seq<(Bus, Color)>
    requires Paintable(buses, palette)
  {
    SortedBusesSorted(buses);
    PaintableSorted(buses, palette);
    PaintableKept(SortedBuses(buses), palette);
    Colored(Kept(SortedBuses(buses)), palette)
  }

  lemma {:induction false} PaintableSorted(buses: seq<Bus>, palette: seq<Color>)
    requires Paintable(buses, palette)
    ensures Paintable(SortedBuses(buses), palette)
  {
    SortedBusesSorted(buses);
    var s := SortedBuses(buses);
    if |palette| == 0 {
      forall b | 0 <= b < |s| ensures s[b].stops == [] {
        assert s[b] in multiset(buses);
      }
    }
  }

  /**
   * The buses drawn are those with stops, each as often as given, ascending
   * by name, and the k-th of them has palette colour `k mod |palette|`.
   */
  lemma {:induction false} BusesForDrawingProps(buses: seq<Bus>, palette: seq<Color>)
    requires Paintable(buses, palette)
    ensures var r := BusesForDrawing(buses, palette);
      (|r| == 0 || |palette| > 0) &&
      (forall k :: 0 <= k < |r| ==> r[k].0.stops != [] && r[k].1 == palette[k % |palette|]) &&
      (forall i, j :: 0 <= i < j < |r| ==> !Less(r[j].0.name, r[i].0.name)) &&
      (forall b: Bus :: b.stops != [] ==> multiset(DrawnBuses(r))[b] == multiset(buses)[b])
  {
    var s := SortedBuses(buses);
    SortedBusesSorted(buses);
    KeptCount(s);
    KeptSorted(s);
    var r := BusesForDrawing(buses, palette);
    assert DrawnBuses(r) == Kept(s);
    forall k | 0 <= k < |r| ensures r[k].0.stops != [] {
      assert r[k].0 in Kept(s);
    }
  }

  function DrawnBuses(drawn: seq<(Bus, Color)>): (r: seq<Bus>)
    ensures |r| == |drawn| && forall k :: 0 <= k < |r| ==> r[k] == drawn[k].0
  {
    seq(|drawn|, k requires 0 <= k < |drawn| => drawn[k].0)
  }

  lemma {:induction false} ColoredAppend(kept: seq<Bus>, bus: Bus, palette: seq<Color>)
    requires |palette| > 0
    ensures Colored(kept + [bus], palette) == Colored(kept, palette) + [(bus, palette[|kept| % |palette|])]
  {
  }

  lemma {:induction false} MulAtLeast(a: int, n: int)
    requires a >= 1 && n > 0
    ensures a * n >= n
  {
    if a > 1 {
      MulAtLeast(a - 1, n);
      assert a * n == (a - 1) * n + n;
    }
  }

  /** The remainder is the one left below `n`, whichever quotient gives it. */
  lemma {:induction false} ModOf(x: int, q: int, n: int, m: int)
    requires n > 0 && 0 <= m < n && x == q * n + m
    ensures x % n == m
  {
    var d := x / n;
    var r := x % n;
    assert x == d * n + r;
    assert (d - q) * n == m - r;
    if d > q {
      MulAtLeast(d - q, n);
    }
    if d < q {
      MulAtLeast(q - d, n);
    }
  }

  /** The colour index after `k` drawn buses, wrapped before use, is `k mod n`. */
  lemma {:induction false} NextColorIndex(k: nat, n: nat, index: nat)
    requires n > 0 && index == if k == 0 then 0 else (k - 1) % n + 1
    ensures (if index == n then 0 else index) == k % n
  {
    if k > 0 {
      var q := (k - 1) / n;
      var m := (k - 1) % n;
      assert k - 1 == q * n + m;
      if m + 1 == n {
        assert k == (q + 1) * n + 0;
        ModOf(k, q + 1, n, 0);
      } else {
        ModOf(k, q, n, m + 1);
      }
    }
  }

  lemma {:induction false} KeptStep(buses: seq<Bus>, i: nat)
    requires i < |buses|
    ensures Kept(buses[..i + 1]) == Kept(buses[..i]) + (if buses[i].stops != [] then [buses[i]] else [])
  {
    assert buses[..i + 1][..i] == buses[..i];
  }

  /** One step of `GetBusesForDrawing`: the next bus gets the colour under the index, wrapped at the palette's end. */
  method PaintNext(kept: seq<Bus>, bus: Bus, palette: seq<Color>, r: seq<(Bus, Color)>, colorIndex: nat)
    returns (next: seq<(Bus, Color)>, nextIndex: nat)
    requires |palette| > 0 && r == Colored(kept, palette)
    requires colorIndex == if |r| == 0 then 0 else (|r| - 1) % |palette| + 1
    ensures next == Colored(kept + [bus], palette)
    ensures nextIndex == (|next| - 1) % |palette| + 1
  {
    NextColorIndex(|r|, |palette|, colorIndex);
    var index := colorIndex;
    if index == |palette| {
      index := 0;
    }
    ColoredAppend(kept, bus, palette);
    next := r + [(bus, palette[index])];
    nextIndex := index + 1;
  }

  /** `GetBusesForDrawing`: sort, then walk the buses with a colour index that wraps at the palette's end. */
  method GetBusesForDrawing(buses: seq<Bus>, palette: seq<Color>) returns (r: seq<(Bus, Color)>)
    requires Paintable(buses, palette)
    ensures r == BusesForDrawing(buses, palette)
  {
    var sorted := SortByName(buses);
    PaintableSorted(buses, palette);
    r := [];
    var colorIndex := 0;
    for i := 0 to |sorted|
      invariant |palette| > 0 || Kept(sorted[..i]) == []
      invariant r == Colored(Kept(sorted[..i]), palette)
      invariant colorIndex == if |r| == 0 || |palette| == 0 then 0 else (|r| - 1) % |palette| + 1
    {
      KeptStep(sorted, i);
      if sorted[i].stops != [] {
        r, colorIndex := PaintNext(Kept(sorted[..i]), sorted[i], palette, r, colorIndex);
      }
    }
    assert sorted[..|sorted|] == sorted;
  }

  // ---------------------------------------------------------------------
  // Stops for drawing: a set ordered by stop name
  // ---------------------------------------------------------------------

  /** The names of the stops a route passes. */
  function RouteNames(route: seq<StopRef>, names: seq<string>): set<string>
    requires Resolves(route, |names|)
  {
    set k | 0 <= k < |route| :: names[route[k].value]
  }

  /** `stops.insert(stop)` for each stop of a route, in order. */
  function InsertRoute(ids: seq<nat>, names: seq<string>, route: seq<StopRef>): (r: seq<nat>)
    requires Bounded(ids, names) && Resolves(route, |names|)
    ensures Bounded(r, names)
  {
    if route == [] then ids
    else
      var init := InsertRoute(ids, names, route[..|route| - 1]);
      InsertNames(init, names, route[|route| - 1].value);
      Insert(init, names, route[|route| - 1].value)
  }

  /** `GetStopsForDrawing`: every stop of every bus inserted into the set. */
  function StopsForDrawing(buses: seq<Bus>, stops: seq<Stop>): (r: seq<nat>)
    requires Drawable(buses, stops)
    ensures Bounded(r, StopNames(stops))
  {
    if buses == [] then []
    else InsertRoute(StopsForDrawing(buses[..|buses| - 1], stops), StopNames(stops), buses[|buses| - 1].stops)
  }

  /** Inserting a route adds exactly its stop names, keeps the name order, and adds only its stops. */
  lemma {:induction false} InsertRouteProps(ids: seq<nat>, names: seq<string>, route: seq<StopRef>)
    requires Ordered(ids, names) && Resolves(route, |names|)
    ensures Ordered(InsertRoute(ids, names, route), names)
    ensures NameSetOf(InsertRoute(ids, names, route), names) == NameSetOf(ids, names) + RouteNames(route, names)
    ensures forall x :: x in InsertRoute(ids, names, route) ==> x in ids || Some(x) in route
  {
    if route != [] {
      var init := route[..|route| - 1];
      var last := route[|route| - 1];
      InsertRouteProps(ids, names, init);
      InsertOrdered(InsertRoute(ids, names, init), names, last.value);
      RouteNamesSnoc(route, names);
      forall x | x in InsertRoute(ids, names, route) ensures x in ids || Some(x) in route {
        if x != last.value && x !in ids {
          assert Some(x) in init;
          var k :| 0 <= k < |init| && init[k] == Some(x);
          assert route[k] == init[k];
        }
      }
    }
  }

  lemma {:induction false} RouteNamesSnoc(route: seq<StopRef>, names: seq<string>)
    requires Resolves(route, |names|) && route != []
    ensures Resolves(route[..|route| - 1], |names|)
    ensures RouteNames(route, names) == RouteNames(route[..|route| - 1], names) + {names[route[|route| - 1].value]}
  {
    var init := route[..|route| - 1];
    var last := route[|route| - 1];
    forall n | n in RouteNames(route, names) ensures n in RouteNames(init, names) + {names[last.value]} {
      var k :| 0 <= k < |route| && names[route[k].value] == n;
      if k < |init| {
        assert route[k] == init[k];
      }
    }
    forall n | n in RouteNames(init, names) ensures n in RouteNames(route, names) {
      var k :| 0 <= k < |init| && names[init[k].value] == n;
      assert route[k] == init[k];
    }
  }

  /** The names of all stops of all buses. */
  function AllStopNames(buses: seq<Bus>, stops: seq<Stop>): set<string>
    requires Drawable(buses, stops)
  {
    set b, k | 0 <= b < |buses| && 0 <= k < |buses[b].stops| :: stops[buses[b].stops[k].value].name
  }

  /** A stop some bus passes. */
  predicate OnSomeRoute(buses: seq<Bus>, id: nat) {
    exists b :: 0 <= b < |buses| && Some(id) in buses[b].stops
  }

  /**
   * The stops drawn are ordered by name with no name twice, their names are
   * the names of all stops of all buses, and each is a stop some bus passes.
   */
  lemma {:induction false} StopsForDrawingProps(buses: seq<Bus>, stops: seq<Stop>)
    requires Drawable(buses, stops)
    ensures Ordered(StopsForDrawing(buses, stops), StopNames(stops))
    ensures NameSetOf(StopsForDrawing(buses, stops), StopNames(stops)) == AllStopNames(buses, stops)
    ensures forall x :: x in StopsForDrawing(buses, stops) ==> OnSomeRoute(buses, x)
  {
    var names := StopNames(stops);
    if buses != [] {
      var init := buses[..|buses| - 1];
      var last := buses[|buses| - 1];
      assert Drawable(init, stops) by {
        forall b | 0 <= b < |init| ensures Resolves(init[b].stops, |stops|) {
          assert init[b] == buses[b];
        }
      }
      StopsForDrawingProps(init, stops);
      assert Resolves(last.stops, |names|);
      InsertRouteProps(StopsForDrawing(init, stops), names, last.stops);
      AllStopNamesSnoc(buses, stops);
      forall x | x in StopsForDrawing(buses, stops) ensures OnSomeRoute(buses, x) {
        if x in StopsForDrawing(init, stops) {
          var b :| 0 <= b < |init| && Some(x) in init[b].stops;
          assert buses[b] == init[b];
        } else {
          assert Some(x) in buses[|buses| - 1].stops;
        }
      }
    }
  }

  lemma {:induction false} AllStopNamesSnoc(buses: seq<Bus>, stops: seq<Stop>)
    requires Drawable(buses, stops) && buses != []
    ensures Drawable(buses[..|buses| - 1], stops)
    ensures AllStopNames(buses, stops) ==
      AllStopNames(buses[..|buses| - 1], stops) + RouteNames(buses[|buses| - 1].stops, StopNames(stops))
  {
    var init := buses[..|buses| - 1];
    var last := buses[|buses| - 1];
    var names := StopNames(stops);
    assert Drawable(init, stops) by {
      forall b | 0 <= b < |init| ensures Resolves(init[b].stops, |stops|) {
        assert init[b] == buses[b];
      }
    }
    assert Resolves(last.stops, |stops|);
    forall n | n in AllStopNames(buses, stops)
      ensures n in AllStopNames(init, stops) || n in RouteNames(last.stops, names)
    {
      var b, k :| 0 <= b < |buses| && 0 <= k < |buses[b].stops| && stops[buses[b].stops[k].value].name == n;
      if b < |init| {
        assert init[b] == buses[b];
      } else {
        assert names[last.stops[k].value] == n;
      }
    }
    forall n | n in AllStopNames(init, stops) ensures n in AllStopNames(buses, stops) {
      var b, k :| 0 <= b < |init| && 0 <= k < |init[b].stops| && stops[init[b].stops[k].value].name == n;
      assert init[b] == buses[b];
    }
    forall n | n in RouteNames(last.stops, names) ensures n in AllStopNames(buses, stops) {
      var k :| 0 <= k < |last.stops| && names[last.stops[k].value] == n;
      assert stops[buses[|buses| - 1].stops[k].value].name == n;
    }
  }

  /** `GetStopsForDrawing`: a loop over the buses and, inside it, over each bus's stops. */
  method GetStopsForDrawing(buses: seq<Bus>, stops: seq<Stop>) returns (r: seq<nat>)
    requires Drawable(buses, stops)
    ensures r == StopsForDrawing(buses, stops)
  {
    var names := StopNames(stops);
    r := [];
    for i := 0 to |buses|
      invariant Drawable(buses[..i], stops)
      invariant r == StopsForDrawing(buses[..i], stops)
    {
      var route := buses[i].stops;
      assert buses[..i + 1][..i] == buses[..i];
      assert Resolves(route, |names|);
      ghost var before := r;
      for j := 0 to |route|
        invariant Bounded(r, names)
        invariant r == InsertRoute(before, names, route[..j])
      {
        assert route[..j + 1][..j] == route[..j];
        InsertNames(r, names, route[j].value);
        r := Insert(r, names, route[j].value);
      }
      assert route[..|route|] == route;
      assert Drawable(buses[..i + 1], stops) by {
        var done := buses[..i + 1];
        forall b | 0 <= b < |done| ensures Resolves(done[b].stops, |stops|) {
          assert done[b] == buses[b];
        }
      }
    }
    assert buses[..|buses|] == buses;
  }

  // ---------------------------------------------------------------------
  // The objects drawn for a bus and for a stop
  // ---------------------------------------------------------------------

  /** Where a stop is drawn. */
  function Position(stops: seq<Stop>, stop: StopRef, project: Projector): Point
    requires stop.Some? && stop.value < |stops|
  {
    project(stops[stop.value].coordinates)
  }

  function Positions(stops: seq<Stop>, route: seq<StopRef>, project: Projector): (r: seq<Point>)
    requires Resolves(route, |stops|)
    ensures |r| == |route| && forall k :: 0 <= k < |route| ==> r[k] == Position(stops, route[k], project)
  {
    seq(|route|, k requires 0 <= k < |route| && Resolves(route, |stops|) => Position(stops, route[k], project))
  }

  function Reversed(s: seq<StopRef>): (r: seq<StopRef>)
    ensures |r| == |s| && forall k :: 0 <= k < |s| ==> r[k] == s[|s| - 1 - k]
  {
    seq(|s|, k requires 0 <= k < |s| => s[|s| - 1 - k])
  }

  /** Reading a route backwards twice gives it back. */
  lemma {:induction false} ReversedTwice(s: seq<StopRef>)
    ensures Reversed(Reversed(s)) == s
  {
    var back := Reversed(s);
    var r := Reversed(back);
    forall k | 0 <= k < |s|
      ensures r[k] == s[k]
    {
      assert r[k] == back[|s| - 1 - k];
    }
    assert r == s;
  }

  /** A route read backwards has the same stops, each as often. */
  lemma {:induction false} ReversedMultiset(s: seq<StopRef>)
    ensures multiset(Reversed(s)) == multiset(s)
    decreases |s|
  {
    if |s| > 0 {
      var r := Reversed(s);
      ReversedMultiset(s[1..]);
      assert Reversed(s[1..]) == r[..|s| - 1];
      assert r == r[..|s| - 1] + [s[0]];
      assert s == [s[0]] + s[1..];
    }
  }

  /** The stops a bus line passes: the route, and for a non-ring bus the way back without the last stop again. */
  function LineStops(bus: Bus): seq<StopRef>
    requires bus.stops != []
  {
    bus.stops + (if bus.ring then [] else Reversed(bus.stops[..|bus.stops| - 1]))
  }

  /**
   * A bus line has as many points as the bus has stops on its way
   * (`StopCount`: n for a ring, 2n - 1 otherwise), starts with the route,
   * and for a non-ring bus reads the same backwards, so it ends where it
   * starts.
   */
  lemma {:induction false} LineStopsProps(bus: Bus)
    requires bus.stops != []
    ensures |LineStops(bus)| == StopCount(bus)
    ensures LineStops(bus)[..|bus.stops|] == bus.stops
    ensures !bus.ring ==> forall k :: 0 <= k < |LineStops(bus)| ==>
      LineStops(bus)[k] == LineStops(bus)[|LineStops(bus)| - 1 - k]
    ensures Elements(LineStops(bus)) == Elements(bus.stops)
  {
    var s := bus.stops;
    var n := |s|;
    var line := LineStops(bus);
    if !bus.ring {
      var back := Reversed(s[..n - 1]);
      forall k | 0 <= k < |line| ensures line[k] == line[|line| - 1 - k] {
        if k < n - 1 {
          assert line[|line| - 1 - k] == back[n - 2 - k];
        } else if k >= n {
          assert line[k] == back[k - n];
        }
      }
      forall x | x in line ensures x in s {
        var k :| 0 <= k < |line| && line[k] == x;
        if k >= n {
          assert line[k] == back[k - n] == s[2 * n - 2 - k];
        }
      }
    }
  }

  /** Stroke in the bus colour, no fill, round caps and joins. */
  function LineProps(color: Color, settings: RenderSettings): PathProps {
    PathProps(Some(NoColor), Some(color), Some(settings.lineWidth), Some(StrokeLineCap.ROUND), Some(StrokeLineJoin.ROUND))
  }

  /** `BusLine::Draw`'s polyline. */
  function BusLine(bus: Bus, color: Color, stops: seq<Stop>, settings: RenderSettings, project: Projector): Shape
    requires bus.stops != [] && Resolves(bus.stops, |stops|)
  {
    LineStopsProps(bus);
    Polyline(Positions(stops, LineStops(bus), project), LineProps(color, settings))
  }

  lemma {:induction false} LineStopsResolve(bus: Bus, stopCount: nat)
    requires bus.stops != [] && Resolves(bus.stops, stopCount)
    ensures Resolves(LineStops(bus), stopCount)
  {
    var line := LineStops(bus);
    var n := |bus.stops|;
    forall k | 0 <= k < |line| ensures line[k].Some? && line[k].value < stopCount {
      if k >= n {
        assert line[k] == bus.stops[2 * n - 2 - k];
      }
    }
  }

  lemma {:induction false} PositionsConcat(stops: seq<Stop>, a: seq<StopRef>, b: seq<StopRef>, project: Projector)
    requires Resolves(a, |stops|) && Resolves(b, |stops|)
    ensures Resolves(a + b, |stops|)
    ensures Positions(stops, a + b, project) == Positions(stops, a, project) + Positions(stops, b, project)
  {
    var r := Positions(stops, a + b, project);
    forall k | 0 <= k < |a + b| ensures r[k] == (Positions(stops, a, project) + Positions(stops, b, project))[k] {
      if k >= |a| {
        assert (a + b)[k] == b[k - |a|];
      }
    }
  }

  /** The first loop of `BusLine::Draw`: the points of the route, in order. */
  method RoutePoints(stops: seq<Stop>, route: seq<StopRef>, project: Projector) returns (points: seq<Point>)
    requires Resolves(route, |stops|)
    ensures points == Positions(stops, route, project)
  {
    points := [];
    for k := 0 to |route|
      invariant points == Positions(stops, route, project)[..k]
    {
      points := points + [Position(stops, route[k], project)];
    }
  }

  /** The second loop of `BusLine::Draw`: the points back from the stop before the last to the first. */
  method BackPoints(stops: seq<Stop>, route: seq<StopRef>, project: Projector, points: seq<Point>) returns (out: seq<Point>)
    requires route != [] && Resolves(route, |stops|)
    ensures Resolves(Reversed(route[..|route| - 1]), |stops|)
    ensures out == points + Positions(stops, Reversed(route[..|route| - 1]), project)
  {
    var n := |route|;
    ghost var back := Positions(stops, Reversed(route[..n - 1]), project);
    out := points;
    var m := n - 1;
    while m > 0
      invariant 0 <= m <= n - 1
      invariant out == points + back[..n - 1 - m]
    {
      m := m - 1;
      out := out + [Position(stops, route[m], project)];
    }
  }

  /** `BusLine::Draw`: the route's points, then for a non-ring bus the points back from the one before last. */
  method DrawBusLine(bus: Bus, color: Color, stops: seq<Stop>, settings: RenderSettings, project: Projector,
                     container: seq<Shape>) returns (out: seq<Shape>)
    requires bus.stops != [] && Resolves(bus.stops, |stops|)
    ensures out == container + [BusLine(bus, color, stops, settings, project)]
  {
    var route := bus.stops;
    var points := RoutePoints(stops, route, project);
    if !bus.ring {
      points := BackPoints(stops, route, project, points);
      PositionsConcat(stops, route, Reversed(route[..|route| - 1]), project);
    } else {
      assert LineStops(bus) == route;
    }
    out := container + [Polyline(points, LineProps(color, settings))];
  }

  /** The stops a bus name is written at: the first, and the last when it is another stop. */
  function LabelStops(bus: Bus): seq<StopRef>
    requires bus.stops != []
  {
    var s := bus.stops;
    if s[0] != s[|s| - 1] then [s[0], s[|s| - 1]] else [s[0]]
  }

  /** `make_text` of `BusName::Draw`, bold Verdana with the bus name, and then its paint. */
  function BusText(bus: Bus, at: Point, settings: RenderSettings, paint: PathProps): Shape {
    TextElement(at, settings.busLabelOffset, settings.busLabelFontSize, "Verdana", Some("bold"), bus.name, paint)
  }

  /** The underlayer: filled and stroked in the underlayer colour and width, round caps and joins. */
  function UnderlayerProps(settings: RenderSettings): PathProps {
    PathProps(Some(settings.underlayerColor), Some(settings.underlayerColor), Some(settings.underlayerWidth),
              Some(StrokeLineCap.ROUND), Some(StrokeLineJoin.ROUND))
  }

  function FillProps(color: Color): PathProps {
    PathProps(Some(color), None, None, None, None)
  }

  /** One label of a bus: the underlayer, then the text in the bus colour. */
  function BusLabel(bus: Bus, color: Color, at: Point, settings: RenderSettings): seq<Shape> {
    [BusText(bus, at, settings, UnderlayerProps(settings)), BusText(bus, at, settings, FillProps(color))]
  }

  function BusLabels(bus: Bus, color: Color, at: seq<StopRef>, stops: seq<Stop>, settings: RenderSettings,
                     project: Projector): seq<Shape>
    requires Resolves(at, |stops|)
  {
    if at == [] then []
    else
      BusLabels(bus, color, at[..|at| - 1], stops, settings, project) +
      BusLabel(bus, color, Position(stops, at[|at| - 1], project), settings)
  }

  /** `BusName::Draw`'s texts. */
  function BusName(bus: Bus, color: Color, stops: seq<Stop>, settings: RenderSettings, project: Projector): seq<Shape>
    requires bus.stops != [] && Resolves(bus.stops, |stops|)
  {
    BusLabels(bus, color, LabelStops(bus), stops, settings, project)
  }

  /**
   * A bus name is written once at the first stop and once more at the last
   * stop exactly when that is another stop; each time the underlayer comes
   * first and the text in the bus colour second.
   */
  lemma {:induction false} BusNameProps(bus: Bus, color: Color, stops: seq<Stop>, settings: RenderSettings, project: Projector)
    requires bus.stops != [] && Resolves(bus.stops, |stops|)
    ensures var r := BusName(bus, color, stops, settings, project);
      var s := bus.stops;
      (|r| == 4 <==> s[0] != s[|s| - 1]) && (|r| == 2 <==> s[0] == s[|s| - 1]) &&
      r[..2] == BusLabel(bus, color, Position(stops, s[0], project), settings) &&
      (|r| == 4 ==> r[2..] == BusLabel(bus, color, Position(stops, s[|s| - 1], project), settings))
  {
    var s := bus.stops;
    var at := LabelStops(bus);
    var first := BusLabel(bus, color, Position(stops, s[0], project), settings);
    assert at[..0] == [];
    if s[0] != s[|s| - 1] {
      assert at[..1] == [s[0]];
      assert BusLabels(bus, color, at[..1], stops, settings, project) == first;
    } else {
      assert BusLabels(bus, color, at, stops, settings, project) == first;
    }
  }

  /** `BusName::Draw`: the label stops collected first, then two texts for each. */
  method DrawBusName(bus: Bus, color: Color, stops: seq<Stop>, settings: RenderSettings, project: Projector,
                     container: seq<Shape>) returns (out: seq<Shape>)
    requires bus.stops != [] && Resolves(bus.stops, |stops|)
    ensures out == container + BusName(bus, color, stops, settings, project)
  {
    var at: seq<StopRef> := [bus.stops[0]];
    if bus.stops[0] != bus.stops[|bus.stops| - 1] {
      at := at + [bus.stops[|bus.stops| - 1]];
    }
    assert at == LabelStops(bus);
    out := container;
    for k := 0 to |at|
      invariant out == container + BusLabels(bus, color, at[..k], stops, settings, project)
    {
      assert at[..k + 1][..k] == at[..k];
      var position := Position(stops, at[k], project);
      var underlayer := BusText(bus, position, settings, UnderlayerProps(settings));
      out := out + [underlayer];
      var text := BusText(bus, position, settings, FillProps(color));
      out := out + [text];
    }
    assert at[..|at|] == at;
  }

  /** `StopCircle::Draw`: a white circle of the stop radius. */
  function StopCircle(stop: Stop, settings: RenderSettings, project: Projector): Shape {
    Circle(project(stop.coordinates), settings.stopRadius, FillProps(Named("white")))
  }

  /** `make_text` of `StopName::Draw`, Verdana with the stop name and no weight, and then its paint. */
  function StopText(stop: Stop, settings: RenderSettings, project: Projector, paint: PathProps): Shape {
    TextElement(project(stop.coordinates), settings.stopLabelOffset, settings.stopLabelFontSize, "Verdana", None,
                stop.name, paint)
  }

  /** `StopName::Draw`: the underlayer, then the text in black. */
  function StopName(stop: Stop, settings: RenderSettings, project: Projector): seq<Shape> {
    [StopText(stop, settings, project, UnderlayerProps(settings)),
     StopText(stop, settings, project, FillProps(Named("black")))]
  }

  // ---------------------------------------------------------------------
  // The picture: four layers
  // ---------------------------------------------------------------------

  /** Each bus drawn has stops, all of them real. */
  predicate DrawnOk(drawn: seq<(Bus, Color)>, stops: seq<Stop>) {
    forall k :: 0 <= k < |drawn| ==> drawn[k].0.stops != [] && Resolves(drawn[k].0.stops, |stops|)
  }

  /** Every stop drawn is in the stop table. */
  predicate StopsOk(ids: seq<nat>, stops: seq<Stop>) {
    forall k :: 0 <= k < |ids| ==> ids[k] < |stops|
  }

  function Lines(drawn: seq<(Bus, Color)>, stops: seq<Stop>, settings: RenderSettings, project: Projector): seq<Shape>
    requires DrawnOk(drawn, stops)
  {
    if drawn == [] then []
    else
      var last := drawn[|drawn| - 1];
      Lines(drawn[..|drawn| - 1], stops, settings, project) + [BusLine(last.0, last.1, stops, settings, project)]
  }

  function Names(drawn: seq<(Bus, Color)>, stops: seq<Stop>, settings: RenderSettings, project: Projector): seq<Shape>
    requires DrawnOk(drawn, stops)
  {
    if drawn == [] then []
    else
      var last := drawn[|drawn| - 1];
      Names(drawn[..|drawn| - 1], stops, settings, project) + BusName(last.0, last.1, stops, settings, project)
  }

  function Circles(ids: seq<nat>, stops: seq<Stop>, settings: RenderSettings, project: Projector): seq<Shape>
    requires StopsOk(ids, stops)
  {
    if ids == [] then []
    else Circles(ids[..|ids| - 1], stops, settings, project) + [StopCircle(stops[ids[|ids| - 1]], settings, project)]
  }

  function StopLabels(ids: seq<nat>, stops: seq<Stop>, settings: RenderSettings, project: Projector): seq<Shape>
    requires StopsOk(ids, stops)
  {
    if ids == [] then []
    else StopLabels(ids[..|ids| - 1], stops, settings, project) + StopName(stops[ids[|ids| - 1]], settings, project)
  }

  /** The buses drawn are among the buses given, so their stops are real. */
  lemma {:induction false} BusesForDrawingOk(buses: seq<Bus>, stops: seq<Stop>, palette: seq<Color>)
    requires Drawable(buses, stops) && Paintable(buses, palette)
    ensures DrawnOk(BusesForDrawing(buses, palette), stops)
  {
    var r := BusesForDrawing(buses, palette);
    BusesForDrawingProps(buses, palette);
    forall k | 0 <= k < |r| ensures r[k].0.stops != [] && Resolves(r[k].0.stops, |stops|) {
      var b := r[k].0;
      assert DrawnBuses(r)[k] == b;
      assert b in multiset(DrawnBuses(r));
      assert b in multiset(buses);
      var m :| 0 <= m < |buses| && buses[m] == b;
    }
  }

  /** The four layers: all bus lines, then all bus names, then all stop circles, then all stop names. */
  function Parts(drawn: seq<(Bus, Color)>, ids: seq<nat>, stops: seq<Stop>, settings: RenderSettings, project: Projector)
    : seq<Shape>
    requires DrawnOk(drawn, stops) && StopsOk(ids, stops)
  {
    Lines(drawn, stops, settings, project) + Names(drawn, stops, settings, project) +
    Circles(ids, stops, settings, project) + StopLabels(ids, stops, settings, project)
  }

  /** `Render`'s document: the layers of the buses and the stops to draw. */
  function Picture(buses: seq<Bus>, stops: seq<Stop>, settings: RenderSettings, project: Projector): seq<Shape>
    requires Drawable(buses, stops) && Paintable(buses, settings.palette)
  {
    BusesForDrawingOk(buses, stops, settings.palette);
    Parts(BusesForDrawing(buses, settings.palette), StopsForDrawing(buses, stops), stops, settings, project)
  }

  /** The layer a shape belongs to: lines, bus names (the bold texts), stop circles, stop names. */
  function Layer(shape: Shape): nat {
    match shape
    case Polyline(_, _) => 0
    case TextElement(_, _, _, _, weight, _, _) => if weight.Some? then 1 else 3
    case Circle(_, _, _) => 2
  }

  predicate InLayer(shapes: seq<Shape>, layer: nat) {
    forall k :: 0 <= k < |shapes| ==> Layer(shapes[k]) == layer
  }

  /** One polyline per bus drawn. */
  lemma {:induction false} LinesProps(drawn: seq<(Bus, Color)>, stops: seq<Stop>, settings: RenderSettings, project: Projector)
    requires DrawnOk(drawn, stops)
    ensures |Lines(drawn, stops, settings, project)| == |drawn|
    ensures InLayer(Lines(drawn, stops, settings, project), 0)
  {
    if drawn != [] {
      LinesProps(drawn[..|drawn| - 1], stops, settings, project);
    }
  }

  lemma {:induction false} NamesLayer(drawn: seq<(Bus, Color)>, stops: seq<Stop>, settings: RenderSettings, project: Projector)
    requires DrawnOk(drawn, stops)
    ensures InLayer(Names(drawn, stops, settings, project), 1)
  {
    if drawn != [] {
      var last := drawn[|drawn| - 1];
      NamesLayer(drawn[..|drawn| - 1], stops, settings, project);
      BusNameProps(last.0, last.1, stops, settings, project);
      var name := BusName(last.0, last.1, stops, settings, project);
      assert InLayer(name, 1) by {
        forall k | 0 <= k < |name| ensures Layer(name[k]) == 1 {
          if k < 2 {
            assert name[k] == name[..2][k];
          } else {
            assert name[k] == name[2..][k - 2];
          }
        }
      }
    }
  }

  /** One circle per stop drawn, in the order of the stop set. */
  lemma {:induction false} CirclesProps(ids: seq<nat>, stops: seq<Stop>, settings: RenderSettings, project: Projector)
    requires StopsOk(ids, stops)
    ensures |Circles(ids, stops, settings, project)| == |ids|
    ensures forall k :: 0 <= k < |ids| ==> Circles(ids, stops, settings, project)[k] == StopCircle(stops[ids[k]], settings, project)
    ensures InLayer(Circles(ids, stops, settings, project), 2)
  {
    if ids != [] {
      CirclesProps(ids[..|ids| - 1], stops, settings, project);
    }
  }

  /** Two texts per stop drawn. */
  lemma {:induction false} StopLabelsProps(ids: seq<nat>, stops: seq<Stop>, settings: RenderSettings, project: Projector)
    requires StopsOk(ids, stops)
    ensures |StopLabels(ids, stops, settings, project)| == 2 * |ids|
    ensures InLayer(StopLabels(ids, stops, settings, project), 3)
  {
    if ids != [] {
      StopLabelsProps(ids[..|ids| - 1], stops, settings, project);
    }
  }

  /**
   * Layers never go back, the first `drawn` objects are the bus lines, and
   * the stop circles are `stopCount` objects followed by two stop names per
   * circle.
   */
  predicate Layered(r: seq<Shape>, drawn: nat, stopCount: nat) {
    drawn + 3 * stopCount <= |r| &&
    (forall i, j :: 0 <= i < j < |r| ==> Layer(r[i]) <= Layer(r[j])) &&
    (forall i :: 0 <= i < |r| ==> (Layer(r[i]) == 0 <==> i < drawn)) &&
    (forall i :: 0 <= i < |r| ==> (Layer(r[i]) == 2 <==> |r| - 3 * stopCount <= i < |r| - 2 * stopCount))
  }

  /**
   * The layers come in order: every bus line before every bus name, before
   * every stop circle, before every stop name; the first objects are the
   * lines of the buses drawn, one each, and there is one circle per stop
   * drawn.
   */
  lemma {:induction false} LayerOrder(drawn: seq<(Bus, Color)>, ids: seq<nat>, stops: seq<Stop>, settings: RenderSettings,
                                      project: Projector)
    requires DrawnOk(drawn, stops) && StopsOk(ids, stops)
    ensures Layered(Parts(drawn, ids, stops, settings, project), |drawn|, |ids|)
  {
    LinesProps(drawn, stops, settings, project);
    NamesLayer(drawn, stops, settings, project);
    StopLabelsProps(ids, stops, settings, project);
    CirclesProps(ids, stops, settings, project);
    LayersConcat(Lines(drawn, stops, settings, project), Names(drawn, stops, settings, project),
                 Circles(ids, stops, settings, project), StopLabels(ids, stops, settings, project));
  }

  /** The third quarter from the end holds the circles of the stops `ids`, in that order. */
  predicate CirclesAt(r: seq<Shape>, ids: seq<nat>, stops: seq<Stop>, settings: RenderSettings, project: Projector)
    requires StopsOk(ids, stops)
  {
    3 * |ids| <= |r| &&
    forall k :: 0 <= k < |ids| ==> r[|r| - 3 * |ids| + k] == StopCircle(stops[ids[k]], settings, project)
  }

  /** The stop circles are drawn in the order of the stop set. */
  lemma {:induction false} CirclesInOrder(drawn: seq<(Bus, Color)>, ids: seq<nat>, stops: seq<Stop>, settings: RenderSettings,
                                          project: Projector)
    requires DrawnOk(drawn, stops) && StopsOk(ids, stops)
    ensures CirclesAt(Parts(drawn, ids, stops, settings, project), ids, stops, settings, project)
  {
    StopLabelsProps(ids, stops, settings, project);
    CirclesProps(ids, stops, settings, project);
    ThirdPart(Lines(drawn, stops, settings, project) + Names(drawn, stops, settings, project),
              Circles(ids, stops, settings, project), StopLabels(ids, stops, settings, project), ids, stops, settings, project);
  }

  lemma {:induction false} ThirdPart(front: seq<Shape>, circles: seq<Shape>, labels: seq<Shape>,
                                     ids: seq<nat>, stops: seq<Stop>, settings: RenderSettings, project: Projector)
    requires StopsOk(ids, stops)
    requires |circles| == |ids| && |labels| == 2 * |ids|
    requires forall k :: 0 <= k < |ids| ==> circles[k] == StopCircle(stops[ids[k]], settings, project)
    ensures CirclesAt(front + circles + labels, ids, stops, settings, project)
  {
    var r := front + circles + labels;
    forall k | 0 <= k < |ids| ensures r[|r| - 3 * |ids| + k] == StopCircle(stops[ids[k]], settings, project) {
      assert r[|front| + k] == circles[k];
    }
  }

  lemma {:induction false} LayersConcat(lines: seq<Shape>, names: seq<Shape>, circles: seq<Shape>, labels: seq<Shape>)
    requires InLayer(lines, 0) && InLayer(names, 1) && InLayer(circles, 2) && InLayer(labels, 3)
    requires |labels| == 2 * |circles|
    ensures Layered(lines + names + circles + labels, |lines|, |circles|)
  {
    var r := lines + names + circles + labels;
    var a := |lines|;
    var b := a + |names|;
    var c := b + |circles|;
    forall i | 0 <= i < |r|
      ensures Layer(r[i]) == if i < a then 0 else if i < b then 1 else if i < c then 2 else 3
    {
      if i < a {
        assert r[i] == lines[i];
      } else if i < b {
        assert r[i] == names[i - a];
      } else if i < c {
        assert r[i] == circles[i - b];
      } else {
        assert r[i] == labels[i - c];
      }
    }
  }

  /** The first loop of `Render`: a `BusLine` drawn for each bus. */
  method DrawLines(drawn: seq<(Bus, Color)>, stops: seq<Stop>, settings: RenderSettings, project: Projector,
                   container: seq<Shape>) returns (out: seq<Shape>)
    requires DrawnOk(drawn, stops)
    ensures out == container + Lines(drawn, stops, settings, project)
  {
    out := container;
    for k := 0 to |drawn|
      invariant out == container + Lines(drawn[..k], stops, settings, project)
    {
      assert drawn[..k + 1][..k] == drawn[..k];
      out := DrawBusLine(drawn[k].0, drawn[k].1, stops, settings, project, out);
    }
    assert drawn[..|drawn|] == drawn;
  }

  /** The second loop of `Render`: a `BusName` drawn for each bus. */
  method DrawNames(drawn: seq<(Bus, Color)>, stops: seq<Stop>, settings: RenderSettings, project: Projector,
                   container: seq<Shape>) returns (out: seq<Shape>)
    requires DrawnOk(drawn, stops)
    ensures out == container + Names(drawn, stops, settings, project)
  {
    out := container;
    for k := 0 to |drawn|
      invariant out == container + Names(drawn[..k], stops, settings, project)
    {
      assert drawn[..k + 1][..k] == drawn[..k];
      out := DrawBusName(drawn[k].0, drawn[k].1, stops, settings, project, out);
    }
    assert drawn[..|drawn|] == drawn;
  }

  /** The third loop of `Render`: a `StopCircle` drawn for each stop. */
  method DrawCircles(ids: seq<nat>, stops: seq<Stop>, settings: RenderSettings, project: Projector,
                     container: seq<Shape>) returns (out: seq<Shape>)
    requires StopsOk(ids, stops)
    ensures out == container + Circles(ids, stops, settings, project)
  {
    out := container;
    for k := 0 to |ids|
      invariant out == container + Circles(ids[..k], stops, settings, project)
    {
      assert ids[..k + 1][..k] == ids[..k];
      out := out + [StopCircle(stops[ids[k]], settings, project)];
    }
    assert ids[..|ids|] == ids;
  }

  /** The last loop of `Render`: a `StopName` drawn for each stop. */
  method DrawStopNames(ids: seq<nat>, stops: seq<Stop>, settings: RenderSettings, project: Projector,
                       container: seq<Shape>) returns (out: seq<Shape>)
    requires StopsOk(ids, stops)
    ensures out == container + StopLabels(ids, stops, settings, project)
  {
    out := container;
    for k := 0 to |ids|
      invariant out == container + StopLabels(ids[..k], stops, settings, project)
    {
      assert ids[..k + 1][..k] == ids[..k];
      out := out + StopName(stops[ids[k]], settings, project);
    }
    assert ids[..|ids|] == ids;
  }

  /** `Render`: the buses and stops to draw, then one loop per layer. */
  method Render(buses: seq<Bus>, stops: seq<Stop>, settings: RenderSettings, project: Projector)
    returns (document: seq<Shape>)
    requires Drawable(buses, stops) && Paintable(buses, settings.palette)
    ensures document == Picture(buses, stops, settings, project)
  {
    var drawn := GetBusesForDrawing(buses, settings.palette);
    var ids := GetStopsForDrawing(buses, stops);
    BusesForDrawingOk(buses, stops, settings.palette);
    assert StopsOk(ids, stops);
    ghost var lines := Lines(drawn, stops, settings, project);
    ghost var names := Names(drawn, stops, settings, project);
    ghost var circles := Circles(ids, stops, settings, project);
    ghost var labels := StopLabels(ids, stops, settings, project);
    document := DrawLines(drawn, stops, settings, project, []);
    assert document == lines;
    document := DrawNames(drawn, stops, settings, project, document);
    document := DrawCircles(ids, stops, settings, project, document);
    document := DrawStopNames(ids, stops, settings, project, document);
    assert document == lines + names + circles + labels;
  }
}
