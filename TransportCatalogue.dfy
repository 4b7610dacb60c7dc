/**
 * The transport catalogue: stops and buses in insertion order, name tables
 * for both, the set of buses through each stop ordered by bus name, and road
 * distances keyed by the directed pair of stops.
 *
 * A `const Stop*` is modelled as an index into the stop table, wrapped in an
 * `Option`: `None` is the null pointer `FindStop` returns for an unknown
 * name, which `AddBus` and `AddDistance` store as they get it. A `const Bus*`
 * is an index into the bus table. The great-circle distance of `geo.cpp` is
 * floating-point code outside this model and is passed in as a parameter.
 */
module TransportCatalogue {
  import opened Wrappers
  import opened Text
  import opened NameSet

  /** `geo::Coordinates`: latitude and longitude in degrees. */
  datatype Coordinates = Coordinates(lat: real, lng: real)

  /** `geo::ComputeDistance`, the geographic distance between two points. */
  type GeoDistance = (Coordinates, Coordinates) -> real

  /** `uint32_t`, the type of a road distance. */
  newtype uint32 = x: int | 0 <= x < 0x1_0000_0000

  /** A `const Stop*`: `Some(i)` points at the `i`-th stop, `None` is null. */
  type StopRef = Option<nat>

  datatype Stop = Stop(name: string, coordinates: Coordinates)

  datatype Bus = Bus(name: string, ring: bool, stops: seq<StopRef>)

  /** The reply to a bus query: stop count, distinct stops, road length and its ratio to the geographic length. */
  datatype BusInfo = BusInfo(stops: nat, uniqueStops: nat, length: real, curvature: real)

  /** The reply to a stop query: names of the buses through it. */
  datatype StopInfo = StopInfo(buses: seq<string>)

  /** A failed `assert` of the source (a debug build aborts there). */
  datatype CatalogueError = AssertionFailed

  // ---------------------------------------------------------------------
  // The tables, as values
  // ---------------------------------------------------------------------

  function StopNames(stops: seq<Stop>): (r: seq<string>)
    ensures |r| == |stops| && forall i :: 0 <= i < |stops| ==> r[i] == stops[i].name
  {
    seq(|stops|, i requires 0 <= i < |stops| => stops[i].name)
  }

  function BusNames(buses: seq<Bus>): (r: seq<string>)
    ensures |r| == |buses| && forall i :: 0 <= i < |buses| ==> r[i] == buses[i].name
  {
    seq(|buses|, i requires 0 <= i < |buses| => buses[i].name)
  }

  /**
   * A name table over `names`: every name present is in the table, and the
   * table maps it to the first entry of that name (`emplace` leaves an
   * earlier entry in place).
   */
  predicate Indexes(names: seq<string>, table: map<string, nat>) {
    (forall n :: n in table ==> table[n] < |names| && names[table[n]] == n) &&
    (forall n, j :: n in table && 0 <= j < table[n] ==> names[j] != n) &&
    (forall i :: 0 <= i < |names| ==> names[i] in table)
  }

  /** `name_to_stop_.find(name)` / `name_to_bus_.find(name)`. */
  function Find(names: seq<string>, table: map<string, nat>, name: string): (r: Option<nat>)
    requires Indexes(names, table)
    ensures r.Some? <==> exists i :: 0 <= i < |names| && names[i] == name
    ensures r.Some? ==> r.value < |names| && names[r.value] == name
    ensures r.Some? ==> forall j :: 0 <= j < r.value ==> names[j] != name
  {
    if name in table then Some(table[name]) else None
  }

  /** Appending an entry: its name joins the table unless an earlier entry has it. */
  lemma {:induction false} IndexesAppend(names: seq<string>, table: map<string, nat>, name: string)
    requires Indexes(names, table)
    ensures Indexes(names + [name], if name in table then table else table[name := |names|])
  {
    var all := names + [name];
    var t := if name in table then table else table[name := |names|];
    forall n, j | n in t && 0 <= j < t[n]
      ensures all[j] != n
    {
      if n != name || name in table {
        assert j < |names| && all[j] == names[j];
      } else {
        assert names[j] in table;
      }
    }
  }

  /** Every bus has at least two stops, and every non-null stop pointer points into the stop table. */
  predicate RouteOk(bus: Bus, stopCount: nat) {
    |bus.stops| >= 2 && forall k :: 0 <= k < |bus.stops| && bus.stops[k].Some? ==> bus.stops[k].value < stopCount
  }

  predicate Routes(buses: seq<Bus>, stopCount: nat) {
    forall b :: 0 <= b < |buses| ==> RouteOk(buses[b], stopCount)
  }

  /** The names of the buses whose route passes `stop`. */
  function ServingNames(buses: seq<Bus>, stop: StopRef): set<string> {
    set b | 0 <= b < |buses| && stop in buses[b].stops :: buses[b].name
  }

  /** `stop_to_buses_[stop]`, default-constructing an empty set for a missing key. */
  function Get(table: map<StopRef, seq<nat>>, stop: StopRef): seq<nat> {
    if stop in table then table[stop] else []
  }

  /**
   * `stop_to_buses_`: every stop has a set; each set is ordered by bus name
   * and holds one bus for every name that serves that stop; a pointer with
   * no set is served by no bus.
   */
  ghost predicate Served(table: map<StopRef, seq<nat>>, buses: seq<Bus>, stopCount: nat) {
    (forall i :: 0 <= i < stopCount ==> Some(i) in table) &&
    (forall k :: k in table && k.Some? ==> k.value < stopCount) &&
    (forall k :: k in table ==> Ordered(table[k], BusNames(buses))) &&
    (forall k :: k in table ==> NameSetOf(table[k], BusNames(buses)) == ServingNames(buses, k)) &&
    (forall k :: k !in table ==> ServingNames(buses, k) == {})
  }

  /** A bus appended to the table serves the stops on its route, in addition to what the others serve. */
  lemma ServingAppend(buses: seq<Bus>, bus: Bus, stop: StopRef)
    ensures ServingNames(buses + [bus], stop) ==
            ServingNames(buses, stop) + (if stop in bus.stops then {bus.name} else {})
  {
    var all := buses + [bus];
    forall n | n in ServingNames(all, stop)
      ensures n in ServingNames(buses, stop) || (stop in bus.stops && n == bus.name)
    {
      var b :| 0 <= b < |all| && stop in all[b].stops && all[b].name == n;
      if b < |buses| {
        assert all[b] == buses[b];
      }
    }
    forall n | n in ServingNames(buses, stop)
      ensures n in ServingNames(all, stop)
    {
      var b :| 0 <= b < |buses| && stop in buses[b].stops && buses[b].name == n;
      assert all[b] == buses[b];
    }
    if stop in bus.stops {
      assert all[|buses|] == bus;
    }
  }

  /** A new stop is served by no bus: every route points at earlier stops only. */
  lemma {:induction false} NewStopUnserved(buses: seq<Bus>, stopCount: nat)
    requires Routes(buses, stopCount)
    ensures ServingNames(buses, Some(stopCount)) == {}
  {
    forall b | 0 <= b < |buses|
      ensures Some(stopCount) !in buses[b].stops
    {
      assert RouteOk(buses[b], stopCount);
    }
  }

  /** Adding a stop (with an empty bus set) keeps the stop-to-buses table consistent. */
  lemma {:induction false} ServedAddStop(table: map<StopRef, seq<nat>>, buses: seq<Bus>, stopCount: nat)
    requires Served(table, buses, stopCount) && Routes(buses, stopCount)
    ensures Served(table[Some(stopCount) := []], buses, stopCount + 1)
  {
    NewStopUnserved(buses, stopCount);
    var t := table[Some(stopCount) := []];
    forall k | k in t
      ensures NameSetOf(t[k], BusNames(buses)) == ServingNames(buses, k)
    {
      if k == Some(stopCount) {
        assert NameSetOf([], BusNames(buses)) == {};
      }
    }
  }

  /** The set of a stop after the bus `id` has been inserted into the sets along its route. */
  function WithBus(table: map<StopRef, seq<nat>>, names: seq<string>, route: seq<StopRef>, id: nat, k: StopRef): seq<nat>
    requires id < |names| && forall k :: k in table ==> Ordered(table[k], names)
  {
    if k !in route then Get(table, k)
    else if k in table then assert Ordered(table[k], names); Insert(table[k], names, id)
    else [id]
  }

  /** Inserting twice is inserting once: a route that visits a stop again does not change its set again. */
  lemma {:induction false} InsertTwice(ids: seq<nat>, names: seq<string>, id: nat)
    requires Ordered(ids, names) && id < |names|
    ensures Ordered(Insert(ids, names, id), names)
    ensures Insert(Insert(ids, names, id), names, id) == Insert(ids, names, id)
  {
    InsertOrdered(ids, names, id);
    InsertPresent(Insert(ids, names, id), names, id);
  }

  /**
   * `AddBusToStops`: for every stop on the route, in order, `stop_to_buses_[stop].insert(bus)`.
   */
  method AddBusToStops(table: map<StopRef, seq<nat>>, names: seq<string>, route: seq<StopRef>, id: nat)
    returns (t: map<StopRef, seq<nat>>)
    requires id < |names| && forall k :: k in table ==> Ordered(table[k], names)
    ensures forall k :: k in t <==> k in table || k in route
    ensures forall k :: k in t ==> t[k] == WithBus(table, names, route, id, k)
  {
    t := table;
    for j := 0 to |route|
      invariant forall k :: k in t <==> k in table || k in route[..j]
      invariant forall k :: k in t ==> t[k] == WithBus(table, names, route[..j], id, k)
    {
      var stop := route[j];
      assert route[..j + 1] == route[..j] + [stop];
      InsertTwice(Get(table, stop), names, id);
      var current := if stop in t then t[stop] else [];
      t := t[stop := Insert(current, names, id)];
    }
    assert route[..|route|] == route;
  }

  /** A route resolved against the stop table is a valid route once it has two stops. */
  lemma ResolvedRouteOk(names: seq<string>, table: map<string, nat>, stopNames: seq<string>, name: string, ring: bool)
    requires Indexes(names, table) && |stopNames| >= 2
    ensures RouteOk(Bus(name, ring, Resolve(names, table, stopNames)), |names|)
  {
  }

  /** The sets keep their order when a bus is appended to the table. */
  lemma OrderedAfterAppend(table: map<StopRef, seq<nat>>, buses: seq<Bus>, bus: Bus, stopCount: nat)
    requires Served(table, buses, stopCount)
    ensures BusNames(buses + [bus]) == BusNames(buses) + [bus.name]
    ensures forall k :: k in table ==> Ordered(table[k], BusNames(buses + [bus]))
  {
    assert BusNames(buses + [bus]) == BusNames(buses) + [bus.name];
    forall k | k in table
      ensures Ordered(table[k], BusNames(buses + [bus]))
    {
      OrderedExtend(table[k], BusNames(buses), [bus.name]);
    }
  }

  /** Adding a bus, then inserting it into the sets along its route, keeps the stop-to-buses table consistent. */
  lemma {:induction false} ServedAddBus(table: map<StopRef, seq<nat>>, t: map<StopRef, seq<nat>>, buses: seq<Bus>, bus: Bus, stopCount: nat)
    requires Served(table, buses, stopCount) && RouteOk(bus, stopCount)
    requires forall k :: k in table ==> Ordered(table[k], BusNames(buses + [bus]))
    requires forall k :: k in t <==> k in table || k in bus.stops
    requires forall k :: k in t ==> t[k] == WithBus(table, BusNames(buses + [bus]), bus.stops, |buses|, k)
    ensures Served(t, buses + [bus], stopCount)
  {
    var all := buses + [bus];
    var names := BusNames(all);
    assert BusNames(buses) + [bus.name] == names;
    forall k | k in t
      ensures Ordered(t[k], names)
      ensures NameSetOf(t[k], names) == ServingNames(all, k)
    {
      ServingAppend(buses, bus, k);
      var before := Get(table, k);
      assert Ordered(before, BusNames(buses));
      OrderedExtend(before, BusNames(buses), [bus.name]);
      assert NameSetOf(before, names) == ServingNames(buses, k) by {
        if k !in table {
          assert NameSetOf([], names) == {};
        }
      }
      if k in bus.stops {
        InsertOrdered(before, names, |buses|);
      }
    }
    forall k | k !in t
      ensures ServingNames(all, k) == {}
    {
      ServingAppend(buses, bus, k);
    }
  }

  /** Each stop name of a route looked up in the stop table, in order. */
  function Resolve(names: seq<string>, table: map<string, nat>, stopNames: seq<string>): (r: seq<StopRef>)
    requires Indexes(names, table)
    ensures |r| == |stopNames| && forall k :: 0 <= k < |r| ==> r[k] == Find(names, table, stopNames[k])
  {
    seq(|stopNames|, k requires 0 <= k < |stopNames| && Indexes(names, table) => Find(names, table, stopNames[k]))
  }

  // ---------------------------------------------------------------------
  // Distances and the bus statistics
  // ---------------------------------------------------------------------

  /** Every stop on the route is a real stop: `GetBusInfo` dereferences each one. */
  predicate Resolves(route: seq<StopRef>, stopCount: nat) {
    forall k :: 0 <= k < |route| ==> route[k].Some? && route[k].value < stopCount
  }

  /**
   * `ComputeDistance(from, to, FACT)`: the distance recorded for the pair
   * in this direction, else for the reverse pair, else the geographic one.
   */
  function RoadDistance(distances: map<(StopRef, StopRef), uint32>, stops: seq<Stop>, geo: GeoDistance,
                        from: StopRef, to: StopRef): (r: real)
    requires from.Some? && from.value < |stops| && to.Some? && to.value < |stops|
  {
    if (from, to) in distances then distances[(from, to)] as real
    else if (to, from) in distances then distances[(to, from)] as real
    else geo(stops[from.value].coordinates, stops[to.value].coordinates)
  }

  /** `ComputeDistance(from, to, GEO)`. */
  function GeoLeg(stops: seq<Stop>, geo: GeoDistance, from: StopRef, to: StopRef): real
    requires from.Some? && from.value < |stops| && to.Some? && to.value < |stops|
  {
    geo(stops[from.value].coordinates, stops[to.value].coordinates)
  }

  /** The road distances of the first `k` forward legs `route[i] -> route[i + 1]`. */
  function ForwardLength(distances: map<(StopRef, StopRef), uint32>, stops: seq<Stop>, geo: GeoDistance,
                         route: seq<StopRef>, k: nat): real
    requires Resolves(route, |stops|) && k < |route|
  {
    if k == 0 then 0.0
    else ForwardLength(distances, stops, geo, route, k - 1) + RoadDistance(distances, stops, geo, route[k - 1], route[k])
  }

  /** The road distances of the backward legs `route[i] -> route[i - 1]` for `1 <= i <= k`. */
  function BackwardLength(distances: map<(StopRef, StopRef), uint32>, stops: seq<Stop>, geo: GeoDistance,
                          route: seq<StopRef>, k: nat): real
    requires Resolves(route, |stops|) && k < |route|
  {
    if k == 0 then 0.0
    else BackwardLength(distances, stops, geo, route, k - 1) + RoadDistance(distances, stops, geo, route[k], route[k - 1])
  }

  /** The geographic distances of the first `k` forward legs. */
  function GeoLength(stops: seq<Stop>, geo: GeoDistance, route: seq<StopRef>, k: nat): real
    requires Resolves(route, |stops|) && k < |route|
  {
    if k == 0 then 0.0
    else GeoLength(stops, geo, route, k - 1) + GeoLeg(stops, geo, route[k - 1], route[k])
  }

  /** Stops a bus visits: the route once for a ring, there and back otherwise. */
  function StopCount(bus: Bus): nat
    requires |bus.stops| >= 1
  {
    if bus.ring then |bus.stops| else 2 * |bus.stops| - 1
  }

  /** The distinct stops of a route. */
  function Elements(route: seq<StopRef>): set<StopRef> {
    set s | s in route
  }

  /** The route length: the forward legs, plus for a non-ring bus every backward leg looked up in that direction. */
  function RouteLength(distances: map<(StopRef, StopRef), uint32>, stops: seq<Stop>, geo: GeoDistance, bus: Bus): real
    requires |bus.stops| >= 1 && Resolves(bus.stops, |stops|)
  {
    var last := |bus.stops| - 1;
    ForwardLength(distances, stops, geo, bus.stops, last) +
    if bus.ring then 0.0 else BackwardLength(distances, stops, geo, bus.stops, last)
  }

  /** The geographic length a bus's curvature is measured against: doubled for a non-ring bus. */
  function RouteGeoLength(stops: seq<Stop>, geo: GeoDistance, bus: Bus): real
    requires |bus.stops| >= 1 && Resolves(bus.stops, |stops|)
  {
    var forward := GeoLength(stops, geo, bus.stops, |bus.stops| - 1);
    if bus.ring then forward else forward * 2.0
  }

  /** With only one direction of a pair recorded and a symmetric geographic distance, the road distance is symmetric. */
  lemma {:induction false} RoadDistanceSymmetric(distances: map<(StopRef, StopRef), uint32>, stops: seq<Stop>, geo: GeoDistance,
                                                 a: StopRef, b: StopRef)
    requires a.Some? && a.value < |stops| && b.Some? && b.value < |stops|
    requires !((a, b) in distances && (b, a) in distances)
    requires geo(stops[a.value].coordinates, stops[b.value].coordinates) == geo(stops[b.value].coordinates, stops[a.value].coordinates)
    ensures RoadDistance(distances, stops, geo, a, b) == RoadDistance(distances, stops, geo, b, a)
  {
  }

  /** No pair of the route's neighbouring stops has distances recorded in both directions, and the geographic distance between them is symmetric. */
  predicate OneWayRecorded(distances: map<(StopRef, StopRef), uint32>, stops: seq<Stop>, geo: GeoDistance, route: seq<StopRef>)
    requires Resolves(route, |stops|)
  {
    forall i :: 1 <= i < |route| ==>
      !((route[i - 1], route[i]) in distances && (route[i], route[i - 1]) in distances) &&
      GeoLeg(stops, geo, route[i - 1], route[i]) == GeoLeg(stops, geo, route[i], route[i - 1])
  }

  /** When each leg's distance is the same both ways, going back costs as much as going forward. */
  lemma {:induction false} BackwardEqualsForward(distances: map<(StopRef, StopRef), uint32>, stops: seq<Stop>, geo: GeoDistance,
                                                 route: seq<StopRef>, k: nat)
    requires Resolves(route, |stops|) && k < |route| && OneWayRecorded(distances, stops, geo, route)
    ensures BackwardLength(distances, stops, geo, route, k) == ForwardLength(distances, stops, geo, route, k)
  {
    if k > 0 {
      BackwardEqualsForward(distances, stops, geo, route, k - 1);
      RoadDistanceSymmetric(distances, stops, geo, route[k - 1], route[k]);
    }
  }

  /** A non-ring bus on such a route travels twice its forward length. */
  lemma {:induction false} ThereAndBack(distances: map<(StopRef, StopRef), uint32>, stops: seq<Stop>, geo: GeoDistance, bus: Bus)
    requires |bus.stops| >= 1 && Resolves(bus.stops, |stops|) && !bus.ring
    requires OneWayRecorded(distances, stops, geo, bus.stops)
    ensures RouteLength(distances, stops, geo, bus) == 2.0 * ForwardLength(distances, stops, geo, bus.stops, |bus.stops| - 1)
  {
    BackwardEqualsForward(distances, stops, geo, bus.stops, |bus.stops| - 1);
  }

  /** A route of `n` stops has at most `n` distinct stops. */
  lemma {:induction false} ElementsBound(route: seq<StopRef>)
    ensures |Elements(route)| <= |route|
  {
    if route != [] {
      ElementsBound(route[1..]);
      assert Elements(route) == {route[0]} + Elements(route[1..]) by {
        assert route == [route[0]] + route[1..];
      }
    }
  }

  /** The unique-stop count never exceeds the stop count. */
  lemma UniqueWithinCount(bus: Bus)
    requires |bus.stops| >= 1
    ensures |Elements(bus.stops)| <= StopCount(bus)
  {
    ElementsBound(bus.stops);
  }

  /** The first `k + 1` stops of a route, as a set. */
  lemma ElementsPrefix(route: seq<StopRef>, k: nat)
    requires k < |route|
    ensures Elements(route[..k + 1]) == Elements(route[..k]) + {route[k]}
  {
    assert route[..k + 1] == route[..k] + [route[k]];
  }

  /** The first loop of `GetBusInfo`: road and geographic length of the forward legs, and the distinct stops. */
  method ForwardLegs(distances: map<(StopRef, StopRef), uint32>, stops: seq<Stop>, geo: GeoDistance, route: seq<StopRef>)
    returns (factLength: real, geoLength: real, unique: set<StopRef>)
    requires |route| >= 1 && Resolves(route, |stops|)
    ensures factLength == ForwardLength(distances, stops, geo, route, |route| - 1)
    ensures geoLength == GeoLength(stops, geo, route, |route| - 1)
    ensures unique == Elements(route)
  {
    var last := |route| - 1;
    factLength, geoLength, unique := 0.0, 0.0, {};
    for i := 0 to last
      invariant factLength == ForwardLength(distances, stops, geo, route, i)
      invariant geoLength == GeoLength(stops, geo, route, i)
      invariant unique == Elements(route[..i])
    {
      factLength := factLength + RoadDistance(distances, stops, geo, route[i], route[i + 1]);
      geoLength := geoLength + GeoLeg(stops, geo, route[i], route[i + 1]);
      ElementsPrefix(route, i);
      unique := unique + {route[i]};
    }
    ElementsPrefix(route, last);
    unique := unique + {route[last]};
    assert route[..last + 1] == route;
  }

  /** The second loop of `GetBusInfo` for a non-ring bus: adds the backward legs, last stop first. */
  method BackwardLegs(distances: map<(StopRef, StopRef), uint32>, stops: seq<Stop>, geo: GeoDistance, route: seq<StopRef>,
                      forward: real) returns (factLength: real)
    requires |route| >= 1 && Resolves(route, |stops|)
    ensures factLength == forward + BackwardLength(distances, stops, geo, route, |route| - 1)
  {
    var last := |route| - 1;
    factLength := forward;
    var i := last;
    while i > 0
      invariant 0 <= i <= last
      invariant factLength == forward + BackwardLength(distances, stops, geo, route, last) -
                              BackwardLength(distances, stops, geo, route, i)
    {
      factLength := factLength + RoadDistance(distances, stops, geo, route[i], route[i - 1]);
      i := i - 1;
    }
  }

  /**
   * The statistics of a bus: its stop count, its distinct stops, its road
   * length and the ratio of that to the geographic length, which the source
   * asserts is positive.
   */
  function BusInfoOf(distances: map<(StopRef, StopRef), uint32>, stops: seq<Stop>, geo: GeoDistance, bus: Bus)
    : (r: Result<BusInfo, CatalogueError>)
    requires |bus.stops| >= 1 && Resolves(bus.stops, |stops|)
    ensures r.Err? <==> RouteGeoLength(stops, geo, bus) <= 0.0
    ensures r.Ok? ==> r.value.stops == StopCount(bus) && r.value.uniqueStops <= r.value.stops
    ensures r.Ok? ==> r.value.uniqueStops == |Elements(bus.stops)|
    ensures r.Ok? ==> r.value.length == RouteLength(distances, stops, geo, bus)
                      && r.value.curvature == r.value.length / RouteGeoLength(stops, geo, bus)
  {
    UniqueWithinCount(bus);
    var geoLength := RouteGeoLength(stops, geo, bus);
    if geoLength <= 0.0 then Err(AssertionFailed)
    else
      var length := RouteLength(distances, stops, geo, bus);
      Ok(BusInfo(StopCount(bus), |Elements(bus.stops)|, length, length / geoLength))
  }

  /** The body of `GetBusInfo` once the bus is found: the forward loop, the backward loop for a non-ring bus, and the assert. */
  method ComputeBusInfo(distances: map<(StopRef, StopRef), uint32>, stops: seq<Stop>, geo: GeoDistance, bus: Bus)
    returns (r: Result<BusInfo, CatalogueError>)
    requires |bus.stops| >= 1 && Resolves(bus.stops, |stops|)
    ensures r == BusInfoOf(distances, stops, geo, bus)
  {
    var factLength, geoLength, unique := ForwardLegs(distances, stops, geo, bus.stops);
    if !bus.ring {
      factLength := BackwardLegs(distances, stops, geo, bus.stops, factLength);
      geoLength := geoLength * 2.0;
    }
    var stopsNum := if bus.ring then |bus.stops| else |bus.stops| * 2 - 1;
    if geoLength <= 0.0 {
      return Err(AssertionFailed);
    }
    r := Ok(BusInfo(stopsNum, |unique|, factLength, factLength / geoLength));
  }

  // ---------------------------------------------------------------------
  // The catalogue
  // ---------------------------------------------------------------------

  class Catalogue {
    var stops: seq<Stop>
    var buses: seq<Bus>
    var nameToStop: map<string, nat>
    var nameToBus: map<string, nat>
    var stopToBuses: map<StopRef, seq<nat>>
    var distances: map<(StopRef, StopRef), uint32>

    ghost predicate Valid()
      reads this
    {
      Indexes(StopNames(stops), nameToStop) &&
      Indexes(BusNames(buses), nameToBus) &&
      Routes(buses, |stops|) &&
      Served(stopToBuses, buses, |stops|)
    }

    constructor()
      ensures Valid()
      ensures stops == [] && buses == [] && nameToStop == map[] && nameToBus == map[]
      ensures stopToBuses == map[] && distances == map[]
    {
      stops := [];
      buses := [];
      nameToStop := map[];
      nameToBus := map[];
      stopToBuses := map[];
      distances := map[];
    }

    /** `FindStop`: the first stop added under this name, or null. */
    function FindStop(name: string): (r: StopRef)
      reads this
      requires Valid()
      ensures r.Some? <==> exists i :: 0 <= i < |stops| && stops[i].name == name
      ensures r.Some? ==> r.value < |stops| && stops[r.value].name == name
      ensures r.Some? ==> forall j :: 0 <= j < r.value ==> stops[j].name != name
    {
      Find(StopNames(stops), nameToStop, name)
    }

    /** `FindBus`: the first bus added under this name, if any. */
    function FindBus(name: string): (r: Option<nat>)
      reads this
      requires Valid()
      ensures r.Some? <==> exists i :: 0 <= i < |buses| && buses[i].name == name
      ensures r.Some? ==> r.value < |buses| && buses[r.value].name == name
      ensures r.Some? ==> forall j :: 0 <= j < r.value ==> buses[j].name != name
    {
      Find(BusNames(buses), nameToBus, name)
    }

    /** The pointers `AddBus` resolves its stop names to, in order. */
    function Route(stopNames: seq<string>): (r: seq<StopRef>)
      reads this
      requires Valid()
      ensures |r| == |stopNames| && forall k :: 0 <= k < |r| ==> r[k] == FindStop(stopNames[k])
    {
      Resolve(StopNames(stops), nameToStop, stopNames)
    }

    /** `AddStop`: appends the stop, makes it findable unless the name is taken, and gives it an empty bus set. */
    method AddStop(name: string, coordinates: Coordinates)
      requires Valid()
      modifies this
      ensures Valid()
      ensures stops == old(stops) + [Stop(name, coordinates)]
      ensures nameToStop == if name in old(nameToStop) then old(nameToStop) else old(nameToStop)[name := |old(stops)|]
      ensures stopToBuses == old(stopToBuses)[Some(|old(stops)|) := []]
      ensures buses == old(buses) && nameToBus == old(nameToBus) && distances == old(distances)
    {
      var id := |stops|;
      IndexesAppend(StopNames(stops), nameToStop, name);
      ServedAddStop(stopToBuses, buses, id);
      assert StopNames(stops + [Stop(name, coordinates)]) == StopNames(stops) + [name];
      stops := stops + [Stop(name, coordinates)];
      if name !in nameToStop {
        nameToStop := nameToStop[name := id];
      }
      if Some(id) !in stopToBuses {
        stopToBuses := stopToBuses[Some(id) := []];
      }
    }

    /** `AddDistance`: records the distance under the pair of pointers; a pair already present keeps its first distance. */
    method AddDistance(from: string, to: string, distance: uint32)
      requires Valid()
      modifies this
      ensures Valid()
      ensures var key := (FindStop(from), FindStop(to));
              distances == if key in old(distances) then old(distances) else old(distances)[key := distance]
      ensures stops == old(stops) && buses == old(buses) && nameToStop == old(nameToStop)
      ensures nameToBus == old(nameToBus) && stopToBuses == old(stopToBuses)
    {
      var key := (FindStop(from), FindStop(to));
      if key !in distances {
        distances := distances[key := distance];
      }
    }

    /** Resolves every stop name of a route, in order. */
    method ResolveStops(stopNames: seq<string>) returns (route: seq<StopRef>)
      requires Valid()
      ensures route == Route(stopNames)
    {
      route := [];
      for k := 0 to |stopNames|
        invariant route == Route(stopNames[..k])
      {
        assert Route(stopNames[..k + 1]) == Route(stopNames[..k]) + [FindStop(stopNames[k])];
        route := route + [FindStop(stopNames[k])];
      }
      assert stopNames[..|stopNames|] == stopNames;
    }

    /**
     * `AddBus`: asserts at least two stop names, appends the bus with its
     * resolved route, makes it findable unless the name is taken, and adds it
     * to the bus set of every stop on the route.
     */
    method AddBus(name: string, ring: bool, stopNames: seq<string>) returns (r: Result<(), CatalogueError>)
      requires Valid()
      modifies this
      ensures Valid()
      ensures r.Ok? <==> |stopNames| > 1
      ensures r.Err? ==> stops == old(stops) && buses == old(buses) && nameToStop == old(nameToStop) &&
                         nameToBus == old(nameToBus) && stopToBuses == old(stopToBuses)
      ensures r.Ok? ==> buses == old(buses) + [Bus(name, ring, Resolve(StopNames(stops), nameToStop, stopNames))]
      ensures r.Ok? ==> nameToBus == if name in old(nameToBus) then old(nameToBus) else old(nameToBus)[name := |old(buses)|]
      ensures r.Ok? ==> forall k :: k in stopToBuses <==> k in old(stopToBuses) || k in buses[|buses| - 1].stops
      ensures stops == old(stops) && nameToStop == old(nameToStop) && distances == old(distances)
    {
      if |stopNames| <= 1 {
        return Err(AssertionFailed);
      }
      var route := ResolveStops(stopNames);
      var bus := Bus(name, ring, route);
      var id := |buses|;
      ResolvedRouteOk(StopNames(stops), nameToStop, stopNames, name, ring);
      OrderedAfterAppend(stopToBuses, buses, bus, |stops|);
      var names := BusNames(buses + [bus]);
      var table := AddBusToStops(stopToBuses, names, route, id);
      ServedAddBus(stopToBuses, table, buses, bus, |stops|);
      assert Routes(buses + [bus], |stops|) by {
        assert forall b :: 0 <= b < |buses| ==> (buses + [bus])[b] == buses[b];
      }
      IndexesAppend(BusNames(buses), nameToBus, name);
      buses := buses + [bus];
      if name !in nameToBus {
        nameToBus := nameToBus[name := id];
      }
      stopToBuses := table;
      r := Ok(());
    }

    /** `GetBuses`: one pointer per bus, in the order the buses were added. */
    method GetBuses() returns (r: seq<nat>)
      ensures |r| == |buses| && forall i :: 0 <= i < |r| ==> r[i] == i
    {
      r := [];
      for i := 0 to |buses|
        invariant |r| == i && forall j :: 0 <= j < i ==> r[j] == j
      {
        r := r + [i];
      }
    }

    /**
     * `GetStopInfo`: none for an unknown name; otherwise the names of the
     * buses through the stop, ascending and without repeats.
     */
    method GetStopInfo(name: string) returns (r: Option<StopInfo>)
      requires Valid()
      ensures r.None? <==> forall i :: 0 <= i < |stops| ==> stops[i].name != name
      ensures r.Some? ==> forall i, j :: 0 <= i < j < |r.value.buses| ==> Less(r.value.buses[i], r.value.buses[j])
      ensures r.Some? ==> forall n :: n in r.value.buses <==> n in ServingNames(buses, FindStop(name))
    {
      var stop := FindStop(name);
      if stop.None? {
        return None;
      }
      var served := stopToBuses[stop];
      var names := BusNames(buses);
      var out := [];
      for i := 0 to |served|
        invariant out == Names(served[..i], names)
      {
        out := out + [buses[served[i]].name];
      }
      assert served[..|served|] == served;
      forall n | n in ServingNames(buses, stop)
        ensures n in out
      {
        assert n in NameSetOf(served, names);
      }
      r := Some(StopInfo(out));
    }

    /** `GetBusInfo`: none for an unknown bus, otherwise the statistics of the first bus of that name. */
    method GetBusInfo(name: string, geo: GeoDistance) returns (r: Result<Option<BusInfo>, CatalogueError>)
      requires Valid()
      requires FindBus(name).Some? ==> Resolves(buses[FindBus(name).value].stops, |stops|)
      ensures FindBus(name).None? ==> r == Ok(None)
      ensures FindBus(name).Some? ==>
                var info := BusInfoOf(distances, stops, geo, buses[FindBus(name).value]);
                r == if info.Ok? then Ok(Some(info.value)) else Err(info.error)
    {
      var found := FindBus(name);
      if found.None? {
        return Ok(None);
      }
      assert RouteOk(buses[found.value], |stops|);
      var info := ComputeBusInfo(distances, stops, geo, buses[found.value]);
      if info.Err? {
        return Err(info.error);
      }
      r := Ok(Some(info.value));
    }
  }
}
