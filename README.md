# Transport catalogue — a verified Dafny model of its core

The transport catalogue reads a description of bus stops and bus routes,
answers questions about them and draws the network as an SVG map. Input
and output are JSON documents; an older front end reads the same data as
lines of text. This project models the core of that program in Dafny and
proves what it promises:

- **JSON engine** (`json.h`, `json.cpp`). The value model `Node` is a closed
  variant of null, int, double, string, bool, array and dict. Dicts are
  `std::map`s: keys are unique and kept in ascending order, and emplacing a
  key that is already there keeps the first value. The engine has a
  recursive-descent loader over the text (modules `JsonParse` for the
  grammar as functions, `JsonLoad` for the loops that read it) and a
  pretty-printer (`JsonPrint`). `JsonRoundTrip` proves that the loader reads
  back exactly what the printer writes.
- **JSON builder** (`json_builder.cpp`). A class with a stack of open
  contexts over a flat buffer of finished values. The class invariant says
  that keys and values alternate above every open dict and that a finished
  root stands alone.
- **Catalogue** (`transport_catalogue.cpp`). A class holding the stop and
  bus tables, the name indexes, the per-stop bus sets ordered by bus name
  and the directed road distances. It also computes bus and stop
  statistics.
- **Map renderer** (`map_renderer.cpp`). Buses are sorted by name, empty
  buses are skipped and colours cycle through the palette. Stops are
  deduplicated, route points are ordered and label ends chosen. The four
  layers come out in a fixed order.
- **SVG helpers** (`svg.cpp`): the text escaper, the colour and stroke
  keyword printers, and the indentation context.
- **JSON reader and writer** (`json_reader.cpp`): turning a request document
  into stop, bus and statistics requests, and replies into a document.
- **Line reader** (`input_reader.cpp`): splitting `Stop` and `Bus` lines into
  names, stop lists and road distances.

A pointer into one of the source's tables (`const Stop*`, `const Bus*`)
is an index into the model's sequence of stops or buses. A null pointer
is `None`. An exception or a failed `assert` is an `Err` result. A stream
is the `string` read so far together with a position. Output streams are
`string`s that the methods append to. Doubles are `real`s, and their text
form is a parameter (`DoubleFormat`).

## Model

| member | source | states |
|---|---|---|
| JsonNode.Node.AsInt | transport-catalogue/json.cpp:459-464 | succeeds exactly when the node is an Int, and then returns that node's integer; otherwise a type mismatch |
| JsonNode.Node.AsBool | transport-catalogue/json.cpp:466-471 | succeeds exactly for a Bool node and returns its value |
| JsonNode.Node.AsDouble | transport-catalogue/json.cpp:473-484 | succeeds exactly when `IsDouble` (Int or Double) holds; a Double gives its value, an Int gives the integer as a real |
| JsonNode.Node.AsString | transport-catalogue/json.cpp:486-491 | succeeds exactly for a String node and returns its text |
| JsonNode.Node.AsArray | transport-catalogue/json.cpp:493-498 | succeeds exactly for an Array node and returns its items |
| JsonNode.Node.AsMap | transport-catalogue/json.cpp:500-505 | succeeds exactly for a Dict node and returns its entries |
| JsonNode.Lookup | transport-catalogue/json.h:13 | a dict lookup finds a value exactly when the key is among the entries' keys, and the value found is that key's entry |
| JsonNode.EmplaceKeys | transport-catalogue/json.cpp:371 | emplacing adds exactly the new key to the dict's key set |
| JsonNode.EmplaceSorted | transport-catalogue/json.cpp:371 | emplacing keeps the entries in strictly ascending key order; an existing key leaves the dict unchanged (first value kept), a new key adds exactly one entry |
| JsonNode.EmplaceLookup | transport-catalogue/json.cpp:371 | after an emplace, the new key finds the new value only if it was absent; every other lookup is unchanged |
| JsonNode.EmplaceGreatest | transport-catalogue/json_reader.cpp:163-166 | emplacing a key greater than every key present appends it at the end |
| JsonNode.EmplaceAllKeepsFirst | transport-catalogue/json.cpp:357-378 | emplacing a sequence of pairs makes each key find the value of its first occurrence (or the value already present) |
| JsonNode.SortedExtensional | transport-catalogue/json.h:13 | two key-sorted dicts with the same lookups are equal: a dict is determined by its key-to-value map, whatever the insertion order |
| JsonNode.EmplaceOrderIrrelevant | transport-catalogue/json.h:13 | emplacing two different keys gives the same dict in either order |
| JsonNode.EmplaceWellFormed | transport-catalogue/json.h:13 | emplacing a well-formed value into a well-formed dict keeps it well-formed |
| JsonNode.EqualIsStructural | transport-catalogue/json.cpp:507-513 | node equality, written as the recursive comparison of alternatives and contents, holds exactly when the two trees are identical (so Int 1 differs from Double 1.0) |
| JsonNode.DocumentEqual | transport-catalogue/json.cpp:523-529 | two documents are equal exactly when their roots are equal |
| JsonParse.TokenStart | transport-catalogue/json.cpp:105-136 | the token found is a character that is neither whitespace nor a backslash, at or after the start; a backslash followed by neither whitespace nor `t`, `n` or `r` is an error |
| JsonParse.BackslashWhitespaceSkipped | transport-catalogue/json.cpp:117-131 | a backslash followed by whitespace is skipped together with that whitespace |
| JsonParse.BackslashSpaceInArray | transport-catalogue/json.cpp:105-136 | the text `[1,\ 2]` loads as the array of 1 and 2 |
| JsonParse.DigitRunEnd | transport-catalogue/json.cpp:152-159 | the run read is all digits and stops at the first non-digit |
| JsonParse.Digits | transport-catalogue/json.cpp:152-159 | succeeds only after at least one digit, reading the whole run |
| JsonParse.IntegerPart | transport-catalogue/json.cpp:161-171 | the integer part is at least one digit |
| JsonParse.FractionPart | transport-catalogue/json.cpp:173-179 | with a `.` at least one digit follows it; without one nothing is read |
| JsonParse.ExponentPart | transport-catalogue/json.cpp:181-189 | with an `e`/`E`, digits follow its optional sign; without one nothing is read |
| JsonParse.FractionValueIn | transport-catalogue/json.cpp:173-179 | the value of the fraction digits lies between 0 and 1 |
| JsonParse.NumberNode | transport-catalogue/json.cpp:191-206 | a numeral is an Int exactly when it has neither fraction nor exponent and its value fits an `int`, and then it is that signed value; otherwise it is a Double |
| JsonParse.ParseNumber | transport-catalogue/json.cpp:140-207 | a number consumes at least one character and yields an Int or a Double |
| JsonParse.DigitNumeral | transport-catalogue/json.cpp:140-207 | a single non-zero digit, followed by no digit, `.` or exponent, is read as the Int of that digit |
| JsonParse.ZeroNumeral | transport-catalogue/json.cpp:161-171 | a `0` followed by a digit is read as the Int 0 and the digit is left unread |
| JsonParse.LeadingZeroAlone | transport-catalogue/json.cpp:531-533 | a text that starts with `0` and a digit loads as the Int 0: the digit after the zero and all later input are ignored |
| JsonParse.ParseStringFrom | transport-catalogue/json.cpp:211-268 | a string literal, once closed, yields a String node and ends after its closing quote |
| JsonParse.ParseNull | transport-catalogue/json.cpp:271-285 | `null` yields the Null node and ends three characters after the `n` |
| JsonParse.ParseNullAccepts | transport-catalogue/json.cpp:271-285 | the null reader succeeds exactly when the three characters `ull` follow the `n` |
| JsonParse.ParseBool | transport-catalogue/json.cpp:288-318 | a bool literal yields true after `t` and false otherwise, ending after the literal |
| JsonParse.ParseBoolAccepts | transport-catalogue/json.cpp:288-318 | the bool reader succeeds exactly on `true` after a `t` and on `false` after an `f` |
| JsonParse.ParseNode | transport-catalogue/json.cpp:383-410 | a value always consumes input |
| JsonParse.ParseValue | transport-catalogue/json.cpp:385-409 | the first character of the token chooses the form; any other character is an unknown token |
| JsonParse.ParseArray | transport-catalogue/json.cpp:321-343 | an array literal yields an Array node |
| JsonParse.ParseItems | transport-catalogue/json.cpp:332-340 | the items that follow the first yield an Array node; only `,` or `]` may follow an item |
| JsonParse.ParseDict | transport-catalogue/json.cpp:346-381 | an object literal yields a Dict node |
| JsonParse.ParseMember | transport-catalogue/json.cpp:358-371 | one member is a string key, `:` and a value, emplaced so that a repeated key keeps its first value |
| JsonParse.ParseMembers | transport-catalogue/json.cpp:357-378 | the members of an object yield a Dict node; only `,` or `}` may follow a member |
| JsonParse.ParseNodeWellFormed | transport-catalogue/json.cpp:383-410 | every tree the loader builds is well-formed: each of its dicts has unique keys in ascending order |
| JsonParse.ParseArrayWellFormed | transport-catalogue/json.cpp:321-343 | an array that was read is well-formed |
| JsonParse.ParseItemsWellFormed | transport-catalogue/json.cpp:332-340 | items read after well-formed items keep the array well-formed |
| JsonParse.ParseDictWellFormed | transport-catalogue/json.cpp:346-381 | a dict that was read is well-formed |
| JsonParse.ParseMemberWellFormed | transport-catalogue/json.cpp:358-371 | emplacing a read member keeps the entries well-formed |
| JsonParse.ParseMembersWellFormed | transport-catalogue/json.cpp:357-378 | the members read form a well-formed dict |
| JsonParse.Load | transport-catalogue/json.cpp:531-533 | a document that loads has a well-formed root |
| JsonLoad.MoveToToken | transport-catalogue/json.cpp:105-136 | the skipping loop stops where the token grammar says, with the same errors |
| JsonLoad.ReadDigits | transport-catalogue/json.cpp:152-159 | the digit loop reads exactly the digit run, or fails with "A digit is expected" |
| JsonLoad.ReadIntegerPart | transport-catalogue/json.cpp:161-171 | the integer part read by the loop matches the grammar |
| JsonLoad.ReadFraction | transport-catalogue/json.cpp:173-179 | the fraction read by the loop matches the grammar |
| JsonLoad.ReadExponent | transport-catalogue/json.cpp:181-189 | the exponent read by the loop matches the grammar |
| JsonLoad.LoadNumber | transport-catalogue/json.cpp:140-207 | the number loader returns the node and end position the number grammar gives |
| JsonLoad.LoadString | transport-catalogue/json.cpp:211-268 | the string loop decodes exactly the escapes the grammar accepts and fails where it fails |
| JsonLoad.LoadNull | transport-catalogue/json.cpp:271-285 | agrees with the null grammar |
| JsonLoad.LoadBool | transport-catalogue/json.cpp:288-318 | agrees with the bool grammar |
| JsonLoad.LoadNode | transport-catalogue/json.cpp:383-410 | the dispatching loader agrees with the value grammar |
| JsonLoad.LoadArray | transport-catalogue/json.cpp:321-343 | the array loop agrees with the array grammar, including its delimiter error |
| JsonLoad.LoadMember | transport-catalogue/json.cpp:358-371 | one pass of the dict loop agrees with the member grammar |
| JsonLoad.LoadDict | transport-catalogue/json.cpp:346-381 | the dict loop agrees with the object grammar, including its key, colon and delimiter errors |
| JsonLoad.LoadDocument | transport-catalogue/json.cpp:531-533 | `Load` returns the document the grammar reads from the start of the text |
| JsonPrint.IndentText | transport-catalogue/json.cpp:16-22 | the indentation is four spaces per level |
| JsonPrint.Indent | transport-catalogue/json.cpp:16-22 | the loop builds that indentation |
| JsonPrint.PrintChar | transport-catalogue/json.cpp:59-74 | one character is written escaped when it is CR, LF, `"` or a backslash, and as it is otherwise |
| JsonPrint.PrintString | transport-catalogue/json.cpp:56-77 | a string is written quoted with each character escaped that way |
| JsonPrint.PrintNode | transport-catalogue/json.cpp:79-101 | a node is written as the printed text of the node at that indentation |
| JsonPrint.PrintItem | transport-catalogue/json.cpp:28-33 | one array line is the inner indent, the item, a comma unless it is the last, and a newline |
| JsonPrint.PrintArray | transport-catalogue/json.cpp:24-37 | an array is `[`, one line per item, and `]` at the parent's indent |
| JsonPrint.PrintMember | transport-catalogue/json.cpp:44-50 | one dict line is the inner indent, the quoted key as it is, `": "`, the value, a comma unless it is the last, and a newline |
| JsonPrint.PrintMap | transport-catalogue/json.cpp:39-54 | a dict is `{`, one line per entry in key order, and `}` at the parent's indent |
| JsonPrint.Print | transport-catalogue/json.cpp:535-537 | a document is its root printed at indentation 0 |
| JsonLayout.LaidPrinted | transport-catalogue/json.cpp:79-101 | the printed text of a node has the layout the loader's round-trip proof reads |
| JsonRoundTrip.ParseLaid | transport-catalogue/json.cpp:383-410 | whatever text has a node's printed layout, the loader reads that node back and stops right after it |
| JsonRoundTrip.ParseEscaped | transport-catalogue/json.cpp:211-268 | the loader decodes the printer's escaped text of a string back to that string |
| JsonRoundTrip.ParseIntPrinted | transport-catalogue/json.cpp:140-207 | the loader reads the printed decimal text of an int back as that Int |
| JsonRoundTrip.PrintLoadRoundTrip | transport-catalogue/json.cpp:531-537 | loading the printed text of a document gives the same document back, for every tree without doubles whose keys need no escaping |
| JsonBuilder.ExtractKey | transport-catalogue/json_builder.cpp:145-149 | at most one context is popped, leaving a prefix of the stack, and one is popped exactly when the top is a KEY |
| JsonBuilder.Pairs | transport-catalogue/json_builder.cpp:98-101 | an alternating buffer is read as (key, value) pairs, the k-th pair made of entries 2k and 2k+1 |
| JsonBuilder.BuildOf | transport-catalogue/json_builder.cpp:131-136 | building succeeds exactly when no context is open and some value was given |
| JsonBuilder.KeyKeepsStacked | transport-catalogue/json_builder.cpp:59-68 | pushing a key above an open dict keeps the stack invariant |
| JsonBuilder.StartKeepsStacked | transport-catalogue/json_builder.cpp:82-89 | opening an array or dict where a value is allowed keeps the stack invariant |
| JsonBuilder.ValueKeepsStacked | transport-catalogue/json_builder.cpp:70-80 | adding a value where one is allowed, then popping a KEY, keeps the stack invariant |
| JsonBuilder.ReplaceKeepsStacked | transport-catalogue/json_builder.cpp:151-156 | replacing a closed container's entries by the container keeps the stack invariant |
| JsonBuilder.PairsAppend | transport-catalogue/json_builder.cpp:98-101 | one more key and value add exactly one pair at the end |
| JsonBuilder.EmplaceAllAppend | transport-catalogue/json_builder.cpp:101 | emplacing pairs one by one is emplacing the last pair after the others |
| JsonBuilder.DictOfKeepsFirst | transport-catalogue/json_builder.cpp:91-106 | the dict made from a buffer is sorted, and each key finds the value of its first occurrence in the buffer |
| JsonBuilder.DictOfWellFormed | transport-catalogue/json_builder.cpp:91-106 | the dict made from well-formed values is well-formed |
| JsonBuilder.ArrayOfWellFormed | transport-catalogue/json_builder.cpp:116-129 | the array made from well-formed values is well-formed |
| JsonBuilder.BuildsTheRoot | transport-catalogue/json_builder.cpp:131-143 | when building succeeds the buffer holds exactly the root, and no further value may be added |
| JsonBuilder.EmplacePairs | transport-catalogue/json_builder.cpp:96-102 | the loop of `EndDict` emplaces the buffer's pairs in order |
| JsonBuilder.RepeatedKeyDict | transport-catalogue/json_builder.cpp:101 | key "a" given twice, with values 1 and 2, gives the dict {"a": 1} |
| JsonBuilder.RepeatedKeyKeepsFirst | transport-catalogue/json_builder.cpp:59-106 | the builder calls StartDict, Key "a", Value 1, Key "a", Value 2, EndDict and Build produce {"a": 1} |
| JsonBuilder.Builder.constructor | transport-catalogue/json_builder.h:62-68 | a new builder has no open context and no value |
| JsonBuilder.Builder.ExtractKeyIfNeeded | transport-catalogue/json_builder.cpp:145-149 | pops a KEY context on top and nothing else |
| JsonBuilder.Builder.ReplaceValue | transport-catalogue/json_builder.cpp:151-156 | truncates the buffer to the top context's index, appends the value, pops the context and then a KEY |
| JsonBuilder.Builder.Key | transport-catalogue/json_builder.cpp:59-68 | succeeds exactly when the top context is a dict; then appends the key and pushes a KEY context at its position; on failure nothing changes |
| JsonBuilder.Builder.Value | transport-catalogue/json_builder.cpp:70-80 | succeeds exactly when a value is allowed; then appends one value and pops a KEY context; on failure nothing changes |
| JsonBuilder.Builder.StartDict | transport-catalogue/json_builder.cpp:82-89 | succeeds exactly when a value is allowed; then pushes a dict context at the buffer's length and leaves the buffer alone |
| JsonBuilder.Builder.StartArray | transport-catalogue/json_builder.cpp:108-114 | succeeds exactly when a value is allowed; then pushes an array context at the buffer's length and leaves the buffer alone |
| JsonBuilder.Builder.EndDict | transport-catalogue/json_builder.cpp:91-106 | succeeds exactly when the top context is a dict; then the entries above it (alternating keys and values) become one Dict, the context and a KEY are popped |
| JsonBuilder.Builder.EndArray | transport-catalogue/json_builder.cpp:116-129 | succeeds exactly when the top context is an array; then the entries above it become one Array in order, the context and a KEY are popped |
| JsonBuilder.Builder.CanValueNow | transport-catalogue/json_builder.cpp:140-143 | a value is allowed exactly when nothing was started, or the top context is an array or a key |
| JsonBuilder.Builder.Build | transport-catalogue/json_builder.cpp:131-136 | fails when a context is open or nothing was given; otherwise returns the one finished, well-formed root, without changing the builder |
| TransportCatalogue.Find | transport-catalogue/transport_catalogue.cpp:112-130 | a name is found exactly when some entry has it, and it is the first such entry |
| TransportCatalogue.IndexesAppend | transport-catalogue/transport_catalogue.cpp:21 | adding a name keeps the name index correct; a repeated name keeps pointing at the earlier entry |
| TransportCatalogue.NewStopUnserved | transport-catalogue/transport_catalogue.cpp:22 | a stop just added is on no bus route |
| TransportCatalogue.ServedAddStop | transport-catalogue/transport_catalogue.cpp:18-23 | giving a new stop an empty bus set keeps the stop-to-buses table correct |
| TransportCatalogue.InsertTwice | transport-catalogue/transport_catalogue.cpp:132-136 | inserting a bus into a stop's ordered set keeps it ordered, and inserting it again changes nothing |
| TransportCatalogue.AddBusToStops | transport-catalogue/transport_catalogue.cpp:132-136 | after the loop, each stop on the route, and only those besides the stops already present, has the bus inserted into its set |
| TransportCatalogue.ServedAddBus | transport-catalogue/transport_catalogue.cpp:32-47 | after adding a bus, each stop's set holds exactly the names of the buses whose routes contain it, ordered by name |
| TransportCatalogue.ResolvedRouteOk | transport-catalogue/transport_catalogue.cpp:36-42 | a route resolved from at least two names refers only to stops that exist, or to none |
| TransportCatalogue.Resolve | transport-catalogue/transport_catalogue.cpp:36-42 | each stop name of a route is looked up in order |
| TransportCatalogue.RoadDistanceSymmetric | transport-catalogue/transport_catalogue.cpp:138-152 | when no two-way pair of entries exists, the road distance from a to b equals the one from b to a: the reverse entry or the geographic distance is used |
| TransportCatalogue.BackwardEqualsForward | transport-catalogue/transport_catalogue.cpp:100-103 | when each leg has an entry in one direction only, the way back is as long as the way out |
| TransportCatalogue.ThereAndBack | transport-catalogue/transport_catalogue.cpp:93-105 | for a non-ring bus with such distances, the route length is twice the forward length |
| TransportCatalogue.ElementsBound | transport-catalogue/transport_catalogue.cpp:89-98 | a route has no more distinct stops than stops |
| TransportCatalogue.UniqueWithinCount | transport-catalogue/transport_catalogue.cpp:88-98 | the number of unique stops never exceeds the stop count |
| TransportCatalogue.ElementsPrefix | transport-catalogue/transport_catalogue.cpp:96 | each step of the loop adds its stop to the unique set |
| TransportCatalogue.ForwardLegs | transport-catalogue/transport_catalogue.cpp:93-98 | the forward loop sums the road and geographic lengths of the legs stops[i] to stops[i+1] and collects the route's distinct stops |
| TransportCatalogue.BackwardLegs | transport-catalogue/transport_catalogue.cpp:100-103 | the backward loop adds the legs stops[i] to stops[i-1], each looked up in that direction |
| TransportCatalogue.BusInfoOf | transport-catalogue/transport_catalogue.cpp:86-109 | the statistics fail exactly when the geographic length is not positive; otherwise the stop count is n for a ring and 2n-1 otherwise, the unique count is the number of distinct stops and at most the stop count, the length is the road length of the route and the curvature its ratio to the geographic length |
| TransportCatalogue.ComputeBusInfo | transport-catalogue/transport_catalogue.cpp:86-109 | the loops compute those statistics |
| TransportCatalogue.Catalogue.constructor | transport-catalogue/transport_catalogue.h:41-47 | a new catalogue has empty tables |
| TransportCatalogue.Catalogue.FindStop | transport-catalogue/transport_catalogue.cpp:112-120 | a stop is found exactly when one has that name, and it is the first stop added with it |
| TransportCatalogue.Catalogue.FindBus | transport-catalogue/transport_catalogue.cpp:122-130 | a bus is found exactly when one has that name, and it is the first bus added with it |
| TransportCatalogue.Catalogue.Route | transport-catalogue/transport_catalogue.cpp:38-41 | the route of a bus is the lookup of each of its stop names, in order |
| TransportCatalogue.Catalogue.AddStop | transport-catalogue/transport_catalogue.cpp:18-23 | appends the stop, indexes its name unless the name is taken, gives it an empty bus set and keeps the catalogue invariant |
| TransportCatalogue.Catalogue.AddDistance | transport-catalogue/transport_catalogue.cpp:25-30 | records the distance under the ordered pair (from, to) unless that pair already has one; nothing else changes |
| TransportCatalogue.Catalogue.ResolveStops | transport-catalogue/transport_catalogue.cpp:36-42 | the loop resolves each stop name in order |
| TransportCatalogue.Catalogue.AddBus | transport-catalogue/transport_catalogue.cpp:32-47 | fails with nothing changed unless there are at least two stop names; otherwise appends the resolved bus, indexes its name unless taken, and adds it to the sets of exactly its route's stops |
| TransportCatalogue.Catalogue.GetBuses | transport-catalogue/transport_catalogue.cpp:49-59 | one reference per bus, in the order the buses were added |
| TransportCatalogue.Catalogue.GetStopInfo | transport-catalogue/transport_catalogue.cpp:61-78 | none exactly when no stop has the name; otherwise the names of the buses through that stop, strictly ascending |
| TransportCatalogue.Catalogue.GetBusInfo | transport-catalogue/transport_catalogue.cpp:80-110 | none for an unknown bus; otherwise the statistics of that bus's route, or the error of the failed assert |
| NameSet.InsertNames | transport-catalogue/transport_catalogue.cpp:134 | inserting adds exactly the new member's name to the set's names |
| NameSet.InsertOrdered | transport-catalogue/transport_catalogue.cpp:9-11 | inserting into a set ordered by name keeps it strictly ordered by name |
| NameSet.InsertPresent | transport-catalogue/transport_catalogue.cpp:9-11 | inserting a member whose name is already present leaves the set unchanged |
| NameSet.OrderedExtend | transport-catalogue/transport_catalogue.cpp:44-45 | adding more buses does not change an existing set or its order |
| MapRenderer.InsertByNameMultiset | transport-catalogue/map_renderer.cpp:169-171 | one insertion step of the sort adds exactly the one bus |
| MapRenderer.InsertByNameSorted | transport-catalogue/map_renderer.cpp:169-171 | one insertion step keeps the buses ordered by name |
| MapRenderer.SortedBusesSorted | transport-catalogue/map_renderer.cpp:169-171 | the sorted buses are ordered by name and are a permutation of the input |
| MapRenderer.SortByName | transport-catalogue/map_renderer.cpp:169-171 | the sort loop yields the sorted buses |
| MapRenderer.KeptCount | transport-catalogue/map_renderer.cpp:175-177 | only buses with stops are kept, each as often as it occurs |
| MapRenderer.KeptSorted | transport-catalogue/map_renderer.cpp:174-185 | skipping empty buses keeps the name order |
| MapRenderer.Colored | transport-catalogue/map_renderer.cpp:173-185 | the k-th kept bus gets palette colour k modulo the palette's length |
| MapRenderer.NextColorIndex | transport-catalogue/map_renderer.cpp:179-182 | resetting the colour index at the palette's end is taking the count modulo the palette's length |
| MapRenderer.BusesForDrawingProps | transport-catalogue/map_renderer.cpp:166-188 | the buses drawn have stops, come in name order, get colours cyclically from the palette, and are all the non-empty input buses |
| MapRenderer.PaintNext | transport-catalogue/map_renderer.cpp:179-184 | one loop step gives the next bus the next colour |
| MapRenderer.GetBusesForDrawing | transport-catalogue/map_renderer.cpp:166-188 | the method yields those buses and colours |
| MapRenderer.InsertRoute | transport-catalogue/map_renderer.cpp:193-195 | inserting a route's stops keeps the stop set in bounds |
| MapRenderer.InsertRouteProps | transport-catalogue/map_renderer.cpp:193-195 | inserting a route's stops keeps the set ordered by name and adds exactly the route's stop names |
| MapRenderer.StopsForDrawing | transport-catalogue/map_renderer.cpp:190-199 | the stop set refers only to existing stops |
| MapRenderer.StopsForDrawingProps | transport-catalogue/map_renderer.cpp:190-199 | the stops drawn are strictly ordered by name, their names are exactly the names of stops on some route, and each is on a route |
| MapRenderer.GetStopsForDrawing | transport-catalogue/map_renderer.cpp:190-199 | the nested loop yields that stop set |
| MapRenderer.ReversedTwice | transport-catalogue/map_renderer.cpp:50-54 | reading a route backwards twice gives it back |
| MapRenderer.ReversedMultiset | transport-catalogue/map_renderer.cpp:50-54 | a route read backwards has the same stops, each as often |
| MapRenderer.LineStopsProps | transport-catalogue/map_renderer.cpp:45-56 | a bus line has as many points as the bus's stop count, starts with the route in order, is a palindrome for a non-ring bus, and visits exactly the route's stops |
| MapRenderer.PositionsConcat | transport-catalogue/map_renderer.cpp:45-56 | projecting two runs of stops is projecting each run |
| MapRenderer.RoutePoints | transport-catalogue/map_renderer.cpp:46-48 | the forward loop adds one point per stop, in order |
| MapRenderer.BackPoints | transport-catalogue/map_renderer.cpp:50-54 | the backward loop adds the stops before the last one, in reverse order |
| MapRenderer.DrawBusLine | transport-catalogue/map_renderer.cpp:37-58 | adds exactly the bus's polyline to the container |
| MapRenderer.BusNameProps | transport-catalogue/map_renderer.cpp:60-91 | a bus name gets 4 texts when the first and last stops differ and 2 when they are the same; each label is an underlayer text then a coloured text, at the first stop and then at the last |
| MapRenderer.DrawBusName | transport-catalogue/map_renderer.cpp:60-91 | adds exactly the bus's name labels to the container |
| MapRenderer.BusesForDrawingOk | transport-catalogue/map_renderer.cpp:143-151 | every bus drawn has stops that all exist |
| MapRenderer.LinesProps | transport-catalogue/map_renderer.cpp:143-146 | one bus line per drawn bus, all in the line layer |
| MapRenderer.NamesLayer | transport-catalogue/map_renderer.cpp:148-151 | the bus names are all in the bus-label layer |
| MapRenderer.CirclesProps | transport-catalogue/map_renderer.cpp:153-156 | one circle per stop drawn, in order, all in the circle layer |
| MapRenderer.StopLabelsProps | transport-catalogue/map_renderer.cpp:158-161 | two texts per stop drawn, all in the stop-label layer |
| MapRenderer.LayerOrder | transport-catalogue/map_renderer.cpp:136-164 | the map's shapes come in layer order: bus lines first, then bus names, stop circles and stop names |
| MapRenderer.CirclesInOrder | transport-catalogue/map_renderer.cpp:153-156 | the circles come in the order of the stop set |
| MapRenderer.LayersConcat | transport-catalogue/map_renderer.cpp:136-164 | four runs, each in one layer and in increasing layer order, form a layered picture |
| MapRenderer.DrawLines | transport-catalogue/map_renderer.cpp:143-146 | the loop adds the bus lines |
| MapRenderer.DrawNames | transport-catalogue/map_renderer.cpp:148-151 | the loop adds the bus names |
| MapRenderer.DrawCircles | transport-catalogue/map_renderer.cpp:153-156 | the loop adds the stop circles |
| MapRenderer.DrawStopNames | transport-catalogue/map_renderer.cpp:158-161 | the loop adds the stop names |
| MapRenderer.Render | transport-catalogue/map_renderer.cpp:136-164 | the document is the whole picture: sorted, coloured buses and the ordered stop set, drawn layer by layer |
| Svg.AppendEntity | transport-catalogue/svg.cpp:253-272 | one character is appended as its entity if it is special and as it is otherwise |
| Svg.EscapedAppend | transport-catalogue/svg.cpp:251-275 | escaping a text with one more character appends that character's escape |
| Svg.EscapedString | transport-catalogue/svg.cpp:251-275 | the loop escapes the whole text, character by character, in order |
| Svg.UnescapeEntity | transport-catalogue/svg.cpp:253-272 | each escape decodes back to its character |
| Svg.EscapedRoundTrip | transport-catalogue/svg.cpp:251-275 | decoding the entities of an escaped text gives the original text back |
| Svg.EscapedHasNoMarkup | transport-catalogue/svg.cpp:251-275 | escaped text contains no quote, apostrophe, `<` or `>` |
| Svg.RgbTextInjective | transport-catalogue/svg.cpp:75-81 | two Rgb colours print the same text only if they are the same colour |
| Svg.LineCapRoundTrip | transport-catalogue/svg.cpp:101-121 | each line cap prints a keyword that names it |
| Svg.LineJoinRoundTrip | transport-catalogue/svg.cpp:123-149 | each line join prints a keyword that names it |
| Svg.Spaces | transport-catalogue/svg.cpp:32-36 | a run of exactly n spaces |
| Svg.RenderIndent | transport-catalogue/svg.cpp:32-36 | writes exactly `indent` spaces, and none for a negative indent |
| Svg.IndentedTimesDepth | transport-catalogue/svg.cpp:28-30 | indenting k times adds k steps |
| Decimal.NatToDecimalValue | transport-catalogue/json.cpp:93 | the decimal text of a number reads back as that number |
| Decimal.NatToDecimalInjective | transport-catalogue/svg.cpp:75-81 | different numbers print different decimal texts |
| Decimal.IntToDecimal | transport-catalogue/json.cpp:93 | an int's text starts with `-` exactly when it is negative |
| Text.LessIrreflexive | transport-catalogue/json.h:13 | no string comes before itself |
| Text.LessTransitive | transport-catalogue/json.h:13 | string order is transitive |
| Text.LessTotal | transport-catalogue/json.h:13 | of two different strings, one comes first |
| Wrappers.EachSpec | transport-catalogue/json_reader.cpp:145-147 | reading a list item by item succeeds exactly when every item reads, gives each item's value in order, and otherwise fails with the first failing item's error |
| Wrappers.EachConcat | transport-catalogue/json_reader.cpp:23-35 | reading two lists one after the other is reading their concatenation |
| Wrappers.ReadEach | transport-catalogue/json_reader.cpp:142-149 | the loop reads the list item by item |
| JsonReader.Field | transport-catalogue/json_reader.cpp:50 | `at` finds a value exactly when the key is present, and otherwise reports that key missing |
| JsonReader.ReadStatRequestSpec | transport-catalogue/json_reader.cpp:78-102 | a stat request reads exactly when it has an Int id and a string type among "Bus", "Stop" and "Map", plus a string name unless the type is "Map" |
| JsonReader.StatRequestRoundTrip | transport-catalogue/json_reader.cpp:78-102 | the dict written for a stat request is sorted and reads back as that request |
| JsonReader.ToUint8 | transport-catalogue/json_reader.cpp:133-136 | a component is the int modulo 256, and itself when it fits |
| JsonReader.ReadColorSpec | transport-catalogue/json_reader.cpp:126-140 | a colour reads exactly from a string, three ints, or three ints and a number; it is never "none"; anything else is the failed assert; an array of three gives the Rgb of its components |
| JsonReader.ColorRoundTrip | transport-catalogue/json_reader.cpp:126-140 | every colour but "none", written as a node, reads back as itself |
| JsonReader.ReadColorPalette | transport-catalogue/json_reader.cpp:142-149 | the palette loop reads each colour in order |
| JsonReader.ReadBaseRequestBus | transport-catalogue/json_reader.cpp:47-60 | the bus request is read field by field |
| JsonReader.BusRequestRoundTrip | transport-catalogue/json_reader.cpp:47-60 | the dict written for a bus request is sorted and reads back as that request: name, ring flag and stops in order |
| JsonReader.ToUint32 | transport-catalogue/json_reader.cpp:71 | a distance is the int modulo 2 to the 32nd, and itself when not negative |
| JsonReader.ReadBaseRequestStop | transport-catalogue/json_reader.cpp:62-76 | the stop request is read field by field |
| JsonReader.DistancesSpec | transport-catalogue/json_reader.cpp:69-73 | road distances read exactly when all are ints, one per entry, and come out in strictly ascending destination order |
| JsonReader.SplitConcat | transport-catalogue/json_reader.cpp:23-35 | routing two runs of base requests is routing each run |
| JsonReader.SplitCount | transport-catalogue/json_reader.cpp:23-35 | every base request goes to exactly one of the stops and the buses |
| JsonReader.SplitMembers | transport-catalogue/json_reader.cpp:23-35 | the stops are exactly the stop requests and the buses exactly the bus requests |
| JsonReader.ReadBaseRequest | transport-catalogue/json_reader.cpp:24-34 | one base request is routed by its type, and any other type is the failed assert |
| JsonReader.Read | transport-catalogue/json_reader.cpp:18-45 | the loops read the document's base requests, routed in order, and its stat requests in order |
| JsonReader.ToInt32 | transport-catalogue/json_reader.cpp:165-166 | a count is written as an int: the count modulo 2 to the 32nd, and itself when it fits |
| JsonReader.AscendingEmplaced | transport-catalogue/json_reader.cpp:163-166 | emplacing keys in ascending order around "request_id" gives them all in key order |
| JsonReader.ReplyEntries | transport-catalogue/json_reader.cpp:155-199 | each reply dict is sorted and holds exactly "request_id" plus "error_message", the four bus statistics, "buses" or "map" |
| JsonReader.Replies | transport-catalogue/json_reader.cpp:195-200 | one reply dict per result, in order |
| JsonReader.Write | transport-catalogue/json_reader.cpp:191-203 | writes the printed array of replies |
| InputReader.SpanRun | transport-catalogue/input_reader.cpp:63 | the characters skipped all match, and the one after does not |
| InputReader.SpanIs | transport-catalogue/input_reader.cpp:63 | a run of matching characters ended by a non-match or the end is what is skipped |
| InputReader.FindDelimiter | transport-catalogue/input_reader.cpp:63 | the loop finds the first delimiter, or the end |
| InputReader.Split | transport-catalogue/input_reader.cpp:79 | `getline` tokens hold no delimiter, and there are none exactly when the text is empty |
| InputReader.SplitJoin | transport-catalogue/input_reader.cpp:79 | joining tokens without the delimiter, the last one non-empty, and splitting again gives them back |
| InputReader.JoinSplit | transport-catalogue/input_reader.cpp:79 | splitting and joining again gives the text back, less a trailing delimiter |
| InputReader.SplitTokens | transport-catalogue/input_reader.cpp:78-86 | the `getline` loop yields the tokens of the text |
| InputReader.JoinAvoids | transport-catalogue/input_reader.cpp:69 | joined tokens contain a character only if a token does |
| InputReader.JoinHolds | transport-catalogue/input_reader.cpp:69-74 | two or more joined tokens contain the delimiter |
| InputReader.NameBeforeColon | transport-catalogue/input_reader.cpp:62-63 | the name is the text before the first colon, less its leading character |
| InputReader.ReadBus | transport-catalogue/input_reader.cpp:61-89 | the bus line is read as the bus line grammar says: name, ring iff the list contains `>`, stop tokens trimmed |
| InputReader.BusTokens | transport-catalogue/input_reader.cpp:76-86 | one token per stop |
| InputReader.StopNameOfToken | transport-catalogue/input_reader.cpp:80-85 | a token trims back to its stop name |
| InputReader.BusRoundTrip | transport-catalogue/input_reader.cpp:61-89 | a bus written as a line reads back as that bus, when its names avoid the delimiters |
| InputReader.BusTokensRead | transport-catalogue/input_reader.cpp:79-86 | the written tokens trim back to the stop names, in order |
| InputReader.Word | transport-catalogue/input_reader.cpp:99-101 | a word, when there is one, ends after its start and within the text |
| InputReader.WordIs | transport-catalogue/input_reader.cpp:99-101 | spaces and then a run of non-spaces are read as one word |
| InputReader.DistanceRoundTrip | transport-catalogue/input_reader.cpp:91-106 | a distance written as "Dm to name" reads back as that distance and name |
| InputReader.NumberFirst | transport-catalogue/input_reader.cpp:95 | the leading unsigned number is the run of digits after the spaces |
| InputReader.WordsAfter | transport-catalogue/input_reader.cpp:97-103 | the words `m` and `to` are skipped and the rest, less one character, is the name |
| InputReader.ReadStop | transport-catalogue/input_reader.cpp:30-59 | the stop line is read as the stop line grammar says: name, coordinates, and distances only after a `,` |
| InputReader.DistanceTexts | transport-catalogue/input_reader.cpp:54 | one piece per distance |
| InputReader.StopRoundTrip | transport-catalogue/input_reader.cpp:30-59 | a stop written as a line reads back as that stop, when its names avoid `:` and `,` |
| InputReader.DistanceTextRead | transport-catalogue/input_reader.cpp:91-106 | a written distance has no comma and reads back as itself |
| InputReader.DistancesRead | transport-catalogue/input_reader.cpp:49-56 | the written distances, split at commas, read back in order |
| InputReader.ReadQuery | transport-catalogue/input_reader.cpp:17-24 | one line is read as a stop when its kind is "Stop" and as a bus otherwise |
| InputReader.ReadQueries | transport-catalogue/input_reader.cpp:10-28 | the loop reads all lines, stops and buses each in order |
| InputReader.QueriesCount | transport-catalogue/input_reader.cpp:16-27 | there are as many stops as "Stop" lines and as many buses as other lines |
| InputReader.QueryKind | transport-catalogue/input_reader.cpp:19-24 | a line is read as a stop exactly when its kind is "Stop" |
| InputReader.KindsCount | transport-catalogue/input_reader.cpp:16-27 | stops and buses are counted by line kind |
| InputReader.QueriesConcat | transport-catalogue/input_reader.cpp:16-27 | reading two runs of lines one after the other is reading their concatenation |

## Left out

- Floating point. Doubles are exact `real`s. Their printed form (in `PrintNode`, the SVG coordinates and the Rgba opacity) is a parameter. The great-circle distance of `geo.cpp` and the map projection (`SphereProjector`) are parameters too. `std::stod`'s rounding is not modelled: a number with a fraction or an exponent becomes the exact real it denotes.
- JsonParse.NumberNode: a numeral outside the range of `double` (such as `1e400`, or `1e-400`, which underflows) makes `std::stod` throw, and `LoadNumber` reports that as a parsing error. The model has no double range, so it yields the exact real as a Double instead.
- JsonRoundTrip.PrintLoadRoundTrip: trees holding a Double are excluded because their text is the host's formatting. Object keys with `"`, a backslash, CR or LF are excluded because the printer writes keys unescaped, and then the text does not load back.
- Stream mechanics. The loader reads a `string` with a position. End of input is where the stream's `get` would fail. After a backslash followed by a character that is neither whitespace nor `t`, `n` or `r`, `MoveToToken` puts that character back twice. Whether the second putback succeeds depends on the stream, so the model reports an error there. A backslash followed by whitespace is put back once and skipped, as in the source.
- The builder's handle classes (`BuilderArray`, `BuilderDict`, `BuilderKey`). They only restrict at compile time which builder calls may follow. The single `Builder` class checks the same conditions when it runs.
- SVG element rendering (`Object::Render`, the `RenderObject` of circles, polylines and texts, `Document::Render`). The model keeps the shapes as values with their attributes; their text output is not modelled. svg.h is not part of this model.
- `ReadRenderSettings` and `ReadOffset`. The render settings are kept as the dict that was read; their fields are floating point. The map renderer takes its settings as a value.
- `main.cpp` and `stat_reader.cpp`: input/output wiring and the older text replies.
- Failed `assert`s (`ReadColor`, `ReadStatRequest`, `Read`, `AddBus`, `GetBusInfo`) are modelled as errors, as in a build with assertions on.
- TransportCatalogue.Catalogue.GetBusInfo: requires every stop on the bus's route to exist. The source dereferences a null stop pointer there.
- MapRenderer.Render: requires every stop of every bus to exist, and the palette to be non-empty when some bus has stops. Without the first, the source dereferences a null stop pointer, for example for a bus that names an unknown stop, which `GetBuses` passes on. Without the second, it indexes an empty palette.
- The order `std::sort` gives buses with equal names. The model's sort is stable; `std::sort` is not.
- Unordered containers (`unordered_map`, `unordered_set`) are maps and sets. Their hash functions are not modelled.
- Line reader stream behaviour across lines. Each line is a kind word and the rest of the line. A line without `:`, which the source would read up to a `:` on a later line, is an error. The coordinates and the text left after them come from a `CoordinatesReader` parameter. `ReadQueries` reads as many queries as there are lines given.
- InputReader.DistanceRoundTrip: the stream failure states of `ParseDistance` (a value out of range, a sign, no `to` word, the end of the text right after `to`) are all one error. The source would go on with a stale or zero value there.
- JsonReader.ToInt32: the stop counts written into a reply wrap modulo 2 to the 32nd, as a conversion of a `size_t` to `int` does on the usual platforms.
- Svg.LineCapRoundTrip and Svg.LineJoinRoundTrip: `invalid_argument` for an out-of-range enum value cannot occur for the model's enums.
