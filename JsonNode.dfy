/**
 * The JSON value model: a closed variant of seven alternatives, the ordered
 * dictionary it uses for objects, its checked accessors and its structural
 * equality, and the `Document` wrapper around one root.
 */
module JsonNode {
  import opened Wrappers
  import opened Text

  /** The C++ `int` held by an Int node. */
  newtype int32 = x: int | -0x8000_0000 <= x < 0x8000_0000

  /**
   * One JSON value. `Double` holds the number's exact value; the rounding a
   * C++ `double` applies is not modelled. `Dict` is a `std::map`: its
   * entries are kept strictly ascending by key (see `Sorted`), which is the
   * order the map iterates in.
   */
  datatype Node =
    | Null
    | Int(i: int32)
    | Double(d: real)
    | String(s: string)
    | Bool(b: bool)
    | Array(items: seq<Node>)
    | Dict(entries: seq<(string, Node)>)
  {
    predicate IsNull() { Null? }
    predicate IsInt() { Int? }
    /** True for both number alternatives. */
    predicate IsDouble() { Int? || Double? }
    predicate IsPureDouble() { Double? }
    predicate IsBool() { Bool? }
    predicate IsString() { String? }
    predicate IsArray() { Array? }
    predicate IsMap() { Dict? }

    function AsInt(): (r: Result<int32, TypeError>)
      ensures r.Ok? <==> IsInt()
      ensures r.Ok? ==> this == Int(r.value)
    {
      if Int? then Ok(i) else Err(TypeMismatch)
    }

    function AsBool(): (r: Result<bool, TypeError>)
      ensures r.Ok? <==> IsBool()
      ensures r.Ok? ==> this == Bool(r.value)
    {
      if Bool? then Ok(b) else Err(TypeMismatch)
    }

    /** An Int widens to its value; a Double is returned as stored. */
    function AsDouble(): (r: Result<real, TypeError>)
      ensures r.Ok? <==> IsDouble()
      ensures IsPureDouble() ==> r == Ok(d)
      ensures IsInt() ==> r == Ok(i as real)
    {
      if Double? then Ok(d)
      else if Int? then Ok(i as real)
      else Err(TypeMismatch)
    }

    function AsString(): (r: Result<string, TypeError>)
      ensures r.Ok? <==> IsString()
      ensures r.Ok? ==> this == String(r.value)
    {
      if String? then Ok(s) else Err(TypeMismatch)
    }

    function AsArray(): (r: Result<seq<Node>, TypeError>)
      ensures r.Ok? <==> IsArray()
      ensures r.Ok? ==> this == Array(r.value)
    {
      if Array? then Ok(items) else Err(TypeMismatch)
    }

    function AsMap(): (r: Result<seq<(string, Node)>, TypeError>)
      ensures r.Ok? <==> IsMap()
      ensures r.Ok? ==> this == Dict(r.value)
    {
      if Dict? then Ok(entries) else Err(TypeMismatch)
    }
  }

  /** The `logic_error("Type mismatch")` an accessor throws. */
  datatype TypeError = TypeMismatch

  /** A default-constructed Node holds the first alternative, null. */
  const DefaultNode: Node := Null

  datatype Document = Document(root: Node) {
    function GetRoot(): Node { root }
  }

  // ---------------------------------------------------------------------
  // Key order of `std::map<std::string, Node>`
  // ---------------------------------------------------------------------

  /** Keys strictly ascending: unique, and in the order `std::map` iterates. */
  predicate Sorted(entries: seq<(string, Node)>) {
    forall i, j :: 0 <= i < j < |entries| ==> Less(entries[i].0, entries[j].0)
  }

  function Keys(entries: seq<(string, Node)>): set<string> {
    set i | 0 <= i < |entries| :: entries[i].0
  }

  /** `dict.find(key)`: the value stored under `key`, if any. */
  function Lookup(entries: seq<(string, Node)>, key: string): (r: Option<Node>)
    ensures r.None? <==> key !in Keys(entries)
    ensures r.Some? ==> exists i :: 0 <= i < |entries| && entries[i] == (key, r.value)
  {
    if entries == [] then None
    else if entries[0].0 == key then Some(entries[0].1)
    else Lookup(entries[1..], key)
  }

  /**
   * `std::map::emplace(key, value)`: inserts before the first greater key,
   * and leaves the map unchanged when it meets the key first.
   */
  function Emplace(entries: seq<(string, Node)>, key: string, value: Node): seq<(string, Node)> {
    if entries == [] then [(key, value)]
    else if entries[0].0 == key then entries
    else if Less(key, entries[0].0) then [(key, value)] + entries
    else [entries[0]] + Emplace(entries[1..], key, value)
  }

  /** `Emplace` adds the key to the map's keys and no other. */
  lemma {:induction false} EmplaceKeys(entries: seq<(string, Node)>, key: string, value: Node)
    ensures Keys(Emplace(entries, key, value)) == Keys(entries) + {key}
  {
    if entries == [] {
      KeysCons((key, value), []);
      assert [(key, value)] + [] == [(key, value)];
    } else if entries[0].0 == key {
      KeysCons(entries[0], entries[1..]);
      assert [entries[0]] + entries[1..] == entries;
    } else if Less(key, entries[0].0) {
      KeysCons((key, value), entries);
    } else {
      EmplaceKeys(entries[1..], key, value);
      KeysCons(entries[0], Emplace(entries[1..], key, value));
      KeysCons(entries[0], entries[1..]);
      assert [entries[0]] + entries[1..] == entries;
    }
  }

  /**
   * On a map in key order, `Emplace` keeps the order, leaves the map as it
   * is when the key is present, and otherwise adds exactly one entry.
   */
  lemma {:induction false} EmplaceSorted(entries: seq<(string, Node)>, key: string, value: Node)
    requires Sorted(entries)
    ensures Sorted(Emplace(entries, key, value))
    ensures key in Keys(entries) ==> Emplace(entries, key, value) == entries
    ensures key !in Keys(entries) ==> |Emplace(entries, key, value)| == |entries| + 1
  {
    if entries == [] {
    } else if entries[0].0 == key {
    } else if Less(key, entries[0].0) {
      KeyBeforeFirst(entries, key);
      PrependSorted(key, value, entries);
    } else {
      var rest := Emplace(entries[1..], key, value);
      LessTotal(key, entries[0].0);
      KeyInTail(entries, key);
      EmplaceKeys(entries[1..], key, value);
      EmplaceSorted(entries[1..], key, value);
      FirstBelowTail(entries);
      ConsSorted(entries[0], rest);
      assert [entries[0]] + entries[1..] == entries;
    }
  }

  /** In a map in key order, the first key is below every later one. */
  lemma FirstBelowTail(entries: seq<(string, Node)>)
    requires Sorted(entries) && entries != []
    ensures Sorted(entries[1..])
    ensures forall k :: k in Keys(entries[1..]) ==> Less(entries[0].0, k)
  {
    forall k | k in Keys(entries[1..])
      ensures Less(entries[0].0, k)
    {
      var i :| 0 <= i < |entries[1..]| && entries[1..][i].0 == k;
      assert entries[i + 1].0 == k;
    }
  }

  /** Emplacing a key above every present key appends the pair: a map filled in ascending key order. */
  lemma {:induction false} EmplaceGreatest(entries: seq<(string, Node)>, key: string, value: Node)
    requires Sorted(entries + [(key, value)])
    ensures Sorted(entries)
    ensures Emplace(entries, key, value) == entries + [(key, value)]
  {
    var all := entries + [(key, value)];
    forall i, j | 0 <= i < j < |entries|
      ensures Less(entries[i].0, entries[j].0)
    {
      assert all[i] == entries[i] && all[j] == entries[j];
    }
    if entries != [] {
      assert all[0] == entries[0] && all[|entries|] == (key, value);
      LessIrreflexive(key);
      LessAsymmetric(entries[0].0, key);
      var tail := entries[1..] + [(key, value)];
      assert tail == all[1..];
      forall i, j | 0 <= i < j < |tail|
        ensures Less(tail[i].0, tail[j].0)
      {
        assert tail[i] == all[i + 1] && tail[j] == all[j + 1];
      }
      EmplaceGreatest(entries[1..], key, value);
      assert [entries[0]] + tail == all;
    }
  }

  /** After `Emplace`, the key maps to its old value if it had one, else to the new one; other keys are untouched. */
  lemma {:induction false} EmplaceLookup(entries: seq<(string, Node)>, key: string, value: Node, k: string)
    requires Sorted(entries)
    ensures Lookup(Emplace(entries, key, value), k) ==
            if k == key && key !in Keys(entries) then Some(value) else Lookup(entries, k)
  {
    if entries != [] && entries[0].0 != key {
      if Less(key, entries[0].0) {
        KeyBeforeFirst(entries, key);
      } else {
        KeyInTail(entries, key);
        EmplaceLookup(entries[1..], key, value, k);
      }
    }
  }

  lemma KeysCons(first: (string, Node), rest: seq<(string, Node)>)
    ensures Keys([first] + rest) == {first.0} + Keys(rest)
  {
    var r := [first] + rest;
    forall k | k in Keys(rest) ensures k in Keys(r) {
      var i :| 0 <= i < |rest| && rest[i].0 == k;
      assert r[i + 1].0 == k;
    }
    forall k | k in Keys(r) ensures k == first.0 || k in Keys(rest) {
      var i :| 0 <= i < |r| && r[i].0 == k;
      if i > 0 { assert rest[i - 1].0 == k; }
    }
    assert r[0].0 == first.0;
  }

  lemma PrependSorted(key: string, value: Node, entries: seq<(string, Node)>)
    requires Sorted(entries) && entries != [] && Less(key, entries[0].0)
    ensures Sorted([(key, value)] + entries)
  {
    var r := [(key, value)] + entries;
    forall i, j | 0 <= i < j < |r|
      ensures Less(r[i].0, r[j].0)
    {
      if i == 0 && j > 1 { LessTransitive(key, entries[0].0, entries[j - 1].0); }
    }
  }

  lemma ConsSorted(first: (string, Node), rest: seq<(string, Node)>)
    requires Sorted(rest)
    requires forall k :: k in Keys(rest) ==> Less(first.0, k)
    ensures Sorted([first] + rest)
  {
    var r := [first] + rest;
    forall i, j | 0 <= i < j < |r|
      ensures Less(r[i].0, r[j].0)
    {
      if i == 0 { assert r[j].0 in Keys(rest); }
    }
  }

  lemma KeyBeforeFirst(entries: seq<(string, Node)>, key: string)
    requires Sorted(entries) && entries != [] && Less(key, entries[0].0)
    ensures key !in Keys(entries)
  {
    if key in Keys(entries) {
      var i :| 0 <= i < |entries| && entries[i].0 == key;
      if i == 0 { LessIrreflexive(key); } else { LessAsymmetric(key, entries[0].0); }
    }
  }

  lemma KeyInTail(entries: seq<(string, Node)>, key: string)
    requires entries != [] && key != entries[0].0
    ensures key in Keys(entries) <==> key in Keys(entries[1..])
  {
    if key in Keys(entries) {
      var i :| 0 <= i < |entries| && entries[i].0 == key;
      assert entries[1..][i - 1].0 == key;
    }
  }

  /** The entries of a dictionary built by emplacing `pairs` in order: the first value for each key wins. */
  function EmplaceAll(entries: seq<(string, Node)>, pairs: seq<(string, Node)>): (r: seq<(string, Node)>)
    requires Sorted(entries)
    ensures Sorted(r)
    decreases |pairs|
  {
    if pairs == [] then entries
    else
      EmplaceSorted(entries, pairs[0].0, pairs[0].1);
      EmplaceAll(Emplace(entries, pairs[0].0, pairs[0].1), pairs[1..])
  }

  /** The value the first pair with this key carries. */
  function FirstFor(pairs: seq<(string, Node)>, key: string): Option<Node> {
    if pairs == [] then None
    else if pairs[0].0 == key then Some(pairs[0].1)
    else FirstFor(pairs[1..], key)
  }

  /** Emplacing pairs into an empty map keeps, for every key, the first value given for it. */
  lemma {:induction false} EmplaceAllKeepsFirst(entries: seq<(string, Node)>, pairs: seq<(string, Node)>, key: string)
    requires Sorted(entries)
    ensures Lookup(EmplaceAll(entries, pairs), key) ==
            if key in Keys(entries) then Lookup(entries, key) else FirstFor(pairs, key)
    decreases |pairs|
  {
    if pairs != [] {
      EmplaceLookup(entries, pairs[0].0, pairs[0].1, key);
      EmplaceSorted(entries, pairs[0].0, pairs[0].1);
      EmplaceAllKeepsFirst(Emplace(entries, pairs[0].0, pairs[0].1), pairs[1..], key);
    }
  }

  /** Two sorted dictionaries with the same lookups are the same entry list. */
  lemma {:induction false} SortedExtensional(a: seq<(string, Node)>, b: seq<(string, Node)>)
    requires Sorted(a) && Sorted(b)
    requires forall k :: Lookup(a, k) == Lookup(b, k)
    ensures a == b
  {
    NonEmptyHasFirstKey(a);
    NonEmptyHasFirstKey(b);
    if a != [] && b != [] {
      assert Lookup(a, a[0].0).Some? && Lookup(b, b[0].0).Some?;
      assert Lookup(b, a[0].0).Some? && Lookup(a, b[0].0).Some?;
      if a[0].0 != b[0].0 {
        FirstIsLeast(a, b[0].0);
        FirstIsLeast(b, a[0].0);
        LessAsymmetric(a[0].0, b[0].0);
      }
      assert a[0] == b[0];
      forall k
        ensures Lookup(a[1..], k) == Lookup(b[1..], k)
      {
        if k == a[0].0 {
          NotAfterFirst(a, k);
          NotAfterFirst(b, k);
        } else {
          assert Lookup(a, k) == Lookup(b, k);
        }
      }
      SortedExtensional(a[1..], b[1..]);
      assert a == [a[0]] + a[1..] && b == [b[0]] + b[1..];
    }
  }

  lemma NonEmptyHasFirstKey(entries: seq<(string, Node)>)
    ensures entries != [] ==> Lookup(entries, entries[0].0) == Some(entries[0].1)
  {
  }

  lemma FirstIsLeast(entries: seq<(string, Node)>, key: string)
    requires Sorted(entries) && entries != [] && key in Keys(entries) && key != entries[0].0
    ensures Less(entries[0].0, key)
  {
  }

  lemma NotAfterFirst(entries: seq<(string, Node)>, key: string)
    requires Sorted(entries) && entries != [] && key == entries[0].0
    ensures key !in Keys(entries[1..])
  {
    if key in Keys(entries[1..]) {
      var i :| 0 <= i < |entries[1..]| && entries[1..][i].0 == key;
      assert Less(entries[0].0, entries[i + 1].0);
      LessIrreflexive(key);
    }
  }

  /** Whatever order two distinct keys are emplaced in, the dictionary is the same. */
  lemma EmplaceOrderIrrelevant(entries: seq<(string, Node)>, k1: string, v1: Node, k2: string, v2: Node)
    requires Sorted(entries) && k1 != k2
    ensures Emplace(Emplace(entries, k1, v1), k2, v2) == Emplace(Emplace(entries, k2, v2), k1, v1)
  {
    var a := Emplace(Emplace(entries, k1, v1), k2, v2);
    var b := Emplace(Emplace(entries, k2, v2), k1, v1);
    var e1 := Emplace(entries, k1, v1);
    var e2 := Emplace(entries, k2, v2);
    EmplaceSorted(entries, k1, v1);
    EmplaceSorted(entries, k2, v2);
    EmplaceSorted(e1, k2, v2);
    EmplaceSorted(e2, k1, v1);
    forall k
      ensures Lookup(a, k) == Lookup(b, k)
    {
      EmplaceLookup(entries, k1, v1, k);
      EmplaceLookup(entries, k2, v2, k);
      EmplaceLookup(e1, k2, v2, k);
      EmplaceLookup(e2, k1, v1, k);
    }
    SortedExtensional(a, b);
  }

  /** Every dictionary in the tree, at any depth, keeps its keys strictly ascending. */
  predicate WellFormed(n: Node)
    decreases n
  {
    match n
    case Array(xs) => forall i :: 0 <= i < |xs| ==> WellFormed(xs[i])
    case Dict(es) => Sorted(es) && forall i :: 0 <= i < |es| ==> WellFormed(es[i].1)
    case _ => true
  }

  /** Entries whose values are all well-formed trees. */
  predicate WellFormedEntries(es: seq<(string, Node)>) {
    Sorted(es) && forall i :: 0 <= i < |es| ==> WellFormed(es[i].1)
  }

  /** `Emplace` only ever adds the given pair, so well-formed values stay well-formed. */
  lemma {:induction false} EmplaceWellFormed(entries: seq<(string, Node)>, key: string, value: Node)
    requires WellFormedEntries(entries) && WellFormed(value)
    ensures WellFormedEntries(Emplace(entries, key, value))
  {
    EmplaceSorted(entries, key, value);
    EmplaceValuesWellFormed(entries, key, value);
  }

  lemma {:induction false} EmplaceValuesWellFormed(entries: seq<(string, Node)>, key: string, value: Node)
    requires forall i :: 0 <= i < |entries| ==> WellFormed(entries[i].1)
    requires WellFormed(value)
    ensures forall i :: 0 <= i < |Emplace(entries, key, value)| ==> WellFormed(Emplace(entries, key, value)[i].1)
  {
    var r := Emplace(entries, key, value);
    if entries == [] || entries[0].0 == key {
    } else if Less(key, entries[0].0) {
      assert r == [(key, value)] + entries;
      forall i | 0 <= i < |r|
        ensures WellFormed(r[i].1)
      {
        if i > 0 {
          assert r[i] == entries[i - 1];
        }
      }
    } else {
      var rest := Emplace(entries[1..], key, value);
      EmplaceValuesWellFormed(entries[1..], key, value);
      assert r == [entries[0]] + rest;
      forall i | 0 <= i < |r|
        ensures WellFormed(r[i].1)
      {
        if i > 0 {
          assert r[i] == rest[i - 1];
        } else {
          assert r[0] == entries[0];
        }
      }
    }
  }

  // ---------------------------------------------------------------------
  // Structural equality
  // ---------------------------------------------------------------------

  /**
   * `Node::operator==`, which compares the variants: the same alternative
   * with equal contents, element by element for arrays and entry by entry,
   * in key order, for dictionaries.
   */
  function Equal(a: Node, b: Node): bool
    decreases a
  {
    match a
    case Null => b.Null?
    case Int(x) => b.Int? && b.i == x
    case Double(x) => b.Double? && b.d == x
    case String(x) => b.String? && b.s == x
    case Bool(x) => b.Bool? && b.b == x
    case Array(xs) => b.Array? && EqualItems(a, xs, b.items)
    case Dict(xs) => b.Dict? && EqualEntries(a, xs, b.entries)
  }

  function EqualItems(ghost parent: Node, xs: seq<Node>, ys: seq<Node>): bool
    requires forall i :: 0 <= i < |xs| ==> xs[i] < parent
    decreases parent, |xs|
  {
    |xs| == |ys| && (xs == [] || (Equal(xs[0], ys[0]) && EqualItems(parent, xs[1..], ys[1..])))
  }

  function EqualEntries(ghost parent: Node, xs: seq<(string, Node)>, ys: seq<(string, Node)>): bool
    requires forall i :: 0 <= i < |xs| ==> xs[i].1 < parent
    decreases parent, |xs|
  {
    |xs| == |ys|
    && (xs == [] || (xs[0].0 == ys[0].0 && Equal(xs[0].1, ys[0].1) && EqualEntries(parent, xs[1..], ys[1..])))
  }

  /** Node equality is structural: it holds exactly when the two trees are identical. */
  lemma {:induction false} EqualIsStructural(a: Node, b: Node)
    ensures Equal(a, b) <==> a == b
    decreases a
  {
    match a
    case Array(xs) =>
      if b.Array? { EqualItemsIsStructural(a, xs, b.items); }
    case Dict(xs) =>
      if b.Dict? { EqualEntriesIsStructural(a, xs, b.entries); }
    case _ =>
  }

  lemma {:induction false} EqualItemsIsStructural(parent: Node, xs: seq<Node>, ys: seq<Node>)
    requires forall i :: 0 <= i < |xs| ==> xs[i] < parent
    ensures EqualItems(parent, xs, ys) <==> xs == ys
    decreases parent, |xs|
  {
    if xs != [] && |xs| == |ys| {
      EqualIsStructural(xs[0], ys[0]);
      EqualItemsIsStructural(parent, xs[1..], ys[1..]);
      assert xs == [xs[0]] + xs[1..] && ys == [ys[0]] + ys[1..];
    }
  }

  lemma {:induction false} EqualEntriesIsStructural(parent: Node, xs: seq<(string, Node)>, ys: seq<(string, Node)>)
    requires forall i :: 0 <= i < |xs| ==> xs[i].1 < parent
    ensures EqualEntries(parent, xs, ys) <==> xs == ys
    decreases parent, |xs|
  {
    if xs != [] && |xs| == |ys| {
      EqualIsStructural(xs[0].1, ys[0].1);
      EqualEntriesIsStructural(parent, xs[1..], ys[1..]);
      assert xs == [xs[0]] + xs[1..] && ys == [ys[0]] + ys[1..];
    }
  }

  /** `Document::operator==` compares the roots. */
  function DocumentEqual(a: Document, b: Document): (r: bool)
    ensures r <==> a == b
  {
    EqualIsStructural(a.root, b.root);
    Equal(a.root, b.root)
  }
}
