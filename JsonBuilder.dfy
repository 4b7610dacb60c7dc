/**
 * `json::Builder`: a stack of open contexts over a flat buffer of finished
 * values. Opening an array or an object pushes a context that remembers
 * where its entries start in the buffer; closing it truncates the buffer
 * there and puts the finished container in their place.
 */
module JsonBuilder {
  import opened Wrappers
  import opened JsonNode

  datatype ContextType = ArrayContext | DictContext | KeyContext

  /** An open context and the buffer position its entries start at (for a key: the position of the key itself). */
  datatype Context = Context(kind: ContextType, index: nat)

  /** The `logic_error`s the builder throws. */
  datatype BuildError = KeyError | ValueError | StartDictError | EndDictError | StartArrayError | EndArrayError | BuildFailed
  {
    function Message(): string {
      match this
      case KeyError => "Key error"
      case ValueError => "Value error"
      case StartDictError => "StartDict error"
      case EndDictError => "EndDict error"
      case StartArrayError => "StartArray error"
      case EndArrayError => "EndArray error"
      case BuildFailed => "Build error"
    }
  }

  function Top(context: seq<Context>): Context
    requires |context| > 0
  {
    context[|context| - 1]
  }

  // ---------------------------------------------------------------------
  // The builder's invariant
  // ---------------------------------------------------------------------

  /** Keys and values alternate: an even number of entries, a string at every even offset. */
  predicate Alternates(xs: seq<Node>) {
    |xs| % 2 == 0 && forall k :: 0 <= k < |xs| && k % 2 == 0 ==> xs[k].String?
  }

  /**
   * The states the builder's operations reach from an empty builder, read
   * from the top context down. With no open context the buffer holds at most
   * the one finished root. An open key is the last buffered entry, a string,
   * and sits on an open object. An open array or object starts where the
   * state below it ends and where that state accepts a value; above an
   * object's start, keys and values alternate.
   */
  predicate Stacked(context: seq<Context>, values: seq<Node>)
    decreases |context|
  {
    if |context| == 0 then |values| <= 1
    else
      var top := Top(context);
      var below := context[..|context| - 1];
      top.index <= |values|
      && match top.kind
         case KeyContext =>
           |values| == top.index + 1 && values[top.index].String?
           && |below| > 0 && Top(below).kind == DictContext && Stacked(below, values[..top.index])
         case ArrayContext =>
           Stacked(below, values[..top.index]) && CanValue(below, values[..top.index])
         case DictContext =>
           Alternates(values[top.index..])
           && Stacked(below, values[..top.index]) && CanValue(below, values[..top.index])
  }

  /** Every buffered value is well-formed: a `Node` only ever holds a real `std::map`. */
  predicate AllWellFormed(values: seq<Node>) {
    forall k :: 0 <= k < |values| ==> WellFormed(values[k])
  }

  // ---------------------------------------------------------------------
  // The transitions, on the two stacks
  // ---------------------------------------------------------------------

  /** `CanValue`: a value may start the document, or go into an open array or under a key. */
  predicate CanValue(context: seq<Context>, values: seq<Node>) {
    (|context| == 0 && |values| == 0) || (|context| > 0 && Top(context).kind != DictContext)
  }

  /** `ExtractKeyIfNeeded`: a key whose value is complete is popped. */
  function ExtractKey(context: seq<Context>): (r: seq<Context>)
    ensures r <= context && |context| - |r| <= 1
    ensures |r| < |context| <==> |context| > 0 && Top(context).kind == KeyContext
  {
    if |context| > 0 && Top(context).kind == KeyContext then context[..|context| - 1] else context
  }

  /** The key/value pairs of an object's buffered entries, in order. */
  function Pairs(xs: seq<Node>): (r: seq<(string, Node)>)
    requires Alternates(xs)
    ensures |r| == |xs| / 2
    ensures forall k :: 0 <= k < |r| ==> r[k] == (xs[2 * k].s, xs[2 * k + 1])
  {
    if xs == [] then []
    else
      assert Alternates(xs[2..]) by {
        forall k | 0 <= k < |xs[2..]| && k % 2 == 0
          ensures xs[2..][k].String?
        {
          assert xs[2..][k] == xs[k + 2];
        }
      }
      [(xs[0].s, xs[1])] + Pairs(xs[2..])
  }

  /** The object `EndDict` builds from its entries: each pair emplaced in order. */
  function DictOf(xs: seq<Node>): Node
    requires Alternates(xs)
  {
    Dict(EmplaceAll([], Pairs(xs)))
  }

  /** `Build`: the root, once every context is closed. */
  function BuildOf(context: seq<Context>, values: seq<Node>): (r: Result<Node, BuildError>)
    ensures r.Ok? <==> |context| == 0 && |values| > 0
  {
    if |context| > 0 || |values| == 0 then Err(BuildFailed) else Ok(values[|values| - 1])
  }

  // ---------------------------------------------------------------------
  // Each transition keeps the invariant
  // ---------------------------------------------------------------------

  lemma {:induction false} AlternatesPair(xs: seq<Node>, key: Node, value: Node)
    requires Alternates(xs) && key.String?
    ensures Alternates(xs + [key, value])
  {
    var ys := xs + [key, value];
    forall k | 0 <= k < |ys| && k % 2 == 0
      ensures ys[k].String?
    {
      if k < |xs| {
        assert ys[k] == xs[k];
      }
    }
  }

  /** `Key` on an open object pushes the key's context over the key string. */
  lemma {:induction false} KeyKeepsStacked(context: seq<Context>, values: seq<Node>, key: string)
    requires Stacked(context, values) && |context| > 0 && Top(context).kind == DictContext
    ensures Stacked(context + [Context(KeyContext, |values|)], values + [String(key)])
  {
    var c := context + [Context(KeyContext, |values|)];
    var v := values + [String(key)];
    assert c[..|c| - 1] == context;
    assert v[..|values|] == values;
  }

  /** `StartArray` and `StartDict`, where a value may go, push a context starting at the end of the buffer. */
  lemma {:induction false} StartKeepsStacked(context: seq<Context>, values: seq<Node>, kind: ContextType)
    requires Stacked(context, values) && CanValue(context, values) && kind != KeyContext
    ensures Stacked(context + [Context(kind, |values|)], values)
  {
    var c := context + [Context(kind, |values|)];
    assert c[..|c| - 1] == context;
    assert values[..|values|] == values;
    assert values[|values|..] == [];
  }

  /** `Value`, where a value may go, appends it and closes a pending key. */
  lemma {:induction false} ValueKeepsStacked(context: seq<Context>, values: seq<Node>, value: Node)
    requires Stacked(context, values) && CanValue(context, values)
    ensures Stacked(ExtractKey(context), values + [value])
  {
    var v := values + [value];
    var n := |context|;
    if n == 0 {
    } else if Top(context).kind == ArrayContext {
      var i := Top(context).index;
      assert v[..i] == values[..i];
    } else {
      var k := Top(context).index;
      var below := context[..n - 1];
      var d := Top(below).index;
      assert Stacked(below, values[..k]);
      assert d <= k;
      assert values[..k][..d] == values[..d] == v[..d];
      assert Alternates(values[..k][d..]);
      AlternatesPair(values[..k][d..], values[k], value);
      assert v[d..] == values[..k][d..] + [values[k], value];
      assert ExtractKey(context) == below;
    }
  }

  /**
   * `ReplaceValue`: closing the open array or object truncates the buffer at
   * its start, appends the finished container, pops its context and closes a
   * pending key; that is a `Value` of the container in the state below.
   */
  lemma {:induction false} ReplaceKeepsStacked(context: seq<Context>, values: seq<Node>, closed: Node)
    requires Stacked(context, values) && |context| > 0 && Top(context).kind != KeyContext
    ensures Stacked(ExtractKey(context[..|context| - 1]), values[..Top(context).index] + [closed])
  {
    ValueKeepsStacked(context[..|context| - 1], values[..Top(context).index], closed);
  }

  // ---------------------------------------------------------------------
  // What closing a container and building produce
  // ---------------------------------------------------------------------

  /** Two more buffered entries add one pair at the end. */
  lemma {:induction false} PairsAppend(xs: seq<Node>, key: Node, value: Node)
    requires Alternates(xs) && key.String?
    ensures Alternates(xs + [key, value]) && Pairs(xs + [key, value]) == Pairs(xs) + [(key.s, value)]
  {
    AlternatesPair(xs, key, value);
  }

  /** Emplacing one more pair at the end of the input. */
  lemma {:induction false} EmplaceAllAppend(entries: seq<(string, Node)>, pairs: seq<(string, Node)>, key: string, value: Node)
    requires Sorted(entries)
    ensures EmplaceAll(entries, pairs + [(key, value)]) == Emplace(EmplaceAll(entries, pairs), key, value)
    decreases |pairs|
  {
    if pairs == [] {
      assert pairs + [(key, value)] == [(key, value)];
    } else {
      assert (pairs + [(key, value)])[1..] == pairs[1..] + [(key, value)];
      EmplaceSorted(entries, pairs[0].0, pairs[0].1);
      EmplaceAllAppend(Emplace(entries, pairs[0].0, pairs[0].1), pairs[1..], key, value);
    }
  }

  /** Emplacing well-formed values into a well-formed map keeps it well-formed. */
  lemma {:induction false} EmplaceAllWellFormed(entries: seq<(string, Node)>, pairs: seq<(string, Node)>)
    requires WellFormedEntries(entries)
    requires forall k :: 0 <= k < |pairs| ==> WellFormed(pairs[k].1)
    ensures WellFormedEntries(EmplaceAll(entries, pairs))
    decreases |pairs|
  {
    if pairs != [] {
      EmplaceWellFormed(entries, pairs[0].0, pairs[0].1);
      EmplaceAllWellFormed(Emplace(entries, pairs[0].0, pairs[0].1), pairs[1..]);
    }
  }

  /**
   * The object `EndDict` builds holds each buffered key once, with the value
   * that followed its first occurrence: `std::map::emplace` does not
   * overwrite.
   */
  lemma {:induction false} DictOfKeepsFirst(xs: seq<Node>, key: string)
    requires Alternates(xs)
    ensures DictOf(xs).entries == EmplaceAll([], Pairs(xs)) && Sorted(DictOf(xs).entries)
    ensures Lookup(DictOf(xs).entries, key) == FirstFor(Pairs(xs), key)
  {
    EmplaceAllKeepsFirst([], Pairs(xs), key);
  }

  /** One pass of `EndDict`'s loop: the next key and value are emplaced. */
  lemma {:induction false} DictStep(xs: seq<Node>, index: nat, dict: seq<(string, Node)>)
    requires index + 2 <= |xs| && xs[index].String?
    requires Alternates(xs[..index]) && Sorted(dict) && dict == EmplaceAll([], Pairs(xs[..index]))
    ensures Alternates(xs[..index + 2]) && Sorted(Emplace(dict, xs[index].s, xs[index + 1]))
    ensures Emplace(dict, xs[index].s, xs[index + 1]) == EmplaceAll([], Pairs(xs[..index + 2]))
  {
    PairsAppend(xs[..index], xs[index], xs[index + 1]);
    assert xs[..index + 2] == xs[..index] + [xs[index], xs[index + 1]];
    EmplaceAllAppend([], Pairs(xs[..index]), xs[index].s, xs[index + 1]);
    EmplaceSorted(dict, xs[index].s, xs[index + 1]);
  }

  /** Closing an object of well-formed entries gives a well-formed object. */
  lemma {:induction false} DictOfWellFormed(xs: seq<Node>)
    requires Alternates(xs) && AllWellFormed(xs)
    ensures WellFormed(DictOf(xs))
  {
    var pairs := Pairs(xs);
    forall k | 0 <= k < |pairs|
      ensures WellFormed(pairs[k].1)
    {
      assert pairs[k].1 == xs[2 * k + 1];
    }
    EmplaceAllWellFormed([], pairs);
  }

  /** Closing an array keeps its well-formed entries. */
  lemma {:induction false} ArrayOfWellFormed(values: seq<Node>, start: nat)
    requires AllWellFormed(values) && start <= |values|
    ensures WellFormed(Array(values[start..]))
  {
    var xs := values[start..];
    forall k | 0 <= k < |xs|
      ensures WellFormed(xs[k])
    {
      assert xs[k] == values[start + k];
    }
  }

  /** Truncating the buffer and appending a well-formed value keeps every entry well-formed. */
  lemma {:induction false} ReplaceKeepsWellFormed(values: seq<Node>, i: nat, value: Node)
    requires AllWellFormed(values) && i <= |values| && WellFormed(value)
    ensures AllWellFormed(values[..i] + [value])
  {
    var v := values[..i] + [value];
    forall k | 0 <= k < |v|
      ensures WellFormed(v[k])
    {
      if k < i {
        assert v[k] == values[k];
      }
    }
  }

  /**
   * Once every context is closed the buffer holds exactly the one root,
   * `Build` returns it, and no further value may be added: a document has
   * one top-level value.
   */
  lemma {:induction false} BuildsTheRoot(context: seq<Context>, values: seq<Node>)
    requires Stacked(context, values) && BuildOf(context, values).Ok?
    ensures values == [BuildOf(context, values).value]
    ensures !CanValue(context, values)
  {
  }

  /** `EndDict`'s loop: a key at `index`, its value after it, emplaced pair by pair. */
  method EmplacePairs(entries: seq<Node>) returns (dict: seq<(string, Node)>)
    requires Alternates(entries)
    ensures dict == EmplaceAll([], Pairs(entries))
  {
    dict := [];
    var index := 0;
    while index < |entries|
      invariant index <= |entries| && index % 2 == 0
      invariant Alternates(entries[..index])
      invariant Sorted(dict) && dict == EmplaceAll([], Pairs(entries[..index]))
    {
      assert entries[index].String? && index + 1 < |entries|;
      var key := entries[index].AsString().value;
      index := index + 1;
      var value := entries[index];
      DictStep(entries, index - 1, dict);
      dict := Emplace(dict, key, value);
      index := index + 1;
    }
    assert entries[..index] == entries;
  }

  // ---------------------------------------------------------------------
  // The builder
  // ---------------------------------------------------------------------

  class Builder {
    var context: seq<Context>
    var values: seq<Node>

    ghost predicate Valid()
      reads this
    {
      Stacked(context, values) && AllWellFormed(values)
    }

    constructor()
      ensures Valid() && context == [] && values == []
    {
      context := [];
      values := [];
    }

    /** `ExtractKeyIfNeeded`. */
    method ExtractKeyIfNeeded()
      modifies this
      ensures context == ExtractKey(old(context)) && values == old(values)
    {
      if |context| > 0 && context[|context| - 1].kind == KeyContext {
        context := context[..|context| - 1];
      }
    }

    /** `ReplaceValue`: truncate at the open container's start, append the finished one, pop, close a pending key. */
    method ReplaceValue(value: Node)
      requires Valid() && |context| > 0 && Top(context).kind != KeyContext && WellFormed(value)
      modifies this
      ensures Valid()
      ensures values == old(values[..Top(context).index]) + [value]
      ensures context == ExtractKey(old(context[..|context| - 1]))
    {
      ReplaceKeepsStacked(context, values, value);
      ReplaceKeepsWellFormed(values, Top(context).index, value);
      values := values[..context[|context| - 1].index];
      values := values + [value];
      context := context[..|context| - 1];
      ExtractKeyIfNeeded();
    }

    /** `Key`: only on an open object; buffers the key and opens its context. */
    method Key(key: string) returns (r: Result<(), BuildError>)
      requires Valid()
      modifies this
      ensures Valid()
      ensures r.Ok? <==> |old(context)| > 0 && Top(old(context)).kind == DictContext
      ensures r.Ok? ==> values == old(values) + [String(key)]
                        && context == old(context) + [Context(KeyContext, |old(values)|)]
      ensures r.Err? ==> r.error == KeyError && context == old(context) && values == old(values)
    {
      if |context| == 0 || context[|context| - 1].kind != DictContext {
        return Err(KeyError);
      }
      KeyKeepsStacked(context, values, key);
      values := values + [String(key)];
      context := context + [Context(KeyContext, |values| - 1)];
      r := Ok(());
    }

    /** `Value`: only where `CanValue` holds; buffers the value and closes a pending key. */
    method Value(value: Node) returns (r: Result<(), BuildError>)
      requires Valid() && WellFormed(value)
      modifies this
      ensures Valid()
      ensures r.Ok? <==> CanValue(old(context), old(values))
      ensures r.Ok? ==> values == old(values) + [value] && context == ExtractKey(old(context))
      ensures r.Err? ==> r.error == ValueError && context == old(context) && values == old(values)
    {
      if !CanValueNow() {
        return Err(ValueError);
      }
      ValueKeepsStacked(context, values, value);
      values := values + [value];
      ExtractKeyIfNeeded();
      r := Ok(());
    }

    /** `StartDict`: only where `CanValue` holds; opens an object at the end of the buffer. */
    method StartDict() returns (r: Result<(), BuildError>)
      requires Valid()
      modifies this
      ensures Valid()
      ensures r.Ok? <==> CanValue(old(context), old(values))
      ensures r.Ok? ==> values == old(values) && context == old(context) + [Context(DictContext, |old(values)|)]
      ensures r.Err? ==> r.error == StartDictError && context == old(context) && values == old(values)
    {
      if !CanValueNow() {
        return Err(StartDictError);
      }
      StartKeepsStacked(context, values, DictContext);
      context := context + [Context(DictContext, |values|)];
      r := Ok(());
    }

    /** `StartArray`: only where `CanValue` holds; opens an array at the end of the buffer. */
    method StartArray() returns (r: Result<(), BuildError>)
      requires Valid()
      modifies this
      ensures Valid()
      ensures r.Ok? <==> CanValue(old(context), old(values))
      ensures r.Ok? ==> values == old(values) && context == old(context) + [Context(ArrayContext, |old(values)|)]
      ensures r.Err? ==> r.error == StartArrayError && context == old(context) && values == old(values)
    {
      if !CanValueNow() {
        return Err(StartArrayError);
      }
      StartKeepsStacked(context, values, ArrayContext);
      context := context + [Context(ArrayContext, |values|)];
      r := Ok(());
    }

    /** `EndDict`: only on an open object; its key/value entries become one object in their place. */
    method EndDict() returns (r: Result<(), BuildError>)
      requires Valid()
      modifies this
      ensures Valid()
      ensures r.Ok? <==> |old(context)| > 0 && Top(old(context)).kind == DictContext
      ensures r.Ok? ==> Alternates(old(values)[Top(old(context)).index..])
                        && values == old(values)[..Top(old(context)).index] + [DictOf(old(values)[Top(old(context)).index..])]
                        && context == ExtractKey(old(context)[..|old(context)| - 1])
      ensures r.Err? ==> r.error == EndDictError && context == old(context) && values == old(values)
    {
      if |context| == 0 || context[|context| - 1].kind != DictContext {
        return Err(EndDictError);
      }
      var start := context[|context| - 1].index;
      var dict := EmplacePairs(values[start..]);
      DictOfWellFormed(values[start..]);
      ReplaceValue(Dict(dict));
      r := Ok(());
    }

    /** `EndArray`: only on an open array; its entries become one array in their place. */
    method EndArray() returns (r: Result<(), BuildError>)
      requires Valid()
      modifies this
      ensures Valid()
      ensures r.Ok? <==> |old(context)| > 0 && Top(old(context)).kind == ArrayContext
      ensures r.Ok? ==> values == old(values)[..Top(old(context)).index] + [Array(old(values)[Top(old(context)).index..])]
                        && context == ExtractKey(old(context)[..|old(context)| - 1])
      ensures r.Err? ==> r.error == EndArrayError && context == old(context) && values == old(values)
    {
      if |context| == 0 || context[|context| - 1].kind != ArrayContext {
        return Err(EndArrayError);
      }
      var arr: seq<Node> := [];
      var start := context[|context| - 1].index;
      var index := start;
      while index < |values|
        invariant start <= index <= |values|
        invariant arr == values[start..index]
        invariant unchanged(this)
      {
        arr := arr + [values[index]];
        index := index + 1;
      }
      assert arr == values[start..];
      ArrayOfWellFormed(values, start);
      ReplaceValue(Array(arr));
      r := Ok(());
    }

    /** `CanValue`, on the current state. */
    function CanValueNow(): (r: bool)
      reads this
      ensures r == CanValue(context, values)
    {
      (|context| == 0 && |values| == 0) || (|context| > 0 && context[|context| - 1].kind != DictContext)
    }

    /** `Build` is `const`: it reads the state and changes nothing. */
    method Build() returns (r: Result<Node, BuildError>)
      requires Valid()
      ensures r == BuildOf(context, values)
      ensures r.Ok? ==> values == [r.value] && WellFormed(r.value)
    {
      if |context| > 0 || |values| == 0 {
        return Err(BuildFailed);
      }
      BuildsTheRoot(context, values);
      r := Ok(values[|values| - 1]);
    }
  }

  /** The object closed over the entries `"a", 1, "a", 2`. */
  lemma {:induction false} RepeatedKeyDict()
    ensures Alternates([String("a"), Int(1), String("a"), Int(2)])
    ensures DictOf([String("a"), Int(1), String("a"), Int(2)]) == Dict([("a", Int(1))])
  {
    var xs := [String("a"), Int(1), String("a"), Int(2)];
    assert Alternates(xs);
    assert xs[2..][2..] == [];
    assert Pairs(xs) == [("a", Int(1)), ("a", Int(2))];
    assert Emplace([], "a", Int(1)) == [("a", Int(1))];
    assert Emplace([("a", Int(1))], "a", Int(2)) == [("a", Int(1))];
  }

  /**
   * `Builder{}.StartDict().Key("a").Value(1).Key("a").Value(2).EndDict().Build()`:
   * the second value for the repeated key is dropped.
   */
  method RepeatedKeyKeepsFirst() returns (r: Result<Node, BuildError>)
    ensures r == Ok(Dict([("a", Int(1))]))
  {
    var b := new Builder();
    var ok := b.StartDict();
    assert b.context == [Context(DictContext, 0)] && b.values == [];
    ok := b.Key("a");
    assert b.context == [Context(DictContext, 0), Context(KeyContext, 0)] && b.values == [String("a")];
    ok := b.Value(Int(1));
    assert b.context == [Context(DictContext, 0)] && b.values == [String("a"), Int(1)];
    ok := b.Key("a");
    assert b.context == [Context(DictContext, 0), Context(KeyContext, 2)];
    ok := b.Value(Int(2));
    assert b.context == [Context(DictContext, 0)] && b.values == [String("a"), Int(1), String("a"), Int(2)];
    RepeatedKeyDict();
    ok := b.EndDict();
    assert b.values[0..] == b.values;
    assert b.context == [] && b.values == [Dict([("a", Int(1))])];
    r := b.Build();
  }
}
