/**
 * A `std::set` of pointers whose comparator orders the pointees by name: the
 * set of buses through a stop in the catalogue, and the set of stops the
 * renderer draws. An element is an index into a table, and `names[id]` is
 * that element's name. The set is the list of its elements in ascending name
 * order; two elements with the same name count as the same key, so the set
 * keeps whichever was inserted first.
 */
module NameSet {
  import opened Text

  /** Every element indexes the table. */
  predicate Bounded(ids: seq<nat>, names: seq<string>) {
    forall i :: 0 <= i < |ids| ==> ids[i] < |names|
  }

  /** Names strictly ascending: the iteration order of the set, with no two elements of one name. */
  predicate Ordered(ids: seq<nat>, names: seq<string>) {
    Bounded(ids, names) &&
    forall i, j :: 0 <= i < j < |ids| ==> Less(names[ids[i]], names[ids[j]])
  }

  /** The names of the elements, in iteration order. */
  function Names(ids: seq<nat>, names: seq<string>): (r: seq<string>)
    requires Bounded(ids, names)
    ensures |r| == |ids| && forall i :: 0 <= i < |ids| ==> r[i] == names[ids[i]]
  {
    seq(|ids|, i requires 0 <= i < |ids| => names[ids[i]])
  }

  /** The set of names the elements carry. */
  function NameSetOf(ids: seq<nat>, names: seq<string>): set<string>
    requires Bounded(ids, names)
  {
    set i | 0 <= i < |ids| :: names[ids[i]]
  }

  /** `set.insert(id)`: placed before the first greater name; no change when an element of that name is present. */
  function Insert(ids: seq<nat>, names: seq<string>, id: nat): seq<nat>
    requires Bounded(ids, names) && id < |names|
  {
    if ids == [] then [id]
    else if names[ids[0]] == names[id] then ids
    else if Less(names[id], names[ids[0]]) then [id] + ids
    else [ids[0]] + Insert(ids[1..], names, id)
  }

  /** Inserting adds exactly the new name to the name set; the elements stay those present plus `id`. */
  lemma {:induction false} InsertNames(ids: seq<nat>, names: seq<string>, id: nat)
    requires Bounded(ids, names) && id < |names|
    ensures Bounded(Insert(ids, names, id), names)
    ensures NameSetOf(Insert(ids, names, id), names) == NameSetOf(ids, names) + {names[id]}
    ensures forall x :: x in Insert(ids, names, id) ==> x in ids || x == id
  {
    if ids == [] {
      assert NameSetOf([id], names) == {names[id]} by {
        assert names[[id][0]] == names[id];
      }
    } else if names[ids[0]] == names[id] {
      assert names[id] in NameSetOf(ids, names);
    } else if Less(names[id], names[ids[0]]) {
      ConsNames(id, ids, names);
    } else {
      var rest := Insert(ids[1..], names, id);
      InsertNames(ids[1..], names, id);
      ConsNames(ids[0], rest, names);
      ConsNames(ids[0], ids[1..], names);
      assert [ids[0]] + ids[1..] == ids;
    }
  }

  /** Inserting keeps the set in ascending name order. */
  lemma {:induction false} InsertOrdered(ids: seq<nat>, names: seq<string>, id: nat)
    requires Ordered(ids, names) && id < |names|
    ensures Ordered(Insert(ids, names, id), names)
    ensures NameSetOf(Insert(ids, names, id), names) == NameSetOf(ids, names) + {names[id]}
    ensures forall x :: x in Insert(ids, names, id) ==> x in ids || x == id
  {
    InsertNames(ids, names, id);
    var key := names[id];
    if ids == [] {
    } else if names[ids[0]] == key {
    } else if Less(key, names[ids[0]]) {
      ConsOrdered(id, ids, names) by {
        FirstBelowRest(ids, names);
        forall n | n in NameSetOf(ids, names)
          ensures Less(key, n)
        {
          if n != names[ids[0]] {
            LessTransitive(key, names[ids[0]], n);
          }
        }
      }
    } else {
      var tail := ids[1..];
      FirstBelowRest(ids, names);
      InsertOrdered(tail, names, id);
      LessTotal(key, names[ids[0]]);
      ConsOrdered(ids[0], Insert(tail, names, id), names);
    }
  }

  /** In an ordered set the first name is below every later one. */
  lemma FirstBelowRest(ids: seq<nat>, names: seq<string>)
    requires Ordered(ids, names) && ids != []
    ensures Ordered(ids[1..], names)
    ensures NameSetOf(ids, names) == {names[ids[0]]} + NameSetOf(ids[1..], names)
    ensures forall n :: n in NameSetOf(ids[1..], names) ==> Less(names[ids[0]], n)
  {
    ConsNames(ids[0], ids[1..], names);
    assert [ids[0]] + ids[1..] == ids;
    forall n | n in NameSetOf(ids[1..], names)
      ensures Less(names[ids[0]], n)
    {
      var i :| 0 <= i < |ids[1..]| && names[ids[1..][i]] == n;
      assert ids[1..][i] == ids[i + 1];
    }
  }

  /** An element whose name is below all names of an ordered set goes in front of it. */
  lemma ConsOrdered(first: nat, rest: seq<nat>, names: seq<string>)
    requires Ordered(rest, names) && first < |names|
    requires forall n :: n in NameSetOf(rest, names) ==> Less(names[first], n)
    ensures Ordered([first] + rest, names)
  {
    var r := [first] + rest;
    forall i, j | 0 <= i < j < |r|
      ensures Less(names[r[i]], names[r[j]])
    {
      if i == 0 {
        assert r[j] == rest[j - 1];
        assert names[rest[j - 1]] in NameSetOf(rest, names);
      } else {
        assert r[i] == rest[i - 1] && r[j] == rest[j - 1];
      }
    }
  }

  lemma ConsNames(first: nat, rest: seq<nat>, names: seq<string>)
    requires first < |names| && Bounded(rest, names)
    ensures Bounded([first] + rest, names)
    ensures NameSetOf([first] + rest, names) == {names[first]} + NameSetOf(rest, names)
  {
    var r := [first] + rest;
    forall n | n in NameSetOf(rest, names)
      ensures n in NameSetOf(r, names)
    {
      var i :| 0 <= i < |rest| && names[rest[i]] == n;
      assert r[i + 1] == rest[i];
    }
    forall n | n in NameSetOf(r, names)
      ensures n == names[first] || n in NameSetOf(rest, names)
    {
      var i :| 0 <= i < |r| && names[r[i]] == n;
      if i > 0 {
        assert r[i] == rest[i - 1];
      }
    }
    assert r[0] == first;
  }

  /** Inserting an element whose name is already present changes nothing: the set keeps the first one. */
  lemma {:induction false} InsertPresent(ids: seq<nat>, names: seq<string>, id: nat)
    requires Ordered(ids, names) && id < |names| && names[id] in NameSetOf(ids, names)
    ensures Insert(ids, names, id) == ids
  {
    var key := names[id];
    var k :| 0 <= k < |ids| && names[ids[k]] == key;
    if names[ids[0]] != key {
      assert k > 0;
      if Less(key, names[ids[0]]) {
        LessAsymmetric(key, names[ids[0]]);
      }
      assert names[ids[1..][k - 1]] == key;
      InsertPresent(ids[1..], names, id);
      assert [ids[0]] + ids[1..] == ids;
    }
  }

  /** A set keeps its order and its names when the table grows: names already given do not change. */
  lemma {:induction false} OrderedExtend(ids: seq<nat>, names: seq<string>, more: seq<string>)
    requires Ordered(ids, names)
    ensures Ordered(ids, names + more)
    ensures Names(ids, names + more) == Names(ids, names)
    ensures NameSetOf(ids, names + more) == NameSetOf(ids, names)
  {
    var all := names + more;
    forall i | 0 <= i < |ids|
      ensures all[ids[i]] == names[ids[i]]
    {
    }
  }
}
