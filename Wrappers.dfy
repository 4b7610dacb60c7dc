/**
 * Failure-compatible result types shared by every module of the model, and
 * the reading of a list item by item that stops at the first failure, as a
 * reader loop that throws does.
 */
module Wrappers {

  datatype Option<+T> = None | Some(value: T)

  /** Either a value or the exception the source would throw. */
  datatype Result<+T, +E> = Ok(value: T) | Err(error: E) {
    predicate IsFailure() {
      Err?
    }

    function PropagateFailure<U>(): Result<U, E>
      requires Err?
    {
      Err(error)
    }

    function Extract(): T
      requires Ok?
    {
      value
    }
  }

  /** What `f` reads from each item, in order, or the error of the first item it fails on. */
  function Each<T, U, E>(items: seq<T>, f: T -> Result<U, E>): Result<seq<U>, E> {
    if items == [] then Ok([])
    else
      var init :- Each(items[..|items| - 1], f);
      var last :- f(items[|items| - 1]);
      Ok(init + [last])
  }

  /**
   * Reading a list succeeds exactly when every item reads, and then gives
   * one value per item in the items' order; otherwise it fails with the
   * error of the first item that does not read.
   */
  lemma {:induction false} EachSpec<T, U, E>(items: seq<T>, f: T -> Result<U, E>)
    ensures Each(items, f).Ok? <==> forall k :: 0 <= k < |items| ==> f(items[k]).Ok?
    ensures Each(items, f).Ok? ==>
      |Each(items, f).value| == |items| && forall k :: 0 <= k < |items| ==> Each(items, f).value[k] == f(items[k]).value
    ensures Each(items, f).Err? ==>
      exists k :: 0 <= k < |items| && f(items[k]) == Err(Each(items, f).error) && forall j :: 0 <= j < k ==> f(items[j]).Ok?
  {
    if items != [] {
      var n := |items| - 1;
      var init := items[..n];
      EachSpec(init, f);
      assert forall k :: 0 <= k < n ==> init[k] == items[k];
      if Each(init, f).Err? {
        var k :| 0 <= k < n && f(init[k]) == Err(Each(init, f).error) && forall j :: 0 <= j < k ==> f(init[j]).Ok?;
        assert f(items[k]) == Err(Each(items, f).error);
      } else if f(items[n]).Err? {
        assert f(items[n]) == Err(Each(items, f).error);
      }
    }
  }

  /** Once a prefix of the list fails, the whole list fails with its error. */
  lemma {:induction false} EachPrefixErr<T, U, E>(items: seq<T>, f: T -> Result<U, E>, i: nat)
    requires i <= |items| && Each(items[..i], f).Err?
    ensures Each(items, f) == Each(items[..i], f)
    decreases |items|
  {
    if i < |items| {
      var n := |items| - 1;
      assert items[..n][..i] == items[..i];
      EachPrefixErr(items[..n], f, i);
    } else {
      assert items[..i] == items;
    }
  }

  /** The loop shared by the readers of a list: `push_back` of each item's value. */
  method ReadEach<T, U, E>(items: seq<T>, f: T -> Result<U, E>) returns (r: Result<seq<U>, E>)
    ensures r == Each(items, f)
  {
    var values: seq<U> := [];
    for i := 0 to |items|
      invariant Each(items[..i], f) == Ok(values)
    {
      assert items[..i + 1][..i] == items[..i];
      var v := f(items[i]);
      if v.Err? {
        EachPrefixErr(items, f, i + 1);
        return Err(v.error);
      }
      values := values + [v.value];
    }
    assert items[..|items|] == items;
    r := Ok(values);
  }

  /** Reading a list in two runs reads each run on its own and concatenates the values; otherwise the first error. */
  lemma {:induction false} EachConcat<T, U, E>(a: seq<T>, b: seq<T>, f: T -> Result<U, E>)
    ensures Each(a + b, f) == (var x :- Each(a, f); var y :- Each(b, f); Ok(x + y))
    decreases |b|
  {
    if b == [] {
      assert a + b == a;
      if Each(a, f).Ok? {
        assert Each(a, f).value + [] == Each(a, f).value;
      }
    } else {
      var n := |b| - 1;
      assert (a + b)[..|a + b| - 1] == a + b[..n];
      assert (a + b)[|a + b| - 1] == b[n];
      EachConcat(a, b[..n], f);
      if Each(a, f).Ok? && Each(b[..n], f).Ok? && f(b[n]).Ok? {
        var x := Each(a, f).value;
        var y := Each(b[..n], f).value;
        assert x + y + [f(b[n]).value] == x + (y + [f(b[n]).value]);
      }
    }
  }

  /** Reading succeeds with given values when each item reads to the value at its place. */
  lemma {:induction false} EachPointwise<T, U, E>(items: seq<T>, f: T -> Result<U, E>, values: seq<U>)
    requires |items| == |values|
    requires forall k :: 0 <= k < |items| ==> f(items[k]) == Ok(values[k])
    ensures Each(items, f) == Ok(values)
  {
    if items != [] {
      var n := |items| - 1;
      EachPointwise(items[..n], f, values[..n]);
      assert values == values[..n] + [values[n]];
    }
  }
}
