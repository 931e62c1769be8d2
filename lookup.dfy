/**
 * The two generic helpers move_pawn uses to find a slide in its lookup table:
 * indexing into nested lists along an access path, and a binary search over a
 * list whose sort keys sit at a fixed path inside each element.
 */
module Lookup {
  import opened Wrappers

  /** A Python value built from integers and lists. */
  datatype Value = Num(n: int) | List(items: seq<Value>)

  /**
   * v[i0][i1]...: None where an index is out of range or a number is indexed
   * (the source raises there). Negative indices count from the end, as in Python.
   */
  function ElementAt(v: Value, path: seq<int>): Option<Value>
    decreases |path|
  {
    if path == [] then Some(v)
    else match v
      case Num(_) => None
      case List(items) =>
        var i := path[0];
        if 0 <= i < |items| then ElementAt(items[i], path[1..])
        else if -|items| <= i < 0 then ElementAt(items[|items| + i], path[1..])
        else None
  }

  /** Indexing along p and then along q is indexing along p + q. */
  lemma {:induction false} ElementAtAppend(v: Value, p: seq<int>, q: seq<int>)
    ensures ElementAt(v, p + q) == match ElementAt(v, p) case None => None case Some(w) => ElementAt(w, q)
    decreases |p|
  {
    if p == [] {
      assert p + q == q;
    } else {
      assert (p + q)[0] == p[0] && (p + q)[1..] == p[1..] + q;
      match v
      case Num(_) =>
      case List(items) =>
        var i := p[0];
        if 0 <= i < |items| {
          ElementAtAppend(items[i], p[1..], q);
        } else if -|items| <= i < 0 {
          ElementAtAppend(items[|items| + i], p[1..], q);
        }
    }
  }

  /** get_element_to_access: follows the access path one index at a time. */
  method GetElementToAccess(v: Value, path: seq<int>) returns (r: Option<Value>)
    ensures r == ElementAt(v, path)
  {
    r := Some(v);
    var i := 0;
    while i < |path|
      invariant 0 <= i <= |path|
      invariant ElementAt(v, path) == match r case None => None case Some(w) => ElementAt(w, path[i..])
    {
      if r.Some? {
        assert path[i..][0] == path[i] && path[i..][1..] == path[i + 1..];
        r := match r.value
          case Num(_) => None
          case List(items) =>
            if 0 <= path[i] < |items| then Some(items[path[i]])
            else if -|items| <= path[i] < 0 then Some(items[|items| + path[i]])
            else None;
      }
      i := i + 1;
    }
  }

  /** Every element of the table carries an integer key at the path. */
  predicate Keyed(table: seq<Value>, path: seq<int>) {
    forall i :: 0 <= i < |table| ==> ElementAt(List(table), [i] + path).Some? && ElementAt(List(table), [i] + path).value.Num?
  }

  /** The key of element i. */
  function KeyAt(table: seq<Value>, path: seq<int>, i: int): int
    requires Keyed(table, path) && 0 <= i < |table|
  {
    ElementAt(List(table), [i] + path).value.n
  }

  /** The keys strictly increase along the table. */
  predicate StrictlySorted(table: seq<Value>, path: seq<int>)
    requires Keyed(table, path)
  {
    forall i, j :: 0 <= i < j < |table| ==> KeyAt(table, path, i) < KeyAt(table, path, j)
  }

  /**
   * binary_search: the index of the element whose key is value. The source's
   * loop runs forever when the value is absent, so its presence is required.
   */
  method BinarySearch(value: int, table: seq<Value>, path: seq<int>) returns (r: Option<int>)
    requires Keyed(table, path) && StrictlySorted(table, path)
    requires exists k :: 0 <= k < |table| && KeyAt(table, path, k) == value
    ensures r.Some? && 0 <= r.value < |table| && KeyAt(table, path, r.value) == value
  {
    ghost var k :| 0 <= k < |table| && KeyAt(table, path, k) == value;
    var lo, hi := 0, |table|;
    var cur := (hi - lo) / 2;
    var element := GetElementToAccess(List(table), [cur] + path);
    while element != Some(Num(value)) && lo != hi
      invariant 0 <= lo <= k < hi <= |table|
      invariant cur == (lo + hi) / 2
      invariant element == Some(Num(KeyAt(table, path, cur)))
      decreases hi - lo
    {
      if element.value.n < value {
        lo := cur;
      } else {
        hi := cur;
      }
      cur := (hi + lo) / 2;
      element := GetElementToAccess(List(table), [cur] + path);
    }
    r := if lo != hi then Some(cur) else None;
  }
}
