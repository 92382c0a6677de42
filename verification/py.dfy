/**
 * The Python values the core handles without knowing their type: metadata
 * values, attribute lookups that may yield anything, and the insertion-ordered
 * `dict` that holds node metadata.
 */
module Py {
  import opened Strings

  datatype Option<T> = None | Some(value: T)

  /**
   * A Python value as met in node metadata or returned by `getattr`: a string,
   * an integer, `None`, or any other object, known by its `str()` and its
   * truth value.
   */
  datatype Value =
    | PyStr(s: string)
    | PyInt(i: int)
    | PyNone
    | PyOther(text: string, truthy: bool)

  /** `bool(v)`. */
  predicate Truthy(v: Value)
  {
    match v
    case PyStr(s) => s != ""
    case PyInt(i) => i != 0
    case PyNone => false
    case PyOther(_, t) => t
  }

  /** `str(v)`. */
  function ToStr(v: Value): string
  {
    match v
    case PyStr(s) => s
    case PyInt(i) => IntToString(i)
    case PyNone => "None"
    case PyOther(t, _) => t
  }

  /**
   * A `dict` with string keys. Python dicts iterate in insertion order, which
   * a map cannot express, so a dict is the sequence of its items.
   */
  type Dict = seq<(string, Value)>

  predicate UniqueKeys(d: Dict)
  {
    forall i, j :: 0 <= i < j < |d| ==> d[i].0 != d[j].0
  }

  /** `d[k]` when `k in d`, else nothing. */
  function Get(d: Dict, k: string): (r: Option<Value>)
    ensures r.Some? <==> exists i :: 0 <= i < |d| && d[i].0 == k
    decreases |d|
  {
    if |d| == 0 then None
    else if d[0].0 == k then Some(d[0].1)
    else
      var r := Get(d[1..], k);
      assert forall i :: 1 <= i < |d| ==> d[i] == d[1..][i - 1];
      r
  }

  /** `d.get(k, default)`. */
  function GetOr(d: Dict, k: string, default: Value): Value
  {
    match Get(d, k)
    case Some(v) => v
    case None => default
  }

  /**
   * `d[k] = v`: an existing key keeps its position and takes the new value,
   * a new key goes last; every other key keeps its value and its position.
   */
  function Set(d: Dict, k: string, v: Value): Dict
    decreases |d|
  {
    if |d| == 0 then [(k, v)]
    else if d[0].0 == k then [(k, v)] + d[1..]
    else [d[0]] + Set(d[1..], k, v)
  }

  /** After `d[k] = v`, `k` maps to `v` and every other key keeps its value. */
  lemma {:induction false} SetGet(d: Dict, k: string, v: Value)
    ensures Get(Set(d, k, v), k) == Some(v)
    ensures forall k' :: k' != k ==> Get(Set(d, k, v), k') == Get(d, k')
    decreases |d|
  {
    var r := Set(d, k, v);
    if |d| == 0 {
    } else if d[0].0 == k {
      assert r[1..] == d[1..];
    } else {
      SetGet(d[1..], k, v);
      assert r[1..] == Set(d[1..], k, v);
    }
  }

  /**
   * `d[k] = v` keeps every existing key in its position and changes only the
   * value under `k`; it grows the dict by one exactly when `k` is new, and a
   * new key goes last.
   */
  lemma {:induction false} SetShape(d: Dict, k: string, v: Value)
    ensures var r := Set(d, k, v);
      && |r| == (if Get(d, k).Some? then |d| else |d| + 1)
      && (forall i :: 0 <= i < |d| ==> r[i].0 == d[i].0 && (d[i].0 != k ==> r[i].1 == d[i].1))
      && (|r| > |d| ==> r[|d|] == (k, v))
    decreases |d|
  {
    var r := Set(d, k, v);
    if |d| > 0 && d[0].0 != k {
      var rest := Set(d[1..], k, v);
      SetShape(d[1..], k, v);
      assert r == [d[0]] + rest;
      assert Get(d, k) == Get(d[1..], k);
      forall i | 0 < i < |d|
        ensures r[i].0 == d[i].0 && (d[i].0 != k ==> r[i].1 == d[i].1)
      {
        assert r[i] == rest[i - 1] && d[i] == d[1..][i - 1];
      }
      if |r| > |d| {
        assert r[|d|] == rest[|d| - 1];
      }
    }
  }

  /** Assigning a key keeps the keys of a dict distinct. */
  lemma SetKeepsKeysUnique(d: Dict, k: string, v: Value)
    requires UniqueKeys(d)
    ensures UniqueKeys(Set(d, k, v))
  {
    var r := Set(d, k, v);
    SetShape(d, k, v);
    forall i, j | 0 <= i < j < |r|
      ensures r[i].0 != r[j].0
    {
      if j < |d| {
        assert r[i].0 == d[i].0 && r[j].0 == d[j].0;
      } else {
        assert Get(d, k).None? && r[j].0 == k && r[i].0 == d[i].0;
      }
    }
  }

  /** A key found by `Get` is stored with that value at some position. */
  lemma {:induction false} GetFound(d: Dict, k: string, v: Value)
    requires Get(d, k) == Some(v)
    ensures exists i :: 0 <= i < |d| && d[i] == (k, v)
    decreases |d|
  {
    if d[0].0 != k {
      GetFound(d[1..], k, v);
      var i :| 0 <= i < |d[1..]| && d[1..][i] == (k, v);
      assert d[i + 1] == (k, v);
    }
  }
}
