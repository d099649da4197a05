/** Optional values: a query parameter that may be missing. */
module Wrappers {

  /** `None` stands for Python's `None`, which `dict.get` returns for a missing key. */
  datatype Option<T> = None | Some(value: T)
}

/**
 * The decoded query string of an HTTP request, as the web framework hands it to a
 * view function through `request.args`: an ordered multi-dictionary in which a key
 * may occur more than once, and whose `get(key)` yields the value of the FIRST
 * occurrence of `key`, or `None` when the key does not occur at all.
 */
module Query {
  import opened Wrappers

  /** One decoded `key=value` pair of the query string. */
  datatype Param = Param(key: string, value: string)

  /** The query string names `key` at least once. */
  ghost predicate Has(args: seq<Param>, key: string)
  {
    exists i :: 0 <= i < |args| && args[i].key == key
  }

  /** Position `i` holds the first occurrence of `key`. */
  ghost predicate IsFirst(args: seq<Param>, key: string, i: int)
  {
    && 0 <= i < |args|
    && args[i].key == key
    && forall j :: 0 <= j < i ==> args[j].key != key
  }

  /** `request.args.get(key)`: the first value given for `key`, if any. */
  function Get(args: seq<Param>, key: string): (r: Option<string>)
    ensures r.None? <==> !Has(args, key)
    ensures r.Some? ==> exists i :: IsFirst(args, key, i) && args[i].value == r.value
    ensures forall i :: IsFirst(args, key, i) ==> r == Some(args[i].value)
  {
    if |args| == 0 then None
    else if args[0].key == key then
      assert IsFirst(args, key, 0);
      Some(args[0].value)
    else
      var rest := Get(args[1..], key);
      assert forall i :: IsFirst(args, key, i) ==> i > 0 && IsFirst(args[1..], key, i - 1);
      assert forall i :: IsFirst(args[1..], key, i) ==> IsFirst(args, key, i + 1);
      rest
  }

  /** Looking a key up in two concatenated query strings consults the second only
      when the first lacks the key. */
  lemma {:induction false} GetAppend(a: seq<Param>, b: seq<Param>, key: string)
    ensures Get(a + b, key) == if Get(a, key).Some? then Get(a, key) else Get(b, key)
  {
    if |a| == 0 {
      assert a + b == b;
    } else {
      assert (a + b)[0] == a[0];
      assert (a + b)[1..] == a[1..] + b;
      if a[0].key != key {
        GetAppend(a[1..], b, key);
      }
    }
  }

  /** Parameters under other keys, placed before or after, never change a lookup. */
  lemma GetIgnoresOtherKeys(args: seq<Param>, other: seq<Param>, key: string)
    requires !Has(other, key)
    ensures Get(other + args, key) == Get(args, key)
    ensures Get(args + other, key) == Get(args, key)
  {
    GetAppend(other, args, key);
    GetAppend(args, other, key);
  }

  /** Once a key has been given, further occurrences of it appended later are ignored. */
  lemma GetFirstWins(args: seq<Param>, more: seq<Param>, key: string)
    requires Has(args, key)
    ensures Get(args + more, key) == Get(args, key)
  {
    GetAppend(args, more, key);
  }
}
