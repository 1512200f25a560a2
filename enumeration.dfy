/**
 * Iteration over a `HashMap` (hashbrown): every key exactly once, in an order
 * the program does not control.
 */
module Enumeration {

  /** `s` lists every key of `keys` exactly once. */
  ghost predicate IsEnumeration<K(!new)>(s: seq<K>, keys: set<K>)
  {
    && (forall i, j :: 0 <= i < j < |s| ==> s[i] != s[j])
    && (forall k :: k in keys <==> k in s)
  }

  /**
   * `map.keys()` / `map.iter()`: the keys of `m`, each once. Which key comes
   * next is an unspecified choice, as in a hash map.
   */
  method EnumerateKeys<K(!new), V>(m: map<K, V>) returns (s: seq<K>)
    ensures IsEnumeration(s, m.Keys)
    ensures |s| == |m|
  {
    s := [];
    var rest := m.Keys;
    while rest != {}
      invariant forall k :: k in m <==> k in s || k in rest
      invariant forall k :: k in s ==> k !in rest
      invariant forall i, j :: 0 <= i < j < |s| ==> s[i] != s[j]
      invariant |s| + |rest| == |m|
      decreases rest
    {
      var k :| k in rest;
      s := s + [k];
      rest := rest - {k};
    }
  }
}
