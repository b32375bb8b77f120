/**
 String maps of Kubernetes object metadata (annotations and labels) and the
 two string queries the machine controller asks of them: Go's
 `strings.HasPrefix` and Cluster API's `annotations.HasWithPrefix`.
 */
module Annotations {

  /** An annotation or label map. A nil Go map reads like an empty one and is
      serialised like one (the metadata fields are `omitempty`), so both are
      the empty map here. */
  type StringMap = map<string, string>

  /** Go's `strings.HasPrefix(s, prefix)`. */
  predicate HasPrefix(s: string, prefix: string) {
    |prefix| <= |s| && s[..|prefix|] == prefix
  }

  /** Cluster API's `annotations.HasWithPrefix(prefix, m)`: some key of the
      map starts with the prefix. */
  predicate HasWithPrefix(prefix: string, m: StringMap) {
    exists k :: k in m && HasPrefix(k, prefix)
  }

  /** The library's implementation of `HasWithPrefix`: range over the keys
      and stop at the first one that has the prefix. */
  method HasWithPrefixScan(prefix: string, m: StringMap) returns (found: bool)
    ensures found <==> HasWithPrefix(prefix, m)
  {
    var unvisited := m.Keys;
    while unvisited != {}
      invariant unvisited <= m.Keys
      invariant forall k :: k in m && k !in unvisited ==> !HasPrefix(k, prefix)
      decreases unvisited
    {
      var key :| key in unvisited;
      if HasPrefix(key, prefix) {
        return true;
      }
      unvisited := unvisited - {key};
    }
    return false;
  }
}
