/**
 The patch helper's view of a change: a merge patch on the annotation map,
 computed from a snapshot and the mutated map, and applied by the API server.
 */
module Patch {
  import opened Annotations

  /** A merge patch on an annotation map: keys to set to a value, and keys to
      remove (written as `null` in a JSON merge patch). */
  datatype AnnotationPatch = AnnotationPatch(upserts: StringMap, removals: set<string>)

  predicate IsEmpty(p: AnnotationPatch) {
    p.upserts == map[] && p.removals == {}
  }

  /** What the API server does with a merge patch. */
  function Apply(m: StringMap, p: AnnotationPatch): (r: StringMap)
    ensures forall k :: k in p.upserts ==> k in r && r[k] == p.upserts[k]
    ensures forall k :: k !in p.upserts ==> (k in r <==> k in m && k !in p.removals)
    ensures forall k :: k in r && k !in p.upserts ==> r[k] == m[k]
  {
    (m - p.removals) + p.upserts
  }

  /** The patch from `before` to `after`: every key that is new or has a
      changed value, and every key that disappeared. Nothing else is sent. */
  function Diff(before: StringMap, after: StringMap): (p: AnnotationPatch)
    ensures forall k :: k in p.upserts ==> k in after && (k !in before || before[k] != after[k])
    ensures p.removals <= before.Keys && p.removals !! after.Keys
    ensures IsEmpty(p) <==> before == after
  {
    var p := AnnotationPatch(
      map k | k in after && (k !in before || before[k] != after[k]) :: after[k],
      before.Keys - after.Keys);
    assert IsEmpty(p) ==> before == after by {
      if IsEmpty(p) {
        assert forall k :: k in after ==> k in before && before[k] == after[k] by {
          forall k | k in after ensures k in before && before[k] == after[k] {
            assert k !in p.upserts;
          }
        }
        assert forall k :: k in before ==> k in after by {
          forall k | k in before ensures k in after {
            assert k !in p.removals;
          }
        }
      }
    }
    p
  }

  /** Applying the diff to the snapshot yields the mutated map. */
  lemma ApplyDiff(before: StringMap, after: StringMap)
    ensures Apply(before, Diff(before, after)) == after
  {
  }
}
