/** `KafkaEventPublisher.diffProducts`: the changed fields of a product, given the two
    field maps its JSON conversion yields. A field's value may be JSON null (`None`);
    value equality stands for Java's `equals`. */
module KafkaEventPublisher {
  import opened Base

  type FieldMap<V> = map<string, Option<V>>

  /** `beforeMap.get(k)`: null for a missing key as for a null value. */
  function Get<V>(m: FieldMap<V>, k: string): Option<V> {
    if k in m then m[k] else None
  }

  /** The condition under which a field is reported: it was null and is not, or it was
      non-null and is now different (null included). */
  predicate Changed<V(==)>(before: Option<V>, after: Option<V>) {
    (before.None? && after.Some?) || (before.Some? && before != after)
  }

  /** The diff: each key of the after map whose value changed, mapped to its after value. */
  function Diff<V(==)>(before: FieldMap<V>, after: FieldMap<V>): (d: FieldMap<V>)
    ensures d.Keys <= after.Keys
    ensures forall k :: k in d ==> d[k] == after[k]
    ensures forall k :: k in after ==> (k in d <==> Changed(Get(before, k), after[k]))
  {
    map k | k in after && Changed(Get(before, k), after[k]) :: after[k]
  }

  /** The changes visited so far: those among the keys in `seen`. */
  function DiffOver<V(==)>(before: FieldMap<V>, after: FieldMap<V>, seen: set<string>): FieldMap<V> {
    map k | k in after && k in seen && Changed(Get(before, k), after[k]) :: after[k]
  }

  /** Visiting one more key adds it to the changes exactly when its value changed. */
  lemma DiffOverStep<V>(before: FieldMap<V>, after: FieldMap<V>, seen: set<string>, k: string)
    requires k in after && k !in seen
    ensures Changed(Get(before, k), after[k]) ==>
      DiffOver(before, after, seen + {k}) == DiffOver(before, after, seen)[k := after[k]]
    ensures !Changed(Get(before, k), after[k]) ==>
      DiffOver(before, after, seen + {k}) == DiffOver(before, after, seen)
  {
  }

  /** Once every key of the after map is visited, the changes are the diff. */
  lemma DiffOverAll<V>(before: FieldMap<V>, after: FieldMap<V>)
    ensures DiffOver(before, after, after.Keys) == Diff(before, after)
  {
  }

  /** `diffProducts`: visits every key of the after map, in whatever order, putting each
      changed key into the result. */
  method DiffProducts<V(==)>(before: FieldMap<V>, after: FieldMap<V>) returns (changes: FieldMap<V>)
    ensures changes == Diff(before, after)
  {
    changes := map[];
    var seen: set<string> := {};
    var rest := after.Keys;
    while rest != {}
      invariant rest == after.Keys - seen
      invariant seen <= after.Keys
      invariant changes == DiffOver(before, after, seen)
      decreases |rest|
    {
      var k :| k in rest;
      var oldVal := Get(before, k);
      var v := after[k];
      DiffOverStep(before, after, seen, k);
      if (oldVal.None? && v.Some?) || (oldVal.Some? && oldVal != v) {
        changes := changes[k := v];
      }
      seen := seen + {k};
      rest := rest - {k};
    }
    assert seen == after.Keys;
    DiffOverAll(before, after);
  }

  /** Diffing a map against itself reports nothing. */
  lemma DiffWithSelfIsEmpty<V>(m: FieldMap<V>)
    ensures Diff(m, m) == map[]
  {
    assert forall k :: k in m ==> !Changed(Get(m, k), m[k]);
  }

  /** A field removed from the after map, or null on both sides, is never reported; a field
      set from null to a value, or changed from one value to another, is. */
  lemma DiffReportsSetsAndChangesOnly<V>(before: FieldMap<V>, after: FieldMap<V>, k: string)
    ensures k in before && k !in after ==> k !in Diff(before, after)
    ensures Get(before, k).None? && k in after && after[k].None? ==> k !in Diff(before, after)
    ensures Get(before, k).None? && k in after && after[k].Some? ==>
      k in Diff(before, after) && Diff(before, after)[k] == after[k]
    ensures Get(before, k).Some? && k in after && after[k] != before[k] ==>
      k in Diff(before, after) && Diff(before, after)[k] == after[k]
    ensures Get(before, k).Some? && k in after && after[k] == before[k] ==> k !in Diff(before, after)
  {
  }

  /** Applying the diff to the before map gives the after map on every key the after map
      holds, except keys whose value went from present to absent null. */
  lemma DiffRestoresAfter<V>(before: FieldMap<V>, after: FieldMap<V>, k: string)
    requires k in after && !(k !in before && after[k].None?)
    ensures Get(before + Diff(before, after), k) == after[k]
  {
  }
}
