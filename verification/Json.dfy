/**
 JSON values and the two write commands the transition script issues:
 JSON.MERGE, which follows the algorithm in section 2 of RFC 7386, and JSON.SET
 on one field of an object.
 */
module Json {

  datatype Json =
    | JNull
    | JBool(b: bool)
    | JNum(n: int)
    | JStr(s: string)
    | JArr(items: seq<Json>)
    | JObj(fields: map<string, Json>)

  /** The MergePatch function of section 2 of RFC 7386. An absent target is JNull. */
  function MergePatch(target: Json, patch: Json): Json
    decreases patch
  {
    if !patch.JObj? then patch
    else
      var base := if target.JObj? then target.fields else map[];
      JObj(map k | k in base.Keys + patch.fields.Keys && !(k in patch.fields && patch.fields[k].JNull?)
             :: if k in patch.fields
                then MergePatch(if k in base then base[k] else JNull, patch.fields[k])
                else base[k])
  }

  /** JSON.SET of one field of an object: the old value, whatever it was, is replaced. */
  function SetField(target: Json, name: string, value: Json): Json
    requires target.JObj?
  {
    JObj(target.fields[name := value])
  }

  /** A patch whose merge cannot recurse and cannot delete. */
  predicate FlatPatch(patch: Json) {
    patch.JObj? && forall k | k in patch.fields :: !patch.fields[k].JNull? && !patch.fields[k].JObj?
  }

  /** Merging a flat patch is a plain overwrite of the patched fields, one by one. */
  lemma {:induction false} FlatMergeIsOverwrite(target: Json, patch: Json)
    requires target.JObj? && FlatPatch(patch)
    ensures MergePatch(target, patch) == JObj(target.fields + patch.fields)
  {
    var merged := MergePatch(target, patch);
    assert merged.fields.Keys == target.fields.Keys + patch.fields.Keys;
    forall k | k in patch.fields ensures merged.fields[k] == patch.fields[k] {
      var inner := if k in target.fields then target.fields[k] else JNull;
      assert MergePatch(inner, patch.fields[k]) == patch.fields[k];
    }
    assert merged.fields == target.fields + patch.fields;
  }

  /** `next` mentions every field of `prev` and has no null field, and so on inside its own objects. */
  predicate Absorbs(prev: Json, next: Json)
    decreases next
  {
    next.JObj? ==>
      && (prev.JObj? ==> prev.fields.Keys <= next.fields.Keys)
      && forall k | k in next.fields ::
           !next.fields[k].JNull?
           && Absorbs(if prev.JObj? && k in prev.fields then prev.fields[k] else JNull, next.fields[k])
  }

  /**
   Why the payload is set and not merged: merging a new value into an old one gives the new value
   exactly when the new one absorbs the old one. In particular fields that a republish omits would stay.
   */
  lemma {:induction false} MergeReplacesIff(prev: Json, next: Json)
    ensures MergePatch(prev, next) == next <==> Absorbs(prev, next)
    decreases next
  {
    if next.JObj? {
      var base := if prev.JObj? then prev.fields else map[];
      var merged := MergePatch(prev, next);
      forall k | k in next.fields
        ensures MergePatch(if k in base then base[k] else JNull, next.fields[k]) == next.fields[k]
                <==> Absorbs(if k in base then base[k] else JNull, next.fields[k])
      {
        MergeReplacesIff(if k in base then base[k] else JNull, next.fields[k]);
      }
      if Absorbs(prev, next) {
        assert merged.fields.Keys == next.fields.Keys;
        assert merged.fields == next.fields;
      }
      if merged == next {
        assert forall k | k in next.fields :: k in merged.fields;
        assert forall k | k in base :: k in merged.fields || k in next.fields;
      }
    }
  }

  /** What merging one field into an object stores there: the value it was given, or less than that. */
  lemma MergedFieldIff(target: Json, name: string, value: Json)
    requires target.JObj? && name in target.fields && !value.JNull?
    ensures var merged := MergePatch(target, JObj(map[name := value]));
            && merged.JObj? && name in merged.fields
            && (merged.fields[name] == value <==> Absorbs(target.fields[name], value))
  {
    hide Absorbs;
    MergeReplacesIff(target.fields[name], value);
  }
}
