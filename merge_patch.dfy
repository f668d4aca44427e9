/**
  `mergePatch(target, patch)`: the JSON Merge Patch algorithm of section 2 of RFC 7396 as this
  repository writes it in JavaScript, including the places where JavaScript's `typeof` and
  `Object.assign` decide what happens:
  - a patch is applied structurally when `typeof patch == 'object'` and it is not an array, which
    holds for an object and also for a top-level `null`;
  - the starting copy is `{}` for a target that is absent or a string, number or boolean, an empty
    copy for `null`, the array's elements under the keys "0".."n-1" for an array, and a shallow
    copy for an object.
 */
module MergePatching {
  import opened Wrappers
  import opened Strings
  import opened JsonValues

  /** True when line 417's test takes the structural branch. */
  predicate PatchesStructurally(patch: Json) {
    patch.JObject? || patch.JNull?
  }

  /** The own properties the structural branch iterates over (none for `null`). */
  function PatchFields(patch: Json): seq<Field> {
    if patch.JObject? then patch.fields else []
  }

  /** The fresh object the merge starts from: `{}` when `typeof target != 'object'`, otherwise
      `Object.assign({}, target)`. */
  function StartFields(target: Option<Json>): seq<Field> {
    match target
    case Some(JObject(fs)) => fs
    case Some(JArray(es)) => seq(|es|, k requires 0 <= k < |es| => Field(NatToString(k), es[k]))
    case _ => []
  }

  /** The value `mergePatch` returns (the reference definition). */
  function Merged(target: Option<Json>, patch: Json): (r: Json)
    ensures r.JObject? <==> PatchesStructurally(patch)
    ensures !PatchesStructurally(patch) ==> r == patch
    decreases patch, |PatchFields(patch)| + 1
  {
    if PatchesStructurally(patch) then JObject(MergeFrom(StartFields(target), patch, 0)) else patch
  }

  /** The loop over the patch's properties from the `i`-th on, applied to the copy `fs`. */
  function MergeFrom(fs: seq<Field>, patch: Json, i: nat): seq<Field>
    requires i <= |PatchFields(patch)|
    decreases patch, |PatchFields(patch)| - i
  {
    if i == |PatchFields(patch)| then fs
    else MergeFrom(Applied(fs, patch.fields[i].name, patch.fields[i].value), patch, i + 1)
  }

  /** One turn of the loop: a `null` value deletes the name, any other value is merged into it. */
  function Applied(fs: seq<Field>, name: string, value: Json): seq<Field>
    decreases value, |PatchFields(value)| + 2
  {
    if value.JNull? then Remove(fs, name) else Put(fs, name, Merged(Lookup(fs, name), value))
  }

  /** `mergePatch`: copies the target, then sets or deletes one property per patch property. */
  method MergePatch(target: Option<Json>, patch: Json) returns (r: Json)
    ensures r == Merged(target, patch)
    decreases patch
  {
    if PatchesStructurally(patch) {
      var copy := StartFields(target);
      var ps := PatchFields(patch);
      ghost var goal := MergeFrom(copy, patch, 0);
      var i := 0;
      while i < |ps|
        invariant 0 <= i <= |ps|
        invariant MergeFrom(copy, patch, i) == goal
      {
        var p := ps[i];
        assert p == patch.fields[i];
        MergeFromStep(copy, patch, i);
        if p.value.JNull? {
          copy := Remove(copy, p.name);
        } else {
          var merged := MergePatch(Lookup(copy, p.name), p.value);
          copy := Put(copy, p.name, merged);
        }
        i := i + 1;
      }
      r := JObject(copy);
    } else {
      r := patch;
    }
  }

  /** One turn of the loop: the `i`-th patch property deletes its name or merges into it. */
  lemma MergeFromStep(fs: seq<Field>, patch: Json, i: nat)
    requires i < |PatchFields(patch)|
    ensures MergeFrom(fs, patch, i) == MergeFrom(Applied(fs, patch.fields[i].name, patch.fields[i].value), patch, i + 1)
  {
  }

  /** The rule of section 2 of RFC 7396 for one name: `prior` is the name's value in the starting
      copy, `entry` its value in the patch. */
  function KeyRule(prior: Option<Json>, entry: Option<Json>): Option<Json> {
    match entry
    case None => prior
    case Some(JNull) => None
    case Some(v) => Some(Merged(prior, v))
  }

  lemma LookupSuffixSkip(ps: seq<Field>, i: nat, name: string)
    requires i < |ps| && ps[i].name != name
    ensures Lookup(ps[i..], name) == Lookup(ps[i + 1..], name)
  {
    assert ps[i..][1..] == ps[i + 1..];
  }

  lemma LookupSuffixHit(ps: seq<Field>, i: nat)
    requires i < |ps| && DistinctNames(ps)
    ensures Lookup(ps[i..], ps[i].name) == Some(ps[i].value)
    ensures Lookup(ps[i + 1..], ps[i].name) == None
  {
  }

  /** What the loop leaves under each name, by induction over the remaining patch properties. */
  lemma {:induction false} MergeFromLookup(fs: seq<Field>, patch: Json, i: nat, name: string)
    requires patch.JObject? && DistinctNames(patch.fields) && i <= |patch.fields|
    ensures Lookup(MergeFrom(fs, patch, i), name) == KeyRule(Lookup(fs, name), Lookup(patch.fields[i..], name))
    decreases |patch.fields| - i
  {
    var ps := patch.fields;
    if i < |ps| {
      var p := ps[i];
      var next := Applied(fs, p.name, p.value);
      MergeFromLookup(next, patch, i + 1, name);
      if p.name == name {
        LookupSuffixHit(ps, i);
      } else {
        LookupSuffixSkip(ps, i, name);
      }
    }
  }

  /** Per-name contract of an object patch: every name ends up as `KeyRule` says. */
  lemma MergedKeyRule(target: Option<Json>, patch: Json, name: string)
    requires patch.JObject? && DistinctNames(patch.fields)
    ensures Merged(target, patch).JObject?
    ensures Lookup(Merged(target, patch).fields, name) == KeyRule(Lookup(StartFields(target), name), Lookup(patch.fields, name))
  {
    MergeFromLookup(StartFields(target), patch, 0, name);
    assert patch.fields[0..] == patch.fields;
  }

  /** The three cases of the rule, stated separately:
      a name patched with `null` is absent, a name patched with another value holds the merge of
      its old value with it, and a name the patch does not mention keeps its old value. */
  lemma MergedObjectPatch(target: Option<Json>, patch: Json)
    requires patch.JObject? && DistinctNames(patch.fields)
    ensures Merged(target, patch).JObject?
    ensures forall p :: p in patch.fields && p.value == JNull ==> p.name !in Names(Merged(target, patch).fields)
    ensures forall p :: p in patch.fields && p.value != JNull ==>
              Lookup(Merged(target, patch).fields, p.name) == Some(Merged(Lookup(StartFields(target), p.name), p.value))
    ensures forall name :: name !in Names(patch.fields) ==>
              Lookup(Merged(target, patch).fields, name) == Lookup(StartFields(target), name)
  {
    MergedKeyRule(target, patch, "");
    forall p | p in patch.fields
      ensures Lookup(Merged(target, patch).fields, p.name) == KeyRule(Lookup(StartFields(target), p.name), Some(p.value))
    {
      MergedKeyRule(target, patch, p.name);
      var k :| 0 <= k < |patch.fields| && patch.fields[k] == p;
      LookupSuffixHit(patch.fields, k);
      LookupFirstHit(patch.fields, k);
    }
    forall name | name !in Names(patch.fields)
      ensures Lookup(Merged(target, patch).fields, name) == Lookup(StartFields(target), name)
    {
      MergedKeyRule(target, patch, name);
    }
  }

  lemma LookupFirstHit(ps: seq<Field>, k: nat)
    requires k < |ps| && DistinctNames(ps)
    ensures Lookup(ps, ps[k].name) == Some(ps[k].value)
  {
    LookupAt(ps, k);
  }

  /** A patch that is an array, string, number or boolean replaces the target outright. */
  lemma MergedReplaces(target: Option<Json>, patch: Json)
    requires !patch.JObject? && !patch.JNull?
    ensures Merged(target, patch) == patch
  {
  }

  /** An object patch over a target that is absent, a string, a number or a boolean starts from
      `{}`: the result holds exactly the patch's non-null properties, each merged into nothing. */
  lemma MergedOverNonObject(target: Option<Json>, patch: Json)
    requires patch.JObject? && DistinctNames(patch.fields)
    requires target.None? || target.value.JString? || target.value.JNumber? || target.value.JBool?
    ensures Merged(target, patch).JObject?
    ensures forall name :: name in Names(Merged(target, patch).fields) <==>
              Lookup(patch.fields, name).Some? && Lookup(patch.fields, name) != Some(JNull)
    ensures forall p :: p in patch.fields && p.value != JNull ==>
              Lookup(Merged(target, patch).fields, p.name) == Some(Merged(None, p.value))
  {
    MergedObjectPatch(target, patch);
    forall name ensures name in Names(Merged(target, patch).fields) <==>
              Lookup(patch.fields, name).Some? && Lookup(patch.fields, name) != Some(JNull)
    {
      MergedKeyRule(target, patch, name);
    }
  }

  /** A top-level `null` patch takes the object branch (`typeof null == 'object'`) and, having no
      properties, returns the starting copy: the target's own properties, or `{}`. */
  lemma MergedNullPatch(target: Option<Json>)
    ensures Merged(target, JNull) == JObject(StartFields(target))
    ensures target.Some? && target.value.JObject? ==> Merged(target, JNull) == target.value
    ensures target.None? || target.value.JString? || target.value.JNumber? || target.value.JBool? || target.value.JNull?
            ==> Merged(target, JNull) == JObject([])
  {
  }

  /** An array target is copied under its index names rather than replaced by `{}`. */
  lemma MergedArrayTarget(es: seq<Json>, patch: Json, k: nat)
    requires patch.JObject? && DistinctNames(patch.fields)
    requires k < |es| && NatToString(k) !in Names(patch.fields)
    ensures Lookup(Merged(Some(JArray(es)), patch).fields, NatToString(k)) == Some(es[k])
  {
    MergedKeyRule(Some(JArray(es)), patch, NatToString(k));
    StartFieldsDistinct(Some(JArray(es)));
    LookupFirstHit(StartFields(Some(JArray(es))), k);
  }

  lemma StartFieldsDistinct(target: Option<Json>)
    requires target.Some? && target.value.JObject? ==> DistinctNames(target.value.fields)
    ensures DistinctNames(StartFields(target))
  {
    if target.Some? && target.value.JArray? {
      var fs := StartFields(target);
      forall i, j | 0 <= i < j < |fs| ensures fs[i].name != fs[j].name {
        NatToStringInjective(i, j);
      }
    }
  }

  lemma {:induction false} MergeFromDistinct(fs: seq<Field>, patch: Json, i: nat)
    requires patch.JObject? && DistinctNames(fs) && i <= |patch.fields|
    ensures DistinctNames(MergeFrom(fs, patch, i))
    decreases |patch.fields| - i
  {
    if i < |patch.fields| {
      var p := patch.fields[i];
      var next := Applied(fs, p.name, p.value);
      StepKeepsDistinct(fs, p.name, p.value);
      MergeFromStep(fs, patch, i);
      MergeFromDistinct(next, patch, i + 1);
    }
  }

  /** One step of the loop keeps the property names distinct. */
  lemma StepKeepsDistinct(fs: seq<Field>, name: string, value: Json)
    requires DistinctNames(fs)
    ensures DistinctNames(Applied(fs, name, value))
  {
    if value.JNull? {
      RemoveKeepsDistinct(fs, name);
    } else {
      PutKeepsDistinct(fs, name, Merged(Lookup(fs, name), value));
    }
  }

  /** The object the structural branch returns has distinct property names, in particular when
      the target was an array copied under "0".."n-1". */
  lemma MergedDistinct(target: Option<Json>, patch: Json)
    requires PatchesStructurally(patch)
    requires target.Some? && target.value.JObject? ==> DistinctNames(target.value.fields)
    ensures DistinctNames(Merged(target, patch).fields)
  {
    StartFieldsDistinct(target);
    if patch.JObject? {
      MergeFromDistinct(StartFields(target), patch, 0);
    }
  }
}
