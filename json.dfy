/**
  JSON documents as the helper layer handles them: JavaScript values built by `JSON.parse`.
  An object is an ordered list of own properties (insertion order, which `Object.keys` and
  `JSON.stringify` follow). A number is a finite IEEE double, kept here as its exact real value;
  the model does no arithmetic on it.
 */
module JsonValues {
  import opened Wrappers
  import opened Strings

  datatype Json =
    | JNull
    | JBool(b: bool)
    | JNumber(n: real)
    | JString(s: string)
    | JArray(elems: seq<Json>)
    | JObject(fields: seq<Field>)

  /** One own property of an object. */
  datatype Field = Field(name: string, value: Json)

  function Names(fs: seq<Field>): (ns: seq<string>)
    ensures |ns| == |fs| && forall k :: 0 <= k < |fs| ==> ns[k] == fs[k].name
  {
    if fs == [] then [] else [fs[0].name] + Names(fs[1..])
  }

  /** Property names of a JavaScript object are distinct. */
  predicate DistinctNames(fs: seq<Field>) {
    forall i, j :: 0 <= i < j < |fs| ==> fs[i].name != fs[j].name
  }

  /** `obj[name]`: the value of the own property `name`, or `undefined` (None). */
  function Lookup(fs: seq<Field>, name: string): (r: Option<Json>)
    ensures r.None? <==> name !in Names(fs)
    ensures r.Some? ==> Field(name, r.value) in fs
  {
    if fs == [] then None
    else if fs[0].name == name then Some(fs[0].value)
    else Lookup(fs[1..], name)
  }

  /** `obj[name] = v`: an existing property keeps its place, a new one goes last. */
  function Put(fs: seq<Field>, name: string, v: Json): (r: seq<Field>)
    ensures Lookup(r, name) == Some(v)
    ensures forall other :: other != name ==> Lookup(r, other) == Lookup(fs, other)
  {
    if fs == [] then [Field(name, v)]
    else if fs[0].name == name then
      var r := [Field(name, v)] + fs[1..];
      assert r[1..] == fs[1..];
      r
    else
      var r := [fs[0]] + Put(fs[1..], name, v);
      assert r[1..] == Put(fs[1..], name, v);
      r
  }

  /** `delete obj[name]`. */
  function Remove(fs: seq<Field>, name: string): (r: seq<Field>)
    ensures Lookup(r, name) == None
    ensures forall other :: other != name ==> Lookup(r, other) == Lookup(fs, other)
    ensures forall n :: n in Names(r) <==> n in Names(fs) && n != name
  {
    if fs == [] then []
    else if fs[0].name == name then Remove(fs[1..], name)
    else
      var r := [fs[0]] + Remove(fs[1..], name);
      assert r[1..] == Remove(fs[1..], name);
      r
  }

  /** The `k`-th property is the one found under its name when no earlier property has that name. */
  lemma {:induction false} LookupAt(fs: seq<Field>, k: nat)
    requires k < |fs| && forall j :: 0 <= j < k ==> fs[j].name != fs[k].name
    ensures Lookup(fs, fs[k].name) == Some(fs[k].value)
  {
    if k > 0 {
      assert fs[1..][k - 1] == fs[k];
      LookupAt(fs[1..], k - 1);
    }
  }

  /** Setting a property that exists keeps the name list; a new property is appended. */
  lemma {:induction false} PutNames(fs: seq<Field>, name: string, v: Json)
    ensures name in Names(fs) ==> Names(Put(fs, name, v)) == Names(fs)
    ensures name !in Names(fs) ==> Names(Put(fs, name, v)) == Names(fs) + [name]
  {
    if fs == [] {
      NamesCons(Field(name, v), []);
      assert [Field(name, v)] + [] == Put(fs, name, v);
    } else {
      var f, rest := fs[0], fs[1..];
      assert [f] + rest == fs;
      NamesCons(f, rest);
      if f.name == name {
        NamesCons(Field(name, v), rest);
        assert [Field(name, v)] + rest == Put(fs, name, v);
        assert Names(fs)[0] == name;
      } else {
        var t := Put(rest, name, v);
        assert [f] + t == Put(fs, name, v);
        NamesCons(f, t);
        PutNames(rest, name, v);
        MemberCons(name, f.name, Names(rest));
        if name !in Names(rest) {
          ConsAppend(f.name, Names(rest), name);
        }
      }
    }
  }

  lemma MemberCons(x: string, a: string, s: seq<string>)
    requires x != a
    ensures x in [a] + s <==> x in s
  {
    if x in s {
      var i :| 0 <= i < |s| && s[i] == x;
      assert ([a] + s)[i + 1] == x;
    }
  }

  lemma ConsAppend(a: string, s: seq<string>, b: string)
    ensures [a] + (s + [b]) == [a] + s + [b]
  {
  }

  lemma NamesCons(f: Field, fs: seq<Field>)
    ensures Names([f] + fs) == [f.name] + Names(fs)
  {
    assert ([f] + fs)[1..] == fs;
  }

  lemma {:induction false} PutKeepsDistinct(fs: seq<Field>, name: string, v: Json)
    requires DistinctNames(fs)
    ensures DistinctNames(Put(fs, name, v))
  {
    var r := Put(fs, name, v);
    PutNames(fs, name, v);
    forall i, j | 0 <= i < j < |r| ensures r[i].name != r[j].name {
      assert Names(r)[i] == r[i].name && Names(r)[j] == r[j].name;
      assert Names(fs) == Names(fs[..]);
      if name !in Names(fs) {
        if j < |fs| {
          assert Names(fs)[i] != Names(fs)[j];
        } else {
          assert Names(r)[i] in Names(fs);
        }
      } else {
        assert Names(fs)[i] != Names(fs)[j];
      }
    }
  }

  /** Setting a property twice leaves only the second value, in the place the first one took. */
  lemma {:induction false} PutTwice(fs: seq<Field>, name: string, a: Json, b: Json)
    ensures Put(Put(fs, name, a), name, b) == Put(fs, name, b)
  {
    if fs != [] && fs[0].name != name {
      PutTwice(fs[1..], name, a, b);
      assert Put(fs, name, a)[1..] == Put(fs[1..], name, a);
    }
  }

  /** Setting a property to the value it already has changes nothing. */
  lemma {:induction false} PutSame(fs: seq<Field>, name: string)
    requires Lookup(fs, name).Some?
    ensures Put(fs, name, Lookup(fs, name).value) == fs
  {
    if fs[0].name != name {
      PutSame(fs[1..], name);
    }
  }

  lemma HeadNameNotInTail(fs: seq<Field>)
    requires fs != [] && DistinctNames(fs)
    ensures fs[0].name !in Names(fs[1..])
  {
  }

  lemma {:induction false} RemoveKeepsDistinct(fs: seq<Field>, name: string)
    requires DistinctNames(fs)
    ensures DistinctNames(Remove(fs, name))
  {
    if fs != [] {
      RemoveKeepsDistinct(fs[1..], name);
      var rest := Remove(fs[1..], name);
      if fs[0].name != name {
        HeadNameNotInTail(fs);
        forall j | 0 <= j < |rest| ensures rest[j].name != fs[0].name {
          assert Names(rest)[j] == rest[j].name;
        }
      }
    }
  }

  /** JavaScript truthiness of a present value (`undefined`, being absent, is falsy). */
  predicate Truthy(j: Json) {
    match j
    case JNull => false
    case JBool(b) => b
    case JNumber(n) => n != 0.0
    case JString(s) => s != ""
    case _ => true
  }

  predicate TruthyMember(fs: seq<Field>, name: string) {
    Lookup(fs, name).Some? && Truthy(Lookup(fs, name).value)
  }

  /** `obj.name` on an arbitrary value: only objects have own properties worth reading here. */
  function Member(j: Json, name: string): Option<Json> {
    if j.JObject? then Lookup(j.fields, name) else None
  }

  predicate ContainsNull(j: Json) {
    match j
    case JNull => true
    case JArray(es) => exists k :: 0 <= k < |es| && ContainsNull(es[k])
    case JObject(fs) => exists k :: 0 <= k < |fs| && ContainsNull(fs[k].value)
    case _ => false
  }

  /** JavaScript's `String(v)` (the form a template literal `${v}` interpolates), given the
      runtime's rendering of numbers: an array joins its elements with commas, rendering
      `null` as empty, and every object is `[object Object]`. */
  function Display(j: Json, numberText: real -> string): string {
    match j
    case JNull => "null"
    case JBool(b) => if b then "true" else "false"
    case JNumber(n) => numberText(n)
    case JString(s) => s
    case JArray(es) =>
      Join(seq(|es|, k requires 0 <= k < |es| => if es[k].JNull? then "" else Display(es[k], numberText)), ",")
    case JObject(_) => "[object Object]"
  }
}
