/** A JavaScript object that its owner passes to a helper, which edits its properties in place. */
module JsObjects {
  import opened Wrappers
  import opened JsonValues

  class ObjectRef {
    var fields: seq<Field>

    constructor(fs: seq<Field>)
      ensures fields == fs
    {
      fields := fs;
    }

    /** `obj[name]`. */
    function Get(name: string): Option<Json>
      reads this
    {
      Lookup(fields, name)
    }

    /** `if (obj[name])`. */
    predicate IsTruthy(name: string)
      reads this
    {
      TruthyMember(fields, name)
    }

    /** `obj[name] = v`. */
    method Set(name: string, v: Json)
      modifies this
      ensures fields == Put(old(fields), name, v)
    {
      fields := Put(fields, name, v);
    }
  }
}
