/**
  The permissions document `createPermissonsFor` posts for a new resource: the default document
  when none is supplied, and otherwise the supplied one completed in place. `_resource._self`
  is filled in when missing (and compared with the resource's URL when present), and
  `_permissions` gets an update grant for the creator unless it already says who governs it.
  Writing a property onto a string, number or boolean throws in strict mode, as does reading a
  property of `null`.
 */
module PermissionDocuments {
  import opened Wrappers
  import opened JsonValues
  import opened JsObjects
  import opened Http

  /** The document to post and whether `_resource._self` disagreed with the resource's URL
      (the 400 written at that point), or the exception that stopped the shaping. */
  datatype Shaping = Shaped(mismatch: bool, doc: Json) | ShapeThrew(mismatch: bool, error: string)

  /** A grant list holding only the creator. */
  function Grant(user: string): Json {
    JArray([JString(user)])
  }

  function ReadOfNull(name: string): string {
    "TypeError: Cannot read properties of null (reading '" + name + "')"
  }

  function CreateOnPrimitive(name: string): string {
    "TypeError: Cannot create property '" + name + "' on a primitive value"
  }

  predicate IsPrimitive(j: Json) {
    j.JBool? || j.JNumber? || j.JString?
  }

  /** `j[a][b]`, when `j[a]` is an object that has `b`. */
  function Nested(j: Json, a: string, b: string): Option<Json> {
    match Member(j, a)
    case None => None
    case Some(v) => Member(v, b)
  }

  /** `_self != resourceURL`, JavaScript's loose inequality against a string: strings compare as
      text, numbers and booleans against the string's numeric value, arrays and objects through
      their string form, and `null` equals no string. */
  predicate SelfDiffers(self: Json, url: string, rt: Runtime) {
    match self
    case JNull => true
    case JString(s) => s != url
    case JNumber(n) => rt.toNumber(url) != Some(n)
    case JBool(b) => rt.toNumber(url) != Some(if b then 1.0 else 0.0)
    case _ => Display(self, rt.numberText) != url
  }

  /** The document posted when the caller supplies none (or `null`): the creator alone may read
      and update the permissions, and alone holds every grant on the resource. */
  function DefaultPermissions(url: string, user: string): Json {
    var g := Grant(user);
    JObject([
      Field("_permissions", JObject([Field("isA", JString("Permissions")), Field("grantsReadAcessTo", g), Field("grantsUpdateAccessTo", g)])),
      Field("_resource", JObject([Field("_self", JString(url)), Field("grantsReadAcessTo", g), Field("grantsDeleteAcessTo", g),
                                  Field("grantsUpdateAccessTo", g), Field("grantsCreateAcessTo", g)]))])
  }

  /** A value that is `null` or a string, number or boolean where an object was expected. */
  predicate Unusable(v: Option<Json>) {
    v.Some? && (v.value.JNull? || IsPrimitive(v.value))
  }

  /** `_resource` is an object whose `_self` is present and differs from the URL. */
  predicate SelfDisagrees(fs: seq<Field>, url: string, rt: Runtime) {
    var res := Lookup(fs, "_resource");
    res.Some? && res.value.JObject? && Lookup(res.value.fields, "_self").Some?
    && SelfDiffers(Lookup(res.value.fields, "_self").value, url, rt)
  }

  /** The two properties the shaping writes are different names. */
  lemma ShapedNamesDiffer()
    ensures "_resource" != "_permissions"
  {
    assert "_resource"[1] != "_permissions"[1];
  }

  /** Lines 283-290 on a supplied object: a missing `_resource` becomes `{_self: url}`, an object
      without `_self` gets it, and an existing `_self` is compared with the URL. An array takes
      the new property as a non-index property, which serialization drops. */
  function WithResource(fs: seq<Field>, url: string, rt: Runtime): (r: Shaping)
    ensures r.mismatch == SelfDisagrees(fs, url, rt)
    ensures r.ShapeThrew? <==> Unusable(Lookup(fs, "_resource"))
    ensures r.Shaped? ==> r.doc.JObject? && forall n :: n != "_resource" ==> Lookup(r.doc.fields, n) == Lookup(fs, n)
  {
    match Lookup(fs, "_resource")
    case None => Shaped(false, JObject(Put(fs, "_resource", JObject([Field("_self", JString(url))]))))
    case Some(JObject(rs)) =>
      (match Lookup(rs, "_self")
       case None => Shaped(false, JObject(Put(fs, "_resource", JObject(Put(rs, "_self", JString(url))))))
       case Some(self) => Shaped(SelfDiffers(self, url, rt), JObject(fs)))
    case Some(JArray(_)) => Shaped(false, JObject(fs))
    case Some(JNull) => ShapeThrew(false, ReadOfNull("_self"))
    case Some(_) => ShapeThrew(false, CreateOnPrimitive("_self"))
  }

  /** Neither `inheritsPermissionsOf` nor `grantsUpdateAccessTo` is set. */
  predicate Ungoverned(ps: seq<Field>) {
    Lookup(ps, "inheritsPermissionsOf").None? && Lookup(ps, "grantsUpdateAccessTo").None?
  }

  /** `permissions.grantsReadAcessTo || [user]`: read from the top level of the document. */
  function ReadGrant(fs: seq<Field>, user: string): Json {
    if TruthyMember(fs, "grantsReadAcessTo") then Lookup(fs, "grantsReadAcessTo").value else Grant(user)
  }

  /** The document with `_permissions` replaced by `base` plus the creator's update grant and
      the read grant. */
  function Granted(fs: seq<Field>, base: seq<Field>, user: string, mismatch: bool): (r: Shaping)
    ensures r.Shaped? && r.mismatch == mismatch && r.doc.JObject?
    ensures forall n :: n != "_permissions" ==> Lookup(r.doc.fields, n) == Lookup(fs, n)
  {
    var granted := Put(Put(base, "grantsUpdateAccessTo", Grant(user)), "grantsReadAcessTo", ReadGrant(fs, user));
    Shaped(mismatch, JObject(Put(fs, "_permissions", JObject(granted))))
  }

  /** Lines 291-299: a missing `_permissions` becomes `{}`, and an ungoverned one gets the
      creator's update grant and a read grant. */
  function WithPermissions(fs: seq<Field>, user: string, mismatch: bool): (r: Shaping)
    ensures r.mismatch == mismatch
    ensures r.ShapeThrew? <==> Unusable(Lookup(fs, "_permissions"))
    ensures r.Shaped? ==> r.doc.JObject? && forall n :: n != "_permissions" ==> Lookup(r.doc.fields, n) == Lookup(fs, n)
  {
    match Lookup(fs, "_permissions")
    case None => Granted(fs, [], user, mismatch)
    case Some(JObject(ps)) => if Ungoverned(ps) then Granted(fs, ps, user, mismatch) else Shaped(mismatch, JObject(fs))
    case Some(JArray(_)) => Shaped(mismatch, JObject(fs))
    case Some(JNull) => ShapeThrew(mismatch, ReadOfNull("inheritsPermissionsOf"))
    case Some(_) => ShapeThrew(mismatch, CreateOnPrimitive("grantsUpdateAccessTo"))
  }

  /** Both steps on a supplied object. */
  function ShapeSupplied(fs: seq<Field>, url: string, user: string, rt: Runtime): Shaping {
    match WithResource(fs, url, rt)
    case ShapeThrew(m, e) => ShapeThrew(m, e)
    case Shaped(m, doc) => WithPermissions(doc.fields, user, m)
  }

  /** Lines 266-300: what is posted for the `permissions` argument (None for `undefined`). */
  function ShapePermissions(permissions: Option<Json>, url: string, user: string, rt: Runtime): (r: Shaping)
    ensures r.mismatch <==> permissions.Some? && permissions.value.JObject? && SelfDisagrees(permissions.value.fields, url, rt)
    ensures r.Shaped? ==> r.doc.JObject? || r.doc.JArray?
    ensures r.Shaped? && permissions.Some? && permissions.value.JObject? ==>
              r.doc.JObject? && forall n :: n != "_resource" && n != "_permissions" ==>
                Lookup(r.doc.fields, n) == Lookup(permissions.value.fields, n)
  {
    match permissions
    case None => Shaped(false, DefaultPermissions(url, user))
    case Some(JNull) => Shaped(false, DefaultPermissions(url, user))
    case Some(JObject(fs)) => ShapeSupplied(fs, url, user, rt)
    case Some(JArray(_)) => Shaped(false, permissions.value)
    case Some(_) => ShapeThrew(false, CreateOnPrimitive("_resource"))
  }

  /** Lines 283-290 on the caller's object. Nested objects are values here, so writing into
      `_resource` stores the updated object back under its name. */
  method ResourceInPlace(permissions: ObjectRef, url: string, rt: Runtime) returns (mismatch: bool, error: Option<string>)
    modifies permissions
    ensures error.None? ==> WithResource(old(permissions.fields), url, rt) == Shaped(mismatch, JObject(permissions.fields))
    ensures error.Some? ==> WithResource(old(permissions.fields), url, rt) == ShapeThrew(mismatch, error.value)
  {
    ghost var fs := permissions.fields;
    mismatch, error := false, None;
    if permissions.Get("_resource").None? {
      permissions.Set("_resource", JObject([]));
    }
    match permissions.Get("_resource").value {
      case JNull =>
        error := Some(ReadOfNull("_self"));
      case JObject(rs) =>
        if Lookup(rs, "_self").None? {
          permissions.Set("_resource", JObject(Put(rs, "_self", JString(url))));
          PutTwice(fs, "_resource", JObject([]), JObject(Put(rs, "_self", JString(url))));
        } else {
          mismatch := SelfDiffers(Lookup(rs, "_self").value, url, rt);
        }
      case JArray(_) =>
      case JBool(_) =>
        error := Some(CreateOnPrimitive("_self"));
      case JNumber(_) =>
        error := Some(CreateOnPrimitive("_self"));
      case JString(_) =>
        error := Some(CreateOnPrimitive("_self"));
    }
  }

  /** What `WithPermissions` does when `_permissions` is missing: it becomes the two grants alone. */
  lemma PermissionsCreated(fs: seq<Field>, user: string, mismatch: bool)
    requires Lookup(fs, "_permissions").None?
    ensures WithPermissions(fs, user, mismatch)
            == Shaped(mismatch, JObject(Put(fs, "_permissions", JObject(Put(Put([], "grantsUpdateAccessTo", Grant(user)), "grantsReadAcessTo", ReadGrant(fs, user))))))
  {
  }

  /** What `WithPermissions` does when `_permissions` is an ungoverned object: the grants are put in. */
  lemma GrantsAdded(fs: seq<Field>, ps: seq<Field>, user: string, mismatch: bool)
    requires Lookup(fs, "_permissions") == Some(JObject(ps)) && Ungoverned(ps)
    ensures WithPermissions(fs, user, mismatch)
            == Shaped(mismatch, JObject(Put(fs, "_permissions", JObject(Put(Put(ps, "grantsUpdateAccessTo", Grant(user)), "grantsReadAcessTo", ReadGrant(fs, user))))))
  {
  }

  /** `WithPermissions` leaves a governed object or an array as it is. */
  lemma PermissionsKept(fs: seq<Field>, user: string, mismatch: bool)
    requires Lookup(fs, "_permissions").Some?
    requires var v := Lookup(fs, "_permissions").value; (v.JObject? && !Ungoverned(v.fields)) || v.JArray?
    ensures WithPermissions(fs, user, mismatch) == Shaped(mismatch, JObject(fs))
  {
  }

  /** `WithPermissions` throws on `null` and on a string, number or boolean. */
  lemma PermissionsRefused(fs: seq<Field>, user: string, mismatch: bool)
    requires Unusable(Lookup(fs, "_permissions"))
    ensures WithPermissions(fs, user, mismatch)
            == ShapeThrew(mismatch, if Lookup(fs, "_permissions").value.JNull? then ReadOfNull("inheritsPermissionsOf") else CreateOnPrimitive("grantsUpdateAccessTo"))
  {
  }

  /** Lines 291-299 on the caller's object, `mismatch` carried over from the step before. */
  method PermissionsInPlace(permissions: ObjectRef, user: string, mismatch: bool) returns (error: Option<string>)
    modifies permissions
    ensures error.None? ==> WithPermissions(old(permissions.fields), user, mismatch) == Shaped(mismatch, JObject(permissions.fields))
    ensures error.Some? ==> WithPermissions(old(permissions.fields), user, mismatch) == ShapeThrew(mismatch, error.value)
  {
    ghost var fs := permissions.fields;
    error := None;
    var read := if permissions.IsTruthy("grantsReadAcessTo") then permissions.Get("grantsReadAcessTo").value else Grant(user);
    assert read == ReadGrant(fs, user);
    var created := permissions.Get("_permissions").None?;
    if created {
      permissions.Set("_permissions", JObject([]));
    }
    ghost var fs1 := permissions.fields;
    match permissions.Get("_permissions").value {
      case JNull =>
        error := Some(ReadOfNull("inheritsPermissionsOf"));
        PermissionsRefused(fs, user, mismatch);
      case JObject(ps) =>
        if Ungoverned(ps) {
          var granted := Put(ps, "grantsUpdateAccessTo", Grant(user));
          permissions.Set("_permissions", JObject(granted));
          PutTwice(fs1, "_permissions", JObject(ps), JObject(granted));
          granted := Put(granted, "grantsReadAcessTo", read);
          permissions.Set("_permissions", JObject(granted));
          PutTwice(fs1, "_permissions", JObject(Put(ps, "grantsUpdateAccessTo", Grant(user))), JObject(granted));
          if created {
            PutTwice(fs, "_permissions", JObject([]), JObject(granted));
            PermissionsCreated(fs, user, mismatch);
          } else {
            GrantsAdded(fs, ps, user, mismatch);
          }
        } else {
          PermissionsKept(fs, user, mismatch);
        }
      case JArray(_) =>
        PermissionsKept(fs, user, mismatch);
      case JBool(_) =>
        error := Some(CreateOnPrimitive("grantsUpdateAccessTo"));
        PermissionsRefused(fs, user, mismatch);
      case JNumber(_) =>
        error := Some(CreateOnPrimitive("grantsUpdateAccessTo"));
        PermissionsRefused(fs, user, mismatch);
      case JString(_) =>
        error := Some(CreateOnPrimitive("grantsUpdateAccessTo"));
        PermissionsRefused(fs, user, mismatch);
    }
  }

  /** Lines 282-299 on the caller's object: both steps, stopping at the first exception. */
  method CompleteInPlace(permissions: ObjectRef, url: string, user: string, rt: Runtime) returns (mismatch: bool, error: Option<string>)
    modifies permissions
    ensures error.None? ==> ShapeSupplied(old(permissions.fields), url, user, rt) == Shaped(mismatch, JObject(permissions.fields))
    ensures error.Some? ==> ShapeSupplied(old(permissions.fields), url, user, rt) == ShapeThrew(mismatch, error.value)
  {
    mismatch, error := ResourceInPlace(permissions, url, rt);
    if error.None? {
      error := PermissionsInPlace(permissions, user, mismatch);
    }
  }

  /** A supplied object goes through both steps. */
  lemma SuppliedObject(fs: seq<Field>, url: string, user: string, rt: Runtime)
    ensures ShapePermissions(Some(JObject(fs)), url, user, rt) == ShapeSupplied(fs, url, user, rt)
  {
  }

  /** With no document, or `null`, the default is posted, and it never disagrees. */
  lemma DefaultDocument(permissions: Option<Json>, url: string, user: string, rt: Runtime)
    requires permissions.None? || permissions == Some(JNull)
    ensures ShapePermissions(permissions, url, user, rt) == Shaped(false, DefaultPermissions(url, user))
  {
  }

  /** In the default document `_resource._self` is the resource's URL and every other property
      of `_resource`, each a grant, lists the creator alone. */
  lemma DefaultResource(url: string, user: string)
    ensures var r := Member(DefaultPermissions(url, user), "_resource");
            r.Some? && r.value.JObject? && Lookup(r.value.fields, "_self") == Some(JString(url))
            && |r.value.fields| == 5
            && forall f :: f in r.value.fields && f.name != "_self" ==> f.value == Grant(user)
  {
    var d := DefaultPermissions(url, user);
    var res := d.fields[1].value;
    ShapedNamesDiffer();
    LookupAt(d.fields, 1);
    assert Member(d, "_resource") == Some(res);
    forall f | f in res.fields && f.name != "_self" ensures f.value == Grant(user) {
    }
  }

  /** In the default document the creator alone may read and update the permissions. */
  lemma DefaultGrants(url: string, user: string)
    ensures var d := DefaultPermissions(url, user);
            Nested(d, "_permissions", "grantsReadAcessTo") == Some(Grant(user))
            && Nested(d, "_permissions", "grantsUpdateAccessTo") == Some(Grant(user))
  {
    var d := DefaultPermissions(url, user);
    var ps := d.fields[0].value.fields;
    LookupAt(d.fields, 0);
    LookupAt(ps, 1);
    assert ps[1].name[6] != ps[2].name[6];
    LookupAt(ps, 2);
  }

  /** Shaping throws exactly when the supplied document is a string, number or boolean, or its
      `_resource` or `_permissions` is `null` or one of those. */
  lemma ThrowsExactly(permissions: Option<Json>, url: string, user: string, rt: Runtime)
    ensures ShapePermissions(permissions, url, user, rt).ShapeThrew? <==>
              permissions.Some? && (IsPrimitive(permissions.value)
                || (permissions.value.JObject? && (Unusable(Lookup(permissions.value.fields, "_resource"))
                                                 || Unusable(Lookup(permissions.value.fields, "_permissions")))))
  {
    match permissions
    case Some(JObject(fs)) =>
      var w := WithResource(fs, url, rt);
      if w.Shaped? {
        ShapedNamesDiffer();
        assert Lookup(w.doc.fields, "_permissions") == Lookup(fs, "_permissions");
      }
    case _ =>
  }

  /** A missing `_self` (or a missing `_resource`) is filled in with the resource's URL, with no
      disagreement, and the rest of `_resource` is kept. */
  lemma SelfFilledIn(fs: seq<Field>, url: string, user: string, rt: Runtime)
    requires Lookup(fs, "_resource").None? || (Lookup(fs, "_resource").value.JObject? && Lookup(Lookup(fs, "_resource").value.fields, "_self").None?)
    ensures !ShapeSupplied(fs, url, user, rt).mismatch
    ensures ShapeSupplied(fs, url, user, rt).Shaped? ==>
              var d := ShapeSupplied(fs, url, user, rt).doc;
              Nested(d, "_resource", "_self") == Some(JString(url))
              && forall n :: n != "_self" ==> Nested(d, "_resource", n) == Nested(JObject(fs), "_resource", n)
  {
    var w := WithResource(fs, url, rt);
    var s := ShapeSupplied(fs, url, user, rt);
    var rs := if Lookup(fs, "_resource").None? then [] else Lookup(fs, "_resource").value.fields;
    var filled := Put(rs, "_self", JString(url));
    if Lookup(fs, "_resource").None? {
      ResourceCreated(fs, url, rt);
    } else {
      SelfAdded(fs, rs, url, rt);
    }
    if s.Shaped? {
      ShapedNamesDiffer();
      assert s == WithPermissions(w.doc.fields, user, false);
      assert Lookup(s.doc.fields, "_resource") == Some(JObject(filled));
      forall n | n != "_self" ensures Nested(s.doc, "_resource", n) == Nested(JObject(fs), "_resource", n) {
        assert Nested(s.doc, "_resource", n) == Lookup(filled, n);
      }
    }
  }

  /** What `WithResource` does when `_resource` is missing: it becomes `{_self: url}`. */
  lemma ResourceCreated(fs: seq<Field>, url: string, rt: Runtime)
    requires Lookup(fs, "_resource").None?
    ensures WithResource(fs, url, rt) == Shaped(false, JObject(Put(fs, "_resource", JObject(Put([], "_self", JString(url))))))
  {
    assert Put([], "_self", JString(url)) == [Field("_self", JString(url))];
  }

  /** What `WithResource` does when `_resource` is an object without `_self`: `_self` is put in. */
  lemma SelfAdded(fs: seq<Field>, rs: seq<Field>, url: string, rt: Runtime)
    requires Lookup(fs, "_resource") == Some(JObject(rs)) && Lookup(rs, "_self").None?
    ensures WithResource(fs, url, rt) == Shaped(false, JObject(Put(fs, "_resource", JObject(Put(rs, "_self", JString(url))))))
  {
  }

  /** A `_self` that is present is compared with the resource's URL and never overwritten. */
  lemma SelfChecked(fs: seq<Field>, rs: seq<Field>, self: Json, url: string, user: string, rt: Runtime)
    requires Lookup(fs, "_resource") == Some(JObject(rs)) && Lookup(rs, "_self") == Some(self)
    ensures ShapeSupplied(fs, url, user, rt).mismatch == SelfDiffers(self, url, rt)
    ensures ShapeSupplied(fs, url, user, rt).Shaped? ==> Member(ShapeSupplied(fs, url, user, rt).doc, "_resource") == Some(JObject(rs))
  {
    SelfPresent(fs, rs, self, url, rt);
    var s := ShapeSupplied(fs, url, user, rt);
    assert s == WithPermissions(fs, user, SelfDiffers(self, url, rt));
    if s.Shaped? {
      ShapedNamesDiffer();
      assert Lookup(s.doc.fields, "_resource") == Lookup(fs, "_resource");
    }
  }

  /** What `WithResource` does when `_self` is present: the document is kept and `_self` compared. */
  lemma SelfPresent(fs: seq<Field>, rs: seq<Field>, self: Json, url: string, rt: Runtime)
    requires Lookup(fs, "_resource") == Some(JObject(rs)) && Lookup(rs, "_self") == Some(self)
    ensures WithResource(fs, url, rt) == Shaped(SelfDiffers(self, url, rt), JObject(fs))
  {
  }

  /** An ungoverned (or missing) `_permissions` gets the creator as its only updater and the
      document's top-level read grant, or the creator, as its readers; its other properties are
      kept. */
  lemma CreatorGranted(fs: seq<Field>, url: string, user: string, rt: Runtime)
    requires Lookup(fs, "_permissions").None? || (Lookup(fs, "_permissions").value.JObject? && Ungoverned(Lookup(fs, "_permissions").value.fields))
    requires ShapeSupplied(fs, url, user, rt).Shaped?
    ensures var d := ShapeSupplied(fs, url, user, rt).doc;
            Nested(d, "_permissions", "grantsUpdateAccessTo") == Some(Grant(user))
            && Nested(d, "_permissions", "grantsReadAcessTo") == Some(if TruthyMember(fs, "grantsReadAcessTo") then Lookup(fs, "grantsReadAcessTo").value else Grant(user))
            && forall n :: n != "grantsUpdateAccessTo" && n != "grantsReadAcessTo" ==>
                 Nested(d, "_permissions", n) == Nested(JObject(fs), "_permissions", n)
  {
    var w := WithResource(fs, url, rt);
    var wf := w.doc.fields;
    var d := ShapeSupplied(fs, url, user, rt).doc;
    assert ShapeSupplied(fs, url, user, rt) == WithPermissions(wf, user, w.mismatch);
    ShapedNamesDiffer();
    assert "grantsReadAcessTo"[0] != "_resource"[0];
    assert Lookup(wf, "_permissions") == Lookup(fs, "_permissions");
    assert Lookup(wf, "grantsReadAcessTo") == Lookup(fs, "grantsReadAcessTo");
    var rg := ReadGrant(fs, user);
    assert ReadGrant(wf, user) == rg;
    var base := if Lookup(fs, "_permissions").None? then [] else Lookup(fs, "_permissions").value.fields;
    if Lookup(fs, "_permissions").None? {
      PermissionsCreated(wf, user, w.mismatch);
    } else {
      GrantsAdded(wf, base, user, w.mismatch);
    }
    var g := Put(Put(base, "grantsUpdateAccessTo", Grant(user)), "grantsReadAcessTo", rg);
    assert d == JObject(Put(wf, "_permissions", JObject(g)));
    assert Member(d, "_permissions") == Some(JObject(g));
    GrantLookups(base, user, rg);
    forall n | n != "grantsUpdateAccessTo" && n != "grantsReadAcessTo"
      ensures Nested(d, "_permissions", n) == Nested(JObject(fs), "_permissions", n)
    {
      assert Nested(d, "_permissions", n) == Lookup(g, n);
    }
  }

  /** The two grants put into `base`, and nothing else of it changed. */
  lemma GrantLookups(base: seq<Field>, user: string, rg: Json)
    ensures var g := Put(Put(base, "grantsUpdateAccessTo", Grant(user)), "grantsReadAcessTo", rg);
            Lookup(g, "grantsUpdateAccessTo") == Some(Grant(user)) && Lookup(g, "grantsReadAcessTo") == Some(rg)
            && forall n :: n != "grantsUpdateAccessTo" && n != "grantsReadAcessTo" ==> Lookup(g, n) == Lookup(base, n)
  {
    assert "grantsUpdateAccessTo"[6] != "grantsReadAcessTo"[6];
  }

  /** A `_permissions` that already names an inheritance or an updater is posted as supplied. */
  lemma GovernedKept(fs: seq<Field>, ps: seq<Field>, url: string, user: string, rt: Runtime)
    requires Lookup(fs, "_permissions") == Some(JObject(ps)) && !Ungoverned(ps)
    requires ShapeSupplied(fs, url, user, rt).Shaped?
    ensures Member(ShapeSupplied(fs, url, user, rt).doc, "_permissions") == Some(JObject(ps))
  {
    var w := WithResource(fs, url, rt);
    assert Lookup(w.doc.fields, "_permissions") == Lookup(fs, "_permissions");
  }

  /** Shaping touches only `_resource` and `_permissions`. */
  lemma OthersKept(fs: seq<Field>, url: string, user: string, rt: Runtime)
    requires ShapeSupplied(fs, url, user, rt).Shaped?
    ensures forall n :: n != "_resource" && n != "_permissions" ==> Lookup(ShapeSupplied(fs, url, user, rt).doc.fields, n) == Lookup(fs, n)
  {
    var w := WithResource(fs, url, rt);
    assert ShapeSupplied(fs, url, user, rt) == WithPermissions(w.doc.fields, user, w.mismatch);
  }

}
