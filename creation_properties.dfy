/**
  `setStandardCreationProperties(req, resource, user)`: stamps `creator`, `modifier`, `created`
  and `modified` on a resource being created, refusing the first of them that the client has
  already set to a truthy value. The stamps are written one at a time, so a refusal leaves the
  earlier stamps in place. The clock reading (`new Date().toISOString()`) is the parameter `now`.
 */
module CreationProperties {
  import opened Wrappers
  import opened JsonValues
  import opened JsObjects

  /** How many creation properties there are. */
  const KeyCount: nat := 4

  /** The creation properties, in the order they are checked and stamped. */
  function Key(i: nat): string
    requires i < KeyCount
  {
    if i == 0 then "creator" else if i == 1 then "modifier" else if i == 2 then "created" else "modified"
  }

  /** The value stamped under the `i`-th key: the user for the first two, the time for the last two
      (`modified` copies `created`, which has just been set to the time). */
  function StampValue(i: nat, user: Json, now: string): Json
    requires i < KeyCount
  {
    if i < 2 then user else JString(now)
  }

  /** The resource with the first `n` keys stamped. */
  function StampedUpTo(fs: seq<Field>, n: nat, user: Json, now: string): seq<Field>
    requires n <= KeyCount
  {
    if n == 0 then fs else Put(StampedUpTo(fs, n - 1, user, now), Key(n - 1), StampValue(n - 1, user, now))
  }

  /** The index of the first key, from `i` on, that the resource sets to a truthy value (4 when none). */
  function FirstTruthy(fs: seq<Field>, i: nat): (r: nat)
    requires i <= KeyCount
    ensures i <= r <= KeyCount
    ensures r < KeyCount ==> TruthyMember(fs, Key(r))
    ensures forall j :: i <= j < r ==> !TruthyMember(fs, Key(j))
    decreases KeyCount - i
  {
    if i == KeyCount then i
    else if TruthyMember(fs, Key(i)) then i
    else
      var r := FirstTruthy(fs, i + 1);
      assert forall j :: i <= j < r ==> !TruthyMember(fs, Key(j)) by {
        forall j | i <= j < r ensures !TruthyMember(fs, Key(j)) {
          if j == i {
            assert !TruthyMember(fs, Key(i));
          }
        }
      }
      r
  }

  /** The resource's fields afterwards, and the refusal returned (None for `null`). */
  datatype Stamping = Stamping(fields: seq<Field>, refusal: Option<string>)

  /** The reference outcome: stamp every key before the first truthy one, and refuse that one. */
  function Stamped(fs: seq<Field>, user: Json, now: string): (r: Stamping)
    ensures r.refusal.None? <==> forall k :: 0 <= k < KeyCount ==> !TruthyMember(fs, Key(k))
    ensures r.refusal.Some? ==>
              exists i :: 0 <= i < KeyCount && TruthyMember(fs, Key(i)) && r.refusal.value == Refusal(i)
  {
    var i := FirstTruthy(fs, 0);
    Stamping(StampedUpTo(fs, i, user, now), if i < KeyCount then Some(Refusal(i)) else None)
  }

  /** The text returned when the `i`-th key is refused. */
  function Refusal(i: nat): string
    requires i < KeyCount
  {
    "may not set " + Key(i)
  }

  lemma KeysDistinct(i: nat, j: nat)
    requires i < j < KeyCount
    ensures Key(i) != Key(j)
  {
    assert Key(i)[|Key(i)| - 1] != Key(j)[|Key(j)| - 1] || Key(i)[2] != Key(j)[2]
        || |Key(i)| != |Key(j)|;
  }

  lemma StampStep(fs: seq<Field>, n: nat, user: Json, now: string)
    requires 0 < n <= KeyCount
    ensures StampedUpTo(fs, n, user, now) == Put(StampedUpTo(fs, n - 1, user, now), Key(n - 1), StampValue(n - 1, user, now))
  {
  }

  lemma LookupPutOther(fs: seq<Field>, name: string, v: Json, other: string)
    requires other != name
    ensures Lookup(Put(fs, name, v), other) == Lookup(fs, other)
  {
  }

  /** Each of the first `n` keys holds its stamp. */
  lemma {:induction false} StampedKey(fs: seq<Field>, n: nat, user: Json, now: string, k: nat)
    requires k < n <= KeyCount
    ensures Lookup(StampedUpTo(fs, n, user, now), Key(k)) == Some(StampValue(k, user, now))
  {
    StampStep(fs, n, user, now);
    if k < n - 1 {
      StampedKey(fs, n - 1, user, now, k);
      KeysDistinct(k, n - 1);
    }
  }

  /** Any other property keeps the client's value. */
  lemma {:induction false} UnstampedName(fs: seq<Field>, n: nat, user: Json, now: string, name: string)
    requires n <= KeyCount
    requires forall k :: 0 <= k < n ==> name != Key(k)
    ensures Lookup(StampedUpTo(fs, n, user, now), name) == Lookup(fs, name)
  {
    if n > 0 {
      StampStep(fs, n, user, now);
      UnstampedName(fs, n - 1, user, now, name);
      LookupPutOther(StampedUpTo(fs, n - 1, user, now), Key(n - 1), StampValue(n - 1, user, now), name);
    }
  }

  /** A key not yet stamped still has the client's value. */
  lemma Unstamped(fs: seq<Field>, n: nat, user: Json, now: string, i: nat)
    requires n <= i < KeyCount
    ensures Lookup(StampedUpTo(fs, n, user, now), Key(i)) == Lookup(fs, Key(i))
  {
    forall k | 0 <= k < n ensures Key(i) != Key(k) {
      KeysDistinct(k, i);
    }
    UnstampedName(fs, n, user, now, Key(i));
  }

  /** The refusal at the `k`-th key, reached with the earlier keys stamped. */
  lemma RefuseAt(fs: seq<Field>, k: nat, user: Json, now: string)
    requires k < KeyCount
    requires forall j :: 0 <= j < k ==> !TruthyMember(fs, Key(j))
    requires TruthyMember(StampedUpTo(fs, k, user, now), Key(k))
    ensures Stamped(fs, user, now) == Stamping(StampedUpTo(fs, k, user, now), Some(Refusal(k)))
  {
    Unstamped(fs, k, user, now, k);
  }

  /** Passing the check of the `k`-th key extends what is known to be falsy. */
  lemma PassAt(fs: seq<Field>, k: nat, user: Json, now: string)
    requires k < KeyCount
    requires forall j :: 0 <= j < k ==> !TruthyMember(fs, Key(j))
    requires !TruthyMember(StampedUpTo(fs, k, user, now), Key(k))
    ensures forall j :: 0 <= j < k + 1 ==> !TruthyMember(fs, Key(j))
  {
    Unstamped(fs, k, user, now, k);
  }

  /** Stamping all four keys when none was refused. */
  lemma AcceptAll(fs: seq<Field>, user: Json, now: string)
    requires forall j :: 0 <= j < KeyCount ==> !TruthyMember(fs, Key(j))
    ensures Stamped(fs, user, now) == Stamping(StampedUpTo(fs, KeyCount, user, now), None)
  {
  }

  /** One check-and-stamp step: refuse when the key is truthy, otherwise set it to `value`. */
  method CheckAndStamp(resource: ObjectRef, key: string, value: Json) returns (refused: bool)
    modifies resource
    ensures refused == TruthyMember(old(resource.fields), key)
    ensures resource.fields == if refused then old(resource.fields) else Put(old(resource.fields), key, value)
  {
    refused := resource.IsTruthy(key);
    if !refused {
      resource.Set(key, value);
    }
  }

  /** `setStandardCreationProperties`: checks and stamps the four keys one after the other on the
      caller's object, returning at the first refusal. */
  method SetStandardCreationProperties(resource: ObjectRef, user: Json, now: string) returns (refusal: Option<string>)
    modifies resource
    ensures Stamping(resource.fields, refusal) == Stamped(old(resource.fields), user, now)
  {
    ghost var fs := resource.fields;
    var refused := CheckAndStamp(resource, "creator", user);
    if refused {
      RefuseAt(fs, 0, user, now);
      return Some(Refusal(0));
    }
    PassAt(fs, 0, user, now);
    StampStep(fs, 1, user, now);
    refused := CheckAndStamp(resource, "modifier", user);
    if refused {
      RefuseAt(fs, 1, user, now);
      return Some(Refusal(1));
    }
    PassAt(fs, 1, user, now);
    StampStep(fs, 2, user, now);
    refused := CheckAndStamp(resource, "created", JString(now));
    if refused {
      RefuseAt(fs, 2, user, now);
      return Some(Refusal(2));
    }
    PassAt(fs, 2, user, now);
    StampStep(fs, 3, user, now);
    refused := CheckAndStamp(resource, "modified", resource.Get("created").value);
    if refused {
      RefuseAt(fs, 3, user, now);
      return Some(Refusal(3));
    }
    PassAt(fs, 3, user, now);
    StampStep(fs, 4, user, now);
    AcceptAll(fs, user, now);
    return None;
  }

  /** When none of the four keys is truthy, all four are stamped, nothing else changes, and no
      refusal is returned; otherwise a refusal is returned. */
  lemma StampsAll(fs: seq<Field>, user: Json, now: string)
    ensures Stamped(fs, user, now).refusal.None? <==> forall k :: 0 <= k < KeyCount ==> !TruthyMember(fs, Key(k))
    ensures Stamped(fs, user, now).refusal.None? ==>
              var r := Stamped(fs, user, now).fields;
              Lookup(r, "creator") == Some(user) && Lookup(r, "modifier") == Some(user)
              && Lookup(r, "created") == Some(JString(now)) && Lookup(r, "modified") == Some(JString(now))
              && forall name :: (forall k :: 0 <= k < KeyCount ==> name != Key(k)) ==> Lookup(r, name) == Lookup(fs, name)
  {
    var i := FirstTruthy(fs, 0);
    if i == KeyCount {
      AllStamped(fs, i, user, now);
    }
  }

  /** The four stamps once all keys are stamped (`n` is `KeyCount`, passed as a variable so that
      the unfolding of `StampedUpTo` stays in the helper lemmas). */
  lemma AllStamped(fs: seq<Field>, n: nat, user: Json, now: string)
    requires n == KeyCount
    ensures var r := StampedUpTo(fs, n, user, now);
            Lookup(r, "creator") == Some(user) && Lookup(r, "modifier") == Some(user)
            && Lookup(r, "created") == Some(JString(now)) && Lookup(r, "modified") == Some(JString(now))
            && forall name :: (forall k :: 0 <= k < KeyCount ==> name != Key(k)) ==> Lookup(r, name) == Lookup(fs, name)
  {
    var r := StampedUpTo(fs, n, user, now);
    forall name | forall k :: 0 <= k < KeyCount ==> name != Key(k)
      ensures Lookup(r, name) == Lookup(fs, name)
    {
      UnstampedName(fs, n, user, now, name);
    }
    FourStamps(fs, n, user, now);
  }

  /** The four keys hold their stamps once all are stamped. */
  lemma FourStamps(fs: seq<Field>, n: nat, user: Json, now: string)
    requires n == KeyCount
    ensures var r := StampedUpTo(fs, n, user, now);
            Lookup(r, "creator") == Some(user) && Lookup(r, "modifier") == Some(user)
            && Lookup(r, "created") == Some(JString(now)) && Lookup(r, "modified") == Some(JString(now))
  {
    StampedKey(fs, n, user, now, 0);
    StampedKey(fs, n, user, now, 1);
    StampedKey(fs, n, user, now, 2);
    StampedKey(fs, n, user, now, 3);
  }

  /** A refusal names the first truthy key; the keys checked before it have been stamped, and it
      and every later key keep the values the client gave. */
  lemma RefusesFirstTruthy(fs: seq<Field>, user: Json, now: string, i: nat)
    requires i < KeyCount && TruthyMember(fs, Key(i))
    requires forall j :: 0 <= j < i ==> !TruthyMember(fs, Key(j))
    ensures Stamped(fs, user, now).refusal == Some(Refusal(i))
    ensures forall k :: 0 <= k < i ==> Lookup(Stamped(fs, user, now).fields, Key(k)) == Some(StampValue(k, user, now))
    ensures forall k :: i <= k < KeyCount ==> Lookup(Stamped(fs, user, now).fields, Key(k)) == Lookup(fs, Key(k))
  {
    var f := FirstTruthy(fs, 0);
    assert f == i;
    forall k | 0 <= k < i
      ensures Lookup(StampedUpTo(fs, i, user, now), Key(k)) == Some(StampValue(k, user, now))
    {
      StampedKey(fs, i, user, now, k);
    }
    forall k | i <= k < KeyCount
      ensures Lookup(StampedUpTo(fs, i, user, now), Key(k)) == Lookup(fs, Key(k))
    {
      Unstamped(fs, i, user, now, k);
    }
  }
}
