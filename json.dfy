/**
 * Parsed JSON values as the merge engine sees them, and the few JavaScript
 * property operations it applies to plain objects: reading `obj[key]`,
 * `delete obj[key]` and `obj[key] = value`.
 */
module JsonValues {
  import opened Wrappers

  /** A JSON value. An object keeps its members in insertion order, which is
      the order `for...in` and `JSON.stringify` visit them. */
  datatype Json =
    | Null
    | Bool(b: bool)
    | Num(n: int)
    | Str(s: string)
    | Obj(fields: seq<Field>)

  type Field = (string, Json)

  /** The keys of an object, in order. */
  function Keys(fields: seq<Field>): (ks: seq<string>)
    ensures |ks| == |fields|
    ensures forall i :: 0 <= i < |fields| ==> ks[i] == fields[i].0
  {
    if fields == [] then [] else [fields[0].0] + Keys(fields[1..])
  }

  /** A JavaScript object never holds two members with the same key. */
  predicate DistinctKeys(fields: seq<Field>)
  {
    forall i, j :: 0 <= i < j < |fields| ==> fields[i].0 != fields[j].0
  }

  /** Distinct keys at every nesting level: every value `JSON.parse` produces. */
  predicate WellFormed(j: Json)
  {
    match j
    case Obj(fields) =>
      DistinctKeys(fields) && forall i :: 0 <= i < |fields| ==> WellFormed(fields[i].1)
    case _ => true
  }

  /** `obj[key]`: the value stored under `key`, or None for `undefined`. */
  function Lookup(fields: seq<Field>, key: string): (r: Option<Json>)
    ensures r.None? <==> forall i :: 0 <= i < |fields| ==> fields[i].0 != key
    ensures r.Some? ==> exists i :: 0 <= i < |fields| && fields[i] == (key, r.value)
  {
    if fields == [] then None
    else if fields[0].0 == key then Some(fields[0].1)
    else
      var r := Lookup(fields[1..], key);
      assert r.Some? ==> fields[1..][0] in fields;
      r
  }

  lemma LookupDistinct(fields: seq<Field>, i: nat)
    requires DistinctKeys(fields) && i < |fields|
    ensures Lookup(fields, fields[i].0) == Some(fields[i].1)
  {
  }

  /** `delete obj[key]`: every member named `key` is gone, the others keep their order. */
  function Remove(fields: seq<Field>, key: string): (r: seq<Field>)
    ensures forall i :: 0 <= i < |r| ==> r[i].0 != key && r[i] in fields
    ensures forall f :: f in fields && f.0 != key ==> f in r
    ensures |r| <= |fields| && (fields != [] && fields[0].0 == key ==> |r| < |fields|)
  {
    if fields == [] then []
    else if fields[0].0 == key then Remove(fields[1..], key)
    else [fields[0]] + Remove(fields[1..], key)
  }

  lemma DistinctTail(fields: seq<Field>)
    requires fields != [] && DistinctKeys(fields)
    ensures DistinctKeys(fields[1..])
    ensures forall k :: 0 <= k < |fields[1..]| ==> fields[1..][k].0 != fields[0].0
  {
    forall a, b | 0 <= a < b < |fields[1..]| ensures fields[1..][a].0 != fields[1..][b].0 {
      assert fields[1..][a] == fields[a + 1] && fields[1..][b] == fields[b + 1];
    }
    forall k | 0 <= k < |fields[1..]| ensures fields[1..][k].0 != fields[0].0 {
      assert fields[1..][k] == fields[k + 1];
    }
  }

  /** Deleting a key the object does not have changes nothing. */
  lemma {:induction false} RemoveAbsent(fields: seq<Field>, key: string)
    requires forall i :: 0 <= i < |fields| ==> fields[i].0 != key
    ensures Remove(fields, key) == fields
  {
    if fields != [] {
      assert forall k :: 0 <= k < |fields[1..]| ==> fields[1..][k] == fields[k + 1];
      RemoveAbsent(fields[1..], key);
      assert fields == [fields[0]] + fields[1..];
    }
  }

  /** In an object with distinct keys, `delete` takes out exactly the member
      with the key and keeps the others in their order. */
  lemma {:induction false} RemoveAt(fields: seq<Field>, key: string, i: nat)
    requires DistinctKeys(fields) && i < |fields| && fields[i].0 == key
    ensures Remove(fields, key) == fields[..i] + fields[i + 1..]
  {
    DistinctTail(fields);
    if i == 0 {
      RemoveAbsent(fields[1..], key);
    } else {
      RemoveAt(fields[1..], key, i - 1);
      assert fields[1..][..i - 1] == fields[1..i];
      assert fields[1..][i..] == fields[i + 1..];
      assert fields[..i] == [fields[0]] + fields[1..i];
    }
  }

  /** `obj[key] = value`: an existing member is overwritten where it stands,
      a new key is appended at the end. */
  function Assign(fields: seq<Field>, key: string, value: Json): (r: seq<Field>)
    ensures (forall i :: 0 <= i < |fields| ==> fields[i].0 != key) ==> r == fields + [(key, value)]
  {
    if fields == [] then [(key, value)]
    else if fields[0].0 == key then [(key, value)] + fields[1..]
    else [fields[0]] + Assign(fields[1..], key, value)
  }

  /** JavaScript truthiness of `obj[key]`: `undefined`, `null`, `false`, `0`
      and `""` are falsy, every object is truthy. */
  predicate Truthy(v: Option<Json>)
  {
    match v
    case None => false
    case Some(Null) => false
    case Some(Bool(b)) => b
    case Some(Num(n)) => n != 0
    case Some(Str(s)) => s != ""
    case Some(Obj(_)) => true
  }
}
