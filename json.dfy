/** JSON values as the resources emit them: objects keep their keys in order. */
module Json {
  import opened Wrappers

  datatype Json =
    | JNull
    | JInt(i: int)
    | JString(s: string)
    | JArray(items: seq<Json>)
    | JObject(fields: seq<(string, Json)>)

  /** The keys of an object, in order. */
  function Keys(fields: seq<(string, Json)>): (ks: seq<string>)
    ensures |ks| == |fields|
    ensures forall i :: 0 <= i < |fields| ==> ks[i] == fields[i].0
  {
    seq(|fields|, i requires 0 <= i < |fields| => fields[i].0)
  }

  /** The value under the first occurrence of a key. */
  function Lookup(fields: seq<(string, Json)>, key: string): Option<Json> {
    if fields == [] then None
    else if fields[0].0 == key then Some(fields[0].1)
    else Lookup(fields[1..], key)
  }

  /** The value under a key of an object. */
  function Get(j: Json, key: string): Option<Json> {
    if j.JObject? then Lookup(j.fields, key) else None
  }

  /** The keys of a concatenation are the keys of its parts. */
  lemma KeysAppend(a: seq<(string, Json)>, b: seq<(string, Json)>)
    ensures Keys(a + b) == Keys(a) + Keys(b)
  {
  }

  /** A lookup in a non-empty object checks the first key, then the rest. */
  lemma LookupCons(key: string, v: Json, rest: seq<(string, Json)>, k: string)
    ensures Lookup([(key, v)] + rest, k) == if key == k then Some(v) else Lookup(rest, k)
  {
    assert ([(key, v)] + rest)[1..] == rest;
  }

  /** A lookup in a concatenation looks in the first part, then in the second. */
  lemma {:induction false} LookupAppend(a: seq<(string, Json)>, b: seq<(string, Json)>, key: string)
    ensures Lookup(a + b, key) == if key in Keys(a) then Lookup(a, key) else Lookup(b, key)
  {
    if a == [] {
      assert a + b == b;
    } else {
      assert (a + b)[1..] == a[1..] + b;
      assert Keys(a) == [a[0].0] + Keys(a[1..]);
      LookupAppend(a[1..], b, key);
    }
  }

  /** A key that is not among the keys is absent. */
  lemma {:induction false} LookupAbsent(fields: seq<(string, Json)>, key: string)
    requires key !in Keys(fields)
    ensures Lookup(fields, key) == None
  {
    if fields != [] {
      assert Keys(fields) == [fields[0].0] + Keys(fields[1..]);
      LookupAbsent(fields[1..], key);
    }
  }

  /** A key bound to one value wherever it occurs is looked up to that value. */
  lemma {:induction false} LookupBound(fields: seq<(string, Json)>, key: string, v: Json)
    requires (key, v) in fields
    requires forall i :: 0 <= i < |fields| && fields[i].0 == key ==> fields[i].1 == v
    ensures Lookup(fields, key) == Some(v)
  {
    if fields[0].0 != key {
      assert (key, v) in fields[1..];
      LookupBound(fields[1..], key, v);
    }
  }
}
