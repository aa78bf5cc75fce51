/**
 * JSON values as produced by JSON.stringify / JSON.parse. An object is the
 * sequence of its own properties in key enumeration order, the order
 * JSON.stringify writes them; a JavaScript object has distinct keys, which
 * DistinctKeys states.
 */
module Json {
  import opened Wrappers

  datatype Json =
    | JNull
    | JBool(b: bool)
    | JNumber(n: int)
    | JString(s: string)
    | JArray(items: seq<Json>)
    | JObject(props: seq<Property>)

  datatype Property = Property(key: string, value: Json)

  /** The value a property access `obj[key]` reads: the first property with that key. */
  function Get(props: seq<Property>, key: string): (r: Option<Json>)
    ensures r.Some? <==> exists i :: 0 <= i < |props| && props[i].key == key
    ensures r.Some? ==> exists i :: 0 <= i < |props| && props[i] == Property(key, r.value)
  {
    if props == [] then None
    else if props[0].key == key then Some(props[0].value)
    else Get(props[1..], key)
  }

  /** The first property with a key decides what the key reads as. */
  lemma {:induction false} GetFirst(props: seq<Property>, i: nat, key: string)
    requires i < |props| && props[i].key == key
    requires forall j :: 0 <= j < i ==> props[j].key != key
    ensures Get(props, key) == Some(props[i].value)
  {
    if i > 0 {
      GetFirst(props[1..], i - 1, key);
    }
  }

  /** No two properties of the object share a key, as in any JavaScript object. */
  predicate DistinctKeys(props: seq<Property>) {
    forall i, j :: 0 <= i < j < |props| ==> props[i].key != props[j].key
  }

  /** With distinct keys, a key reads as the value of the one property that has it. */
  lemma GetDistinct(props: seq<Property>, i: nat)
    requires DistinctKeys(props) && i < |props|
    ensures Get(props, props[i].key) == Some(props[i].value)
  {
    GetFirst(props, i, props[i].key);
  }
}
