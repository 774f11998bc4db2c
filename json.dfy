/**
 * JSON value trees, and the tree that `json_encode` produces for a PHP value.
 * The model stops at the tree: the byte-level text and its escaping are not
 * part of it.
 */
module Json {
  import opened Wrappers
  import opened Php

  datatype Json =
    | JNull
    | JBool(b: bool)
    | JNumber(n: int)
    | JString(s: string)
    | JArray(items: seq<Json>)
    | JObject(members: seq<(string, Json)>)

  /** The member names of an object (or the keys of an array), in order. */
  function Names<K, V>(ms: seq<(K, V)>): (ns: seq<K>)
    ensures |ns| == |ms|
    ensures forall i :: 0 <= i < |ms| ==> ns[i] == ms[i].0
  {
    seq(|ms|, i requires 0 <= i < |ms| => ms[i].0)
  }

  /** The value of the first member called `name`. */
  function Lookup(ms: seq<(string, Json)>, name: string): (r: Option<Json>)
    ensures r.Some? <==> name in Names(ms)
  {
    if |ms| == 0 then None
    else if ms[0].0 == name then Some(ms[0].1)
    else Lookup(ms[1..], name)
  }

  /** In an object whose member names are distinct, each name finds its own member. */
  lemma {:induction false} LookupDistinct(ms: seq<(string, Json)>, i: nat)
    requires i < |ms|
    requires forall a, b :: 0 <= a < b < |ms| ==> ms[a].0 != ms[b].0
    ensures Lookup(ms, ms[i].0) == Some(ms[i].1)
  {
    if i > 0 {
      LookupDistinct(ms[1..], i - 1);
    }
  }

  /** The member `name` of an object; nothing for any other kind of value. */
  function Get(j: Json, name: string): Option<Json>
  {
    if j.JObject? then Lookup(j.members, name) else None
  }

  /**
   * The tree `json_encode` builds: a list array becomes a JSON array, every
   * other array an object whose member names are the keys' spellings, and
   * `stdClass` an object.
   */
  function FromPhp(v: Value): (j: Json)
    decreases v
  {
    match v
    case Null => JNull
    case Bool(b) => JBool(b)
    case Int(n) => JNumber(n)
    case Str(s) => JString(s)
    case EmptyObject => JObject([])
    case Arr(es) =>
      if IsList(es) then JArray(seq(|es|, i requires 0 <= i < |es| => FromPhp(es[i].1)))
      else JObject(seq(|es|, i requires 0 <= i < |es| => (KeyString(es[i].0), FromPhp(es[i].1))))
  }

  /** An array whose first key is a string key is encoded as an object. */
  lemma FromPhpAssoc(es: seq<(Key, Value)>)
    requires |es| > 0 && es[0].0.StrKey?
    ensures FromPhp(Arr(es)).JObject?
    ensures Names(FromPhp(Arr(es)).members) == seq(|es|, i requires 0 <= i < |es| => KeyString(es[i].0))
    ensures forall i :: 0 <= i < |es| ==> FromPhp(Arr(es)).members[i].1 == FromPhp(es[i].1)
  {
    assert !IsList(es);
  }

  /** A one-entry array is a list exactly when its key is 0. */
  lemma SingleEntryEncoding(k: Key, v: Value)
    ensures FromPhp(Arr([(k, v)])) == if k == IntKey(0) then JArray([FromPhp(v)]) else JObject([(KeyString(k), FromPhp(v))])
  {
    var es := [(k, v)];
    assert IsList(es) <==> k == IntKey(0);
    if k == IntKey(0) {
      assert FromPhp(Arr(es)).items == [FromPhp(v)];
    } else {
      assert FromPhp(Arr(es)).members == [(KeyString(k), FromPhp(v))];
    }
  }

  /**
   * The only PHP value that becomes the empty JSON array is the empty PHP
   * array, and the only one that becomes the empty JSON object is `stdClass`:
   * this is why the formatter swaps empty keyed data for `stdClass`.
   */
  lemma EmptyEncodings(v: Value)
    ensures FromPhp(v) == JArray([]) <==> v == Arr([])
    ensures FromPhp(v) == JObject([]) <==> v == EmptyObject
  {
    if v.Arr? && |v.entries| > 0 {
      if IsList(v.entries) {
        assert |FromPhp(v).items| > 0;
      } else {
        assert |FromPhp(v).members| > 0;
      }
    }
  }
}
