/**
 * An insertion-ordered dictionary: a list of (key, value) entries.
 * It models the containers whose enumeration order the source observes:
 * a JavaScript object with string keys (Object.entries answers in insertion
 * order) and a Redis hash, whose HGETALL order is taken to be insertion order
 * as well (Redis keeps it only for small listpack-encoded hashes).
 * Writing an existing key overwrites it in place; a new key goes to the end.
 */
module OrderedMap {
  import opened Common

  type Assoc<K, V> = seq<(K, V)>

  function Keys<K, V>(m: Assoc<K, V>): (ks: seq<K>)
    ensures |ks| == |m|
    ensures forall i :: 0 <= i < |m| ==> ks[i] == m[i].0
  {
    if m == [] then [] else [m[0].0] + Keys(m[1..])
  }

  /** The value stored under `k`: the first entry with that key. */
  function Get<K(==), V>(m: Assoc<K, V>, k: K): (r: Option<V>)
    ensures r.Some? <==> k in Keys(m)
  {
    if m == [] then None
    else if m[0].0 == k then Some(m[0].1)
    else Get(m[1..], k)
  }

  /** Redis HSET / JavaScript `obj[k] = v`. */
  function Put<K(==,!new), V>(m: Assoc<K, V>, k: K, v: V): (r: Assoc<K, V>)
    ensures Get(r, k) == Some(v)
    ensures forall k' :: k' != k ==> Get(r, k') == Get(m, k')
    ensures k in Keys(m) ==> Keys(r) == Keys(m)
    ensures k !in Keys(m) ==> Keys(r) == Keys(m) + [k]
  {
    if m == [] then [(k, v)]
    else if m[0].0 == k then
      assert Keys([(k, v)] + m[1..]) == [k] + Keys(m[1..]);
      [(k, v)] + m[1..]
    else
      var rest := Put(m[1..], k, v);
      assert ([m[0]] + rest)[1..] == rest;
      [m[0]] + rest
  }

  /** Redis HDEL / JavaScript `delete obj[k]`. */
  function Remove<K(==,!new), V>(m: Assoc<K, V>, k: K): (r: Assoc<K, V>)
    ensures Get(r, k) == None
    ensures forall k' :: k' != k ==> Get(r, k') == Get(m, k')
    ensures Keys(r) == Without(Keys(m), k)
  {
    if m == [] then []
    else if m[0].0 == k then Remove(m[1..], k)
    else [m[0]] + Remove(m[1..], k)
  }

  /** A well-formed dictionary has each key at most once. */
  predicate Valid<K(==), V>(m: Assoc<K, V>) {
    Distinct(Keys(m))
  }

  lemma PutKeepsValid<K(!new), V>(m: Assoc<K, V>, k: K, v: V)
    requires Valid(m)
    ensures Valid(Put(m, k, v))
  {
    var ks, rs := Keys(m), Keys(Put(m, k, v));
    if k !in ks {
      assert rs == ks + [k];
      forall i, j | 0 <= i < j < |rs|
        ensures rs[i] != rs[j]
      {
        if j == |ks| {
          assert rs[i] == ks[i];
        }
      }
    }
  }

  lemma RemoveKeepsValid<K(!new), V>(m: Assoc<K, V>, k: K)
    requires Valid(m)
    ensures Valid(Remove(m, k))
  {
    WithoutKeepsDistinct(Keys(m), k);
  }

  /** In a well-formed dictionary each entry is what `Get` finds under its key. */
  lemma {:induction false} GetEntry<K, V>(m: Assoc<K, V>, i: nat)
    requires Valid(m) && i < |m|
    ensures Get(m, m[i].0) == Some(m[i].1)
  {
    if i > 0 {
      assert Keys(m)[0] != Keys(m)[i];
      assert Keys(m[1..]) == Keys(m)[1..];
      GetEntry(m[1..], i - 1);
    }
  }

  /** Putting a key that is already present does not change the number of entries. */
  lemma {:induction false} PutSize<K(!new), V>(m: Assoc<K, V>, k: K, v: V)
    ensures |Put(m, k, v)| == if k in Keys(m) then |m| else |m| + 1
  {
    assert |Keys(Put(m, k, v))| == |Put(m, k, v)|;
  }
}
