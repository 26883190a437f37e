/**
 * Insertion-ordered key/value entries: the shape in which a JavaScript `Map`,
 * or an object with non-numeric keys, is iterated.
 */
module Assoc {
  /** Position of the first entry with key `k`, or `|es|` when there is none. */
  function IndexOfKey<K(==), V>(es: seq<(K, V)>, k: K): (i: nat)
    ensures i <= |es|
    ensures i < |es| ==> es[i].0 == k
    ensures forall j :: 0 <= j < i ==> es[j].0 != k
  {
    if es == [] || es[0].0 == k then 0 else 1 + IndexOfKey(es[1..], k)
  }

  /** The conditions `IndexOfKey` promises determine the position. */
  lemma IndexOfKeyIs<K, V>(es: seq<(K, V)>, k: K, i: nat)
    requires i <= |es| && (i < |es| ==> es[i].0 == k)
    requires forall j :: 0 <= j < i ==> es[j].0 != k
    ensures IndexOfKey(es, k) == i
  {
  }
}
