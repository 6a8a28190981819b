/**
 * A JavaScript Map seen as a value: its entries in insertion order, one per key. Setting a key that is present keeps
 * its place; deleting and setting it again moves it to the end.
 */
module OrderedMaps {
  import opened Prelude

  type OrderedMap<K, V> = seq<(K, V)>

  ghost predicate Unique<K, V>(m: OrderedMap<K, V>) {
    forall i, j | 0 <= i < j < |m| :: m[i].0 != m[j].0
  }

  /** Place of a key, or the size when it is absent. */
  function IndexOf<K(==), V>(m: OrderedMap<K, V>, k: K): (i: nat)
    ensures i <= |m|
    ensures i < |m| ==> m[i].0 == k
  {
    if m == [] || m[0].0 == k then 0 else 1 + IndexOf(m[1..], k)
  }

  predicate Has<K(==), V>(m: OrderedMap<K, V>, k: K) {
    IndexOf(m, k) < |m|
  }

  function Get<K(==), V>(m: OrderedMap<K, V>, k: K): Option<V> {
    if Has(m, k) then Some(m[IndexOf(m, k)].1) else None
  }

  function Set<K(==), V>(m: OrderedMap<K, V>, k: K, v: V): OrderedMap<K, V> {
    if Has(m, k) then m[IndexOf(m, k) := (k, v)] else m + [(k, v)]
  }

  function Delete<K(==), V>(m: OrderedMap<K, V>, k: K): OrderedMap<K, V> {
    if Has(m, k) then m[..IndexOf(m, k)] + m[IndexOf(m, k) + 1..] else m
  }

  /** No entry before the place found has the key. */
  lemma {:induction false} NotBefore<K, V>(m: OrderedMap<K, V>, k: K)
    ensures forall j | 0 <= j < IndexOf(m, k) :: m[j].0 != k
    decreases |m|
  {
    if m != [] && m[0].0 != k {
      NotBefore(m[1..], k);
      assert forall j | 1 <= j < IndexOf(m, k) :: m[j] == m[1..][j - 1];
    }
  }

  /** An entry is found at its own place. */
  lemma FoundAt<K, V>(m: OrderedMap<K, V>, i: nat)
    requires Unique(m) && i < |m|
    ensures IndexOf(m, m[i].0) == i && Get(m, m[i].0) == Some(m[i].1)
  {
    NotBefore(m, m[i].0);
  }

  lemma GetAfterSet<K, V>(m: OrderedMap<K, V>, k: K, v: V, other: K)
    requires Unique(m)
    ensures Unique(Set(m, k, v))
    ensures Get(Set(m, k, v), other) == if other == k then Some(v) else Get(m, other)
  {
    var after := Set(m, k, v);
    NotBefore(m, k);
    NotBefore(m, other);
    if Has(m, other) {
      FoundAt(after, IndexOf(m, other));
    } else if other == k {
      FoundAt(after, |m|);
    }
  }

  lemma GetAfterDelete<K, V>(m: OrderedMap<K, V>, k: K, other: K)
    requires Unique(m)
    ensures Unique(Delete(m, k))
    ensures Get(Delete(m, k), other) == if other == k then None else Get(m, other)
  {
    var after := Delete(m, k);
    NotBefore(m, other);
    if Has(m, k) {
      var at := IndexOf(m, k);
      assert forall j | 0 <= j < |after| :: after[j] == if j < at then m[j] else m[j + 1];
      if other != k && Has(m, other) {
        var i := IndexOf(m, other);
        FoundAt(after, if i < at then i else i - 1);
      }
    }
  }
}
