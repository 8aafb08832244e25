/** A map as a list of entries in key order, and back. */
module Listings {
  import opened Sorting

  datatype Entry<K, V> = Entry(key: K, value: V)

  /** The entries of a map in a given order of its keys. */
  function Entries<K(==), V>(m: map<K, V>, keys: seq<K>): (entries: seq<Entry<K, V>>)
    requires forall k <- keys :: k in m
    ensures |entries| == |keys|
  {
    if keys == [] then [] else [Entry(keys[0], m[keys[0]])] + Entries(m, keys[1..])
  }

  lemma {:induction false} EntryAt<K, V>(m: map<K, V>, keys: seq<K>, i: nat)
    requires forall k <- keys :: k in m
    requires i < |keys|
    ensures Entries(m, keys)[i] == Entry(keys[i], m[keys[i]])
  {
    if i > 0 {
      EntryAt(m, keys[1..], i - 1);
    }
  }

  lemma {:induction false} EntriesDetermine<K, V>(m: map<K, V>, n: map<K, V>, keys: seq<K>, keys': seq<K>)
    requires (forall k <- keys :: k in m) && (forall k <- keys' :: k in n)
    requires Entries(m, keys) == Entries(n, keys')
    ensures keys == keys' && forall k <- keys :: m[k] == n[k]
  {
    if keys != [] {
      assert |Entries(n, keys')| == |keys'|;
      var e, f := Entries(m, keys), Entries(n, keys');
      assert e[0] == f[0] && e[1..] == Entries(m, keys[1..]) && f[1..] == Entries(n, keys'[1..]);
      EntriesDetermine(m, n, keys[1..], keys'[1..]);
      assert keys == [keys[0]] + keys[1..] && keys' == [keys'[0]] + keys'[1..];
    }
  }

  /** The entries of a map, sorted by key. */
  function SortedEntries<K(!new, ==), V>(m: map<K, V>, before: (K, K) -> bool): seq<Entry<K, V>>
    requires StrictOrder(before)
  {
    Entries(m, SortedList(m.Keys, before))
  }

  lemma ListedBy<K(!new), V>(m: map<K, V>, keys: seq<K>, before: (K, K) -> bool)
    requires StrictOrder(before) && Lists(keys, m.Keys, before)
    ensures SortedEntries(m, before) == Entries(m, keys)
  {
    ListingUnique(keys, SortedList(m.Keys, before), m.Keys, before);
  }

  lemma SortedEntriesDetermine<K(!new), V>(m: map<K, V>, n: map<K, V>, before: (K, K) -> bool)
    requires StrictOrder(before) && SortedEntries(m, before) == SortedEntries(n, before)
    ensures m == n
  {
    hide StrictOrder, Sorted, Entries;
    EntriesDetermine(m, n, SortedList(m.Keys, before), SortedList(n.Keys, before));
    assert forall k :: k in m.Keys <==> k in n.Keys;
  }

  lemma Listing<K(!new), V>(m: map<K, V>, before: (K, K) -> bool) returns (keys: seq<K>)
    requires StrictOrder(before)
    ensures |SortedEntries(m, before)| == |keys| == |m| && (forall k :: k in keys <==> k in m)
    ensures forall i :: 0 <= i < |keys| ==> keys[i] in m && SortedEntries(m, before)[i] == Entry(keys[i], m[keys[i]])
    ensures forall i, j :: 0 <= i < j < |keys| ==> before(keys[i], keys[j]) && keys[i] != keys[j]
  {
    keys := SortedList(m.Keys, before);
    forall i | 0 <= i < |keys|
      ensures SortedEntries(m, before)[i] == Entry(keys[i], m[keys[i]])
    {
      EntryAt(m, keys, i);
    }
  }

  // ----- back to a map -----

  predicate DistinctKeys<K(==), V>(entries: seq<Entry<K, V>>) {
    forall i, j :: 0 <= i < j < |entries| ==> entries[i].key != entries[j].key
  }

  ghost predicate InOrder<K, V>(entries: seq<Entry<K, V>>, before: (K, K) -> bool) {
    forall i, j :: 0 <= i < j < |entries| ==> before(entries[i].key, entries[j].key)
  }

  /** What the entries say; of entries with one key, the last. */
  function MapOf<K(==), V>(entries: seq<Entry<K, V>>): map<K, V> {
    if entries == [] then map[]
    else MapOf(entries[..|entries| - 1])[entries[|entries| - 1].key := entries[|entries| - 1].value]
  }

  ghost predicate HasKey<K, V>(entries: seq<Entry<K, V>>, k: K) {
    exists i :: 0 <= i < |entries| && entries[i].key == k
  }

  lemma {:induction false} MapKeys<K, V>(entries: seq<Entry<K, V>>, k: K)
    ensures k in MapOf(entries) <==> HasKey(entries, k)
  {
    if entries != [] {
      var front := entries[..|entries| - 1];
      MapKeys(front, k);
      if HasKey(front, k) {
        var i :| 0 <= i < |front| && front[i].key == k;
        assert entries[i].key == k;
      }
      if i :| 0 <= i < |entries| && entries[i].key == k {
        assert i < |front| ==> front[i].key == k;
      }
    }
  }

  lemma {:induction false} MapAt<K, V>(entries: seq<Entry<K, V>>, i: nat)
    requires DistinctKeys(entries) && i < |entries|
    ensures entries[i].key in MapOf(entries) && MapOf(entries)[entries[i].key] == entries[i].value
  {
    if i < |entries| - 1 {
      MapAt(entries[..|entries| - 1], i);
    }
  }

  /** Listing a map and reading the list back gives the map. */
  lemma MapOfSorted<K(!new), V>(m: map<K, V>, before: (K, K) -> bool)
    requires StrictOrder(before)
    ensures DistinctKeys(SortedEntries(m, before)) && MapOf(SortedEntries(m, before)) == m
  {
    hide SortedEntries, MapOf, StrictOrder;
    var entries := SortedEntries(m, before);
    var keys := Listing(m, before);
    forall k
      ensures k in m <==> k in MapOf(entries)
      ensures k in m ==> MapOf(entries)[k] == m[k]
    {
      MapKeys(entries, k);
      if k in m {
        var i :| 0 <= i < |keys| && keys[i] == k;
        MapAt(entries, i);
      }
    }
  }

  /** Reading a list in order and listing the result gives the list. */
  lemma SortedOfMap<K(!new), V>(entries: seq<Entry<K, V>>, before: (K, K) -> bool)
    requires StrictOrder(before) && InOrder(entries, before)
    ensures DistinctKeys(entries) && SortedEntries(MapOf(entries), before) == entries
  {
    var m := MapOf(entries);
    var keys: seq<K> := seq(|entries|, i requires 0 <= i < |entries| => entries[i].key);
    assert DistinctKeys(entries);
    hide SortedEntries, MapOf, StrictOrder, Entries;
    forall k
      ensures k in keys <==> k in m.Keys
    {
      MapKeys(entries, k);
      if k in m {
        var i :| 0 <= i < |entries| && entries[i].key == k;
        assert keys[i] == k;
      }
    }
    ListedBy(m, keys, before);
    forall i | 0 <= i < |entries|
      ensures Entries(m, keys)[i] == entries[i]
    {
      EntryAt(m, keys, i);
      MapAt(entries, i);
    }
  }

  lemma SortedInOrder<K(!new), V>(m: map<K, V>, before: (K, K) -> bool)
    requires StrictOrder(before)
    ensures InOrder(SortedEntries(m, before), before)
  {
    hide SortedEntries;
    var keys := Listing(m, before);
  }

  /** Whether the next key has been met decides whether the list is still free of repetitions. */
  lemma KeyMet<K, V>(entries: seq<Entry<K, V>>, i: nat)
    requires i < |entries| && DistinctKeys(entries[..i])
    ensures MapOf(entries[..i + 1]) == MapOf(entries[..i])[entries[i].key := entries[i].value]
    ensures if entries[i].key in MapOf(entries[..i]) then !DistinctKeys(entries) else DistinctKeys(entries[..i + 1])
  {
    assert entries[..i + 1][..i] == entries[..i];
    MapKeys(entries[..i], entries[i].key);
    if entries[i].key in MapOf(entries[..i]) {
      var j :| 0 <= j < i && entries[..i][j].key == entries[i].key;
      assert entries[j].key == entries[i].key;
    } else {
      assert forall j :: 0 <= j < i ==> entries[..i][j] == entries[j];
    }
  }

  lemma NothingListed<K, V>()
    ensures MapOf<K, V>([]) == map[] && DistinctKeys<K, V>([])
  {
  }

  /** Entries into a map one by one, stopping at a key met twice. */
  method Collect<K(==), V>(entries: seq<Entry<K, V>>) returns (m: map<K, V>, distinct: bool)
    ensures distinct == DistinctKeys(entries)
    ensures distinct ==> m == MapOf(entries)
  {
    hide MapOf, DistinctKeys;
    NothingListed<K, V>();
    m := map[];
    for i := 0 to |entries|
      invariant m == MapOf(entries[..i]) && DistinctKeys(entries[..i])
    {
      KeyMet(entries, i);
      if entries[i].key in m { return m, false; }
      m := m[entries[i].key := entries[i].value];
    }
    assert entries[..|entries|] == entries;
    return m, true;
  }
}
