/** Byte order, and the one sorted listing of a finite set. */
module Sorting {
  import opened Types

  /** Lexicographic order of byte strings (`cmp` on arrays). */
  predicate BytesBefore(a: Bytes, b: Bytes) {
    if a == [] then b != []
    else b != [] && (a[0] < b[0] || (a[0] == b[0] && BytesBefore(a[1..], b[1..])))
  }

  /** Decided by the first place where they differ; a string comes after its own beginnings. */
  ghost predicate DiffersAt(a: Bytes, b: Bytes, k: nat) {
    k <= |a| && k < |b| && a[..k] == b[..k] && (k < |a| ==> a[k] < b[k])
  }

  lemma {:induction false} BytesBeforeExactly(a: Bytes, b: Bytes)
    ensures BytesBefore(a, b) <==> exists k :: 0 <= k && DiffersAt(a, b, k)
  {
    if a != [] && b != [] {
      BytesBeforeExactly(a[1..], b[1..]);
      if k :| 0 <= k && DiffersAt(a[1..], b[1..], k) {
        if a[0] == b[0] {
          assert a[..k + 1] == [a[0]] + a[1..][..k] && b[..k + 1] == [b[0]] + b[1..][..k];
          assert DiffersAt(a, b, k + 1);
        }
      }
      if a[0] < b[0] {
        assert DiffersAt(a, b, 0);
      }
      if k :| 0 <= k && DiffersAt(a, b, k) {
        if k > 0 {
          assert a[0] == a[..k][0] == b[..k][0] == b[0];
          assert a[1..][..k - 1] == a[..k][1..] && b[1..][..k - 1] == b[..k][1..];
          assert DiffersAt(a[1..], b[1..], k - 1);
        }
      }
    } else if a == [] && b != [] {
      assert DiffersAt(a, b, 0);
    }
  }

  predicate HashBefore(a: Hash256, b: Hash256) {
    BytesBefore(a, b)
  }

  predicate KeyBefore(a: UtxoKey, b: UtxoKey) {
    HashBefore(a.txId, b.txId) || (a.txId == b.txId && a.index < b.index)
  }

  ghost predicate StrictOrder<K(!new)>(before: (K, K) -> bool) {
    && (forall a :: !before(a, a))
    && (forall a, b :: a != b ==> before(a, b) || before(b, a))
    && (forall a, b, c :: before(a, b) && before(b, c) ==> before(a, c))
  }

  lemma {:induction false} BytesOrdered(a: Bytes, b: Bytes, c: Bytes)
    ensures !BytesBefore(a, a)
    ensures a != b ==> BytesBefore(a, b) || BytesBefore(b, a)
    ensures BytesBefore(a, b) && BytesBefore(b, c) ==> BytesBefore(a, c)
  {
    if a != [] {
      BytesOrdered(a[1..], if b == [] then [] else b[1..], if c == [] then [] else c[1..]);
      assert a == [a[0]] + a[1..];
      if b != [] {
        assert b == [b[0]] + b[1..];
      }
    }
  }

  lemma HashOrder()
    ensures StrictOrder(HashBefore)
  {
    forall a: Hash256, b: Hash256, c: Hash256
      ensures !HashBefore(a, a)
      ensures a != b ==> HashBefore(a, b) || HashBefore(b, a)
      ensures HashBefore(a, b) && HashBefore(b, c) ==> HashBefore(a, c)
    {
      BytesOrdered(a, b, c);
    }
  }

  lemma KeyOrder()
    ensures StrictOrder(KeyBefore)
  {
    HashOrder();
    hide HashBefore;
  }

  ghost predicate Sorted<K>(keys: seq<K>, before: (K, K) -> bool) {
    forall i, j :: 0 <= i < j < |keys| ==> before(keys[i], keys[j])
  }

  /** `keys` lists the members of `s`, each once, in order. */
  ghost predicate Lists<K(!new)>(keys: seq<K>, s: set<K>, before: (K, K) -> bool) {
    && Sorted(keys, before)
    && (forall k :: k in keys <==> k in s)
  }

  ghost predicate IsFirst<K(!new)>(k: K, s: set<K>, before: (K, K) -> bool) {
    k in s && forall j :: j in s && j != k ==> before(k, j)
  }

  lemma {:induction false} FirstExists<K(!new)>(s: set<K>, before: (K, K) -> bool)
    requires StrictOrder(before) && s != {}
    ensures exists k :: IsFirst(k, s, before)
    decreases |s|
  {
    var any :| any in s;
    if s == {any} {
      assert IsFirst(any, s, before);
    } else {
      assert s - {any} != {};
      FirstExists(s - {any}, before);
      var first :| IsFirst(first, s - {any}, before);
      assert IsFirst(if before(first, any) then first else any, s, before);
    }
  }

  /** Sorting: repeatedly take the first of what is left. */
  function SortedList<K(!new, ==)>(s: set<K>, before: (K, K) -> bool): (keys: seq<K>)
    requires StrictOrder(before)
    ensures Lists(keys, s, before) && |keys| == |s|
    decreases |s|
  {
    if s == {} then []
    else
      FirstExists(s, before);
      var k :| k in s && forall j :: j in s && j != k ==> before(k, j);
      var rest := SortedList(s - {k}, before);
      assert forall i :: 0 <= i < |rest| ==> rest[i] in s - {k};
      [k] + rest
  }

  lemma EmptyTogether<K(!new)>(a: seq<K>, b: seq<K>, s: set<K>, before: (K, K) -> bool)
    requires Lists(a, s, before) && Lists(b, s, before)
    ensures a == [] <==> b == []
  {
    if a != [] {
      assert a[0] in s;
    }
    if b != [] {
      assert b[0] in s;
    }
  }

  /** There is only one sorted listing, whatever order the members were met in. */
  lemma {:induction false} ListingUnique<K(!new)>(a: seq<K>, b: seq<K>, s: set<K>, before: (K, K) -> bool)
    requires StrictOrder(before) && Lists(a, s, before) && Lists(b, s, before)
    ensures a == b
  {
    EmptyTogether(a, b, s, before);
    if a != [] {
      assert a[0] in s && a[0] in b && b[0] in b && b[0] in s && b[0] in a;
      assert a[0] == b[0];
      forall k
        ensures k in a[1..] <==> k in s - {a[0]}
        ensures k in b[1..] <==> k in s - {a[0]}
      {
        assert k in a <==> k == a[0] || k in a[1..];
        assert k in b <==> k == b[0] || k in b[1..];
      }
      ListingUnique(a[1..], b[1..], s - {a[0]}, before);
      assert a == [a[0]] + a[1..] && b == [b[0]] + b[1..];
    }
  }
}
