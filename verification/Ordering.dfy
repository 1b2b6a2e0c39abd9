/** Strict total orders, and listing a finite set in order, as sorted containers do when iterated. */
module Ordering {
  import opened Sequences

  ghost predicate StrictTotal<T(!new)>(less: (T, T) -> bool) {
    && (forall x :: !less(x, x))
    && (forall x, y :: less(x, y) || less(y, x) || x == y)
    && (forall x, y, z :: less(x, y) && less(y, z) ==> less(x, z))
  }

  predicate Least<T(==)>(x: T, s: set<T>, less: (T, T) -> bool) {
    x in s && forall y :: y in s ==> y == x || less(x, y)
  }

  ghost predicate Ascending<T>(list: seq<T>, less: (T, T) -> bool) {
    forall i, j :: 0 <= i < j < |list| ==> less(list[i], list[j])
  }

  lemma {:induction false} LeastExists<T(!new)>(s: set<T>, less: (T, T) -> bool)
    requires StrictTotal(less) && s != {}
    ensures exists x :: Least(x, s, less)
  {
    var x :| x in s;
    if s - {x} == {} {
      assert s == {x};
      assert Least(x, s, less);
    } else {
      LeastExists(s - {x}, less);
      var y :| Least(y, s - {x}, less);
      assert forall z :: z in s ==> z == x || z in s - {x};
      if less(x, y) {
        assert Least(x, s, less);
      } else {
        assert Least(y, s, less);
      }
    }
  }

  lemma LeastUnique<T(!new)>(x: T, y: T, s: set<T>, less: (T, T) -> bool)
    requires StrictTotal(less) && Least(x, s, less) && Least(y, s, less)
    ensures x == y
  {
  }

  ghost function SmallestOf<T(!new)>(s: set<T>, less: (T, T) -> bool): (x: T)
    requires StrictTotal(less) && s != {}
    ensures Least(x, s, less)
  {
    LeastExists(s, less);
    var x :| Least(x, s, less);
    x
  }

  /** The elements of a set, smallest first. */
  ghost function InOrder<T(!new)>(s: set<T>, less: (T, T) -> bool): (list: seq<T>)
    requires StrictTotal(less)
  {
    if s == {} then []
    else
      var x := SmallestOf(s, less);
      [x] + InOrder(s - {x}, less)
  }

  lemma {:induction false} InOrderLists<T(!new)>(s: set<T>, less: (T, T) -> bool)
    requires StrictTotal(less)
    ensures Elements(InOrder(s, less)) == s && Ascending(InOrder(s, less), less)
  {
    if s != {} {
      var x := SmallestOf(s, less);
      var rest := InOrder(s - {x}, less);
      InOrderLists(s - {x}, less);
      forall y | y in rest
        ensures less(x, y)
      {
        assert y in Elements(rest);
      }
      assert Elements([x] + rest) == {x} + Elements(rest);
    }
  }

  /** A loop that always takes the smallest element left goes through the set in order. */
  lemma TakeSmallest<T(!new)>(s: set<T>, x: T, less: (T, T) -> bool)
    requires StrictTotal(less) && Least(x, s, less)
    ensures InOrder(s, less) == [x] + InOrder(s - {x}, less)
  {
  }

  /** An ascending list is the only ascending list of its elements. */
  lemma {:induction false} AscendingIsInOrder<T(!new)>(list: seq<T>, less: (T, T) -> bool)
    requires StrictTotal(less)
    ensures InOrder(Elements(list), less) == list <==> Ascending(list, less)
  {
    InOrderLists(Elements(list), less);
    if Ascending(list, less) && list != [] {
      var first, rest := list[0], list[1..];
      assert first !in rest;
      assert Elements(list) == {first} + Elements(rest) && Elements(list) - {first} == Elements(rest);
      assert Least(first, Elements(list), less);
      TakeSmallest(Elements(list), first, less);
      AscendingIsInOrder(rest, less);
    }
  }

  // ---------------------------------------------------------------------
  // Maps as lists of entries
  // ---------------------------------------------------------------------

  /** The entries of a map in the order of `keys`. */
  function Entries<K, V>(m: map<K, V>, keys: seq<K>): (list: seq<(K, V)>)
    requires forall k :: k in keys ==> k in m
  {
    if keys == [] then [] else [(keys[0], m[keys[0]])] + Entries(m, keys[1..])
  }

  /** The map left after storing the entries one after the other. */
  function FromEntries<K, V>(list: seq<(K, V)>): map<K, V> {
    if list == [] then map[] else FromEntries(list[..|list| - 1])[list[|list| - 1].0 := list[|list| - 1].1]
  }

  function KeysOf<K, V>(list: seq<(K, V)>): (keys: seq<K>)
    ensures |keys| == |list| && forall i :: 0 <= i < |list| ==> keys[i] == list[i].0
  {
    seq(|list|, i requires 0 <= i < |list| => list[i].0)
  }

  lemma {:induction false} EntriesAt<K, V>(m: map<K, V>, keys: seq<K>)
    requires forall k :: k in keys ==> k in m
    ensures |Entries(m, keys)| == |keys|
    ensures forall i :: 0 <= i < |keys| ==> Entries(m, keys)[i] == (keys[i], m[keys[i]])
  {
    if keys != [] {
      EntriesAt(m, keys[1..]);
    }
  }

  /** A key holds the last value stored under it. */
  lemma {:induction false} FromEntriesKeys<K, V>(list: seq<(K, V)>)
    ensures FromEntries(list).Keys == Elements(KeysOf(list))
    ensures forall k :: k in FromEntries(list) ==> (k, FromEntries(list)[k]) in list
  {
    if list != [] {
      var front, last := list[..|list| - 1], list[|list| - 1];
      FromEntriesKeys(front);
      assert list == front + [last];
      assert KeysOf(list) == KeysOf(front) + [last.0];
      forall k | k in FromEntries(list)
        ensures (k, FromEntries(list)[k]) in list
      {
        if k != last.0 {
          assert (k, FromEntries(front)[k]) in front;
        } else {
          assert last in list;
        }
      }
    }
  }

  /** The last entry under a key wins. */
  lemma {:induction false} LastWins<K, V>(list: seq<(K, V)>, i: nat)
    requires i < |list| && forall j :: i < j < |list| ==> list[j].0 != list[i].0
    ensures list[i].0 in FromEntries(list) && FromEntries(list)[list[i].0] == list[i].1
  {
    if i < |list| - 1 {
      LastWins(list[..|list| - 1], i);
    }
  }

  lemma ReadBack<K, V>(m: map<K, V>, keys: seq<K>)
    requires Elements(keys) == m.Keys && forall k :: k in keys ==> k in m
    ensures FromEntries(Entries(m, keys)) == m
  {
    var list := Entries(m, keys);
    EntriesAt(m, keys);
    FromEntriesKeys(list);
    assert KeysOf(list) == keys;
    forall k | k in m
      ensures FromEntries(list)[k] == m[k]
    {
      assert (k, FromEntries(list)[k]) in list;
    }
  }

  lemma InOrderMembers<T(!new)>(s: set<T>, less: (T, T) -> bool)
    requires StrictTotal(less)
    ensures forall x :: x in InOrder(s, less) <==> x in s
  {
  }

  /** The entries of a map, in key order. */
  ghost function SortedEntries<K(!new), V>(m: map<K, V>, less: (K, K) -> bool): (list: seq<(K, V)>)
    requires StrictTotal(less)
  {
    InOrderMembers(m.Keys, less);
    Entries(m, InOrder(m.Keys, less))
  }

  /** Writing a map out in key order and reading it back gives the map. */
  lemma SortedRoundTrip<K(!new), V>(m: map<K, V>, less: (K, K) -> bool)
    requires StrictTotal(less)
    ensures FromEntries(SortedEntries(m, less)) == m
    ensures Ascending(KeysOf(SortedEntries(m, less)), less)
  {
    InOrderMembers(m.Keys, less);
    InOrderLists(m.Keys, less);
    EntriesAt(m, InOrder(m.Keys, less));
    assert KeysOf(SortedEntries(m, less)) == InOrder(m.Keys, less);
    ReadBack(m, InOrder(m.Keys, less));
  }

  /** A list of entries is the sorted form of what it stores exactly when its keys ascend. */
  lemma SortedIffAscending<K(!new), V>(list: seq<(K, V)>, less: (K, K) -> bool)
    requires StrictTotal(less)
    ensures SortedEntries(FromEntries(list), less) == list <==> Ascending(KeysOf(list), less)
  {
    var m := FromEntries(list);
    SortedRoundTrip(m, less);
    if Ascending(KeysOf(list), less) {
      FromEntriesKeys(list);
      AscendingIsInOrder(KeysOf(list), less);
      InOrderMembers(m.Keys, less);
      EntriesAt(m, KeysOf(list));
      forall i | 0 <= i < |list|
        ensures Entries(m, KeysOf(list))[i] == list[i]
      {
        DistinctKeys(list, i, less);
      }
      assert Entries(m, KeysOf(list)) == list;
    }
  }

  /** The sorted form lists exactly the entries of the map. */
  lemma SortedLists<K(!new), V>(m: map<K, V>, key: K, value: V, less: (K, K) -> bool)
    requires StrictTotal(less)
    ensures (key, value) in SortedEntries(m, less) <==> key in m && m[key] == value
  {
    InOrderMembers(m.Keys, less);
    EntriesAt(m, InOrder(m.Keys, less));
    if key in m && m[key] == value {
      var i :| 0 <= i < |InOrder(m.Keys, less)| && InOrder(m.Keys, less)[i] == key;
      assert SortedEntries(m, less)[i] == (key, value);
    }
  }

  /** Storing one more entry leaves the sorted list alone exactly when the entry was in it. */
  lemma StoredAgainIff<K(!new), V>(list: seq<(K, V)>, key: K, value: V, less: (K, K) -> bool)
    requires StrictTotal(less)
    ensures SortedEntries(FromEntries(list)[key := value], less) == list <==>
      Ascending(KeysOf(list), less) && (key, value) in list
  {
    var m := FromEntries(list)[key := value];
    if SortedEntries(m, less) == list {
      SortedRoundTrip(m, less);
      SortedLists(m, key, value, less);
    }
    if Ascending(KeysOf(list), less) && (key, value) in list {
      SortedIffAscending(list, less);
      SortedLists(FromEntries(list), key, value, less);
      assert m == FromEntries(list);
    }
  }

  /** Visiting the smallest key left visits the entries in key order. */
  lemma TakeSmallestEntry<K(!new), V>(m: map<K, V>, left: set<K>, key: K, less: (K, K) -> bool)
    requires StrictTotal(less) && left <= m.Keys && Least(key, left, less)
    ensures forall k :: k in InOrder(left, less) || k in InOrder(left - {key}, less) ==> k in m
    ensures Entries(m, InOrder(left, less)) == [(key, m[key])] + Entries(m, InOrder(left - {key}, less))
  {
    var rest := InOrder(left - {key}, less);
    TakeSmallest(left, key, less);
    InOrderMembers(left - {key}, less);
    assert ([key] + rest)[1..] == rest;
  }

  /** Where no key is stored twice, every entry survives. */
  lemma DistinctKeys<K(!new), V>(list: seq<(K, V)>, i: nat, less: (K, K) -> bool)
    requires StrictTotal(less) && Ascending(KeysOf(list), less) && i < |list|
    ensures list[i].0 in FromEntries(list) && FromEntries(list)[list[i].0] == list[i].1
  {
    FromEntriesKeys(list);
    var key := list[i].0;
    assert KeysOf(list)[i] == key;
    assert key in Elements(KeysOf(list));
    assert (key, FromEntries(list)[key]) in list;
    var j :| 0 <= j < |list| && list[j] == (key, FromEntries(list)[key]);
    assert KeysOf(list)[j] == key;
    assert i == j;
  }

  // ---------------------------------------------------------------------
  // Lexicographic order
  // ---------------------------------------------------------------------

  predicate Lexicographic<T(==)>(a: seq<T>, b: seq<T>, less: (T, T) -> bool) {
    if b == [] then false
    else if a == [] then true
    else if a[0] == b[0] then Lexicographic(a[1..], b[1..], less)
    else less(a[0], b[0])
  }

  /** A proper prefix is smaller; otherwise the first place where the two differ decides. */
  lemma {:induction false} LexicographicIff<T(!new)>(a: seq<T>, b: seq<T>, less: (T, T) -> bool)
    requires forall x :: !less(x, x)
    ensures Lexicographic(a, b, less) <==>
      a < b || exists k :: 0 <= k < |a| && k < |b| && a[..k] == b[..k] && less(a[k], b[k])
  {
    if a == [] || b == [] {
      assert b != [] ==> a[..0] == b[..0];
    } else if a[0] != b[0] {
      assert a[..0] == b[..0];
    } else {
      LexicographicIff(a[1..], b[1..], less);
      if a[1..] < b[1..] {
        assert a == [a[0]] + a[1..] && b == [b[0]] + b[1..];
      }
      if k :| 0 <= k < |a[1..]| && k < |b[1..]| && a[1..][..k] == b[1..][..k] && less(a[1..][k], b[1..][k]) {
        assert a[..k + 1] == [a[0]] + a[1..][..k] && b[..k + 1] == [b[0]] + b[1..][..k];
        assert less(a[k + 1], b[k + 1]);
      }
      if k :| 0 <= k < |a| && k < |b| && a[..k] == b[..k] && less(a[k], b[k]) {
        assert a[1..][..k - 1] == a[..k][1..] && b[1..][..k - 1] == b[..k][1..];
        assert less(a[1..][k - 1], b[1..][k - 1]);
      }
    }
  }

  lemma {:induction false} LexIrreflexive<T(!new)>(a: seq<T>, less: (T, T) -> bool)
    ensures !Lexicographic(a, a, less)
  {
    if a != [] {
      LexIrreflexive(a[1..], less);
    }
  }

  lemma {:induction false} LexConnected<T(!new)>(a: seq<T>, b: seq<T>, less: (T, T) -> bool)
    requires StrictTotal(less)
    ensures Lexicographic(a, b, less) || Lexicographic(b, a, less) || a == b
  {
    if a != [] && b != [] && a[0] == b[0] {
      LexConnected(a[1..], b[1..], less);
      assert a == [a[0]] + a[1..] && b == [b[0]] + b[1..];
    }
  }

  lemma {:induction false} LexTransitive<T(!new)>(a: seq<T>, b: seq<T>, c: seq<T>, less: (T, T) -> bool)
    requires StrictTotal(less) && Lexicographic(a, b, less) && Lexicographic(b, c, less)
    ensures Lexicographic(a, c, less)
  {
    if a != [] && a[0] == b[0] && b[0] == c[0] {
      LexTransitive(a[1..], b[1..], c[1..], less);
    }
  }

  lemma LexStrictTotal<T(!new)>(less: (T, T) -> bool)
    requires StrictTotal(less)
    ensures StrictTotal((a: seq<T>, b: seq<T>) => Lexicographic(a, b, less))
  {
    forall a: seq<T> { LexIrreflexive(a, less); }
    forall a: seq<T>, b: seq<T> { LexConnected(a, b, less); }
    forall a: seq<T>, b: seq<T>, c: seq<T> | Lexicographic(a, b, less) && Lexicographic(b, c, less) {
      LexTransitive(a, b, c, less);
    }
  }
}
