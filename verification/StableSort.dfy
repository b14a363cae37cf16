/** The stable ascending sort that `Array.prototype.sort` performs with a numeric comparator. */
module StableSort {

  ghost predicate SortedBy<T>(s: seq<T>, key: T -> int) {
    forall i, j :: 0 <= i < j < |s| ==> key(s[i]) <= key(s[j])
  }

  /** The elements of `s` whose key is `k`, in their order: what stability is about. */
  function WithKey<T>(s: seq<T>, key: T -> int, k: int): seq<T> {
    if s == [] then [] else (if key(s[0]) == k then [s[0]] else []) + WithKey(s[1..], key, k)
  }

  /** `t` keeps the order that `s` has within each key. */
  ghost predicate SameWithinKeys<T>(s: seq<T>, t: seq<T>, key: T -> int) {
    forall k :: WithKey(s, key, k) == WithKey(t, key, k)
  }

  function Insert<T>(x: T, s: seq<T>, key: T -> int): seq<T> {
    if s == [] || key(x) <= key(s[0]) then [x] + s else [s[0]] + Insert(x, s[1..], key)
  }

  function Sort<T>(s: seq<T>, key: T -> int): seq<T> {
    if s == [] then [] else Insert(s[0], Sort(s[1..], key), key)
  }

  lemma {:induction false} InsertContents<T>(x: T, s: seq<T>, key: T -> int)
    ensures multiset(Insert(x, s, key)) == multiset{x} + multiset(s)
  {
    if s != [] && key(x) > key(s[0]) {
      InsertContents(x, s[1..], key);
      assert s == [s[0]] + s[1..];
    }
  }

  lemma {:induction false} InsertSorted<T>(x: T, s: seq<T>, key: T -> int)
    requires SortedBy(s, key)
    ensures SortedBy(Insert(x, s, key), key)
  {
    if s != [] && key(x) > key(s[0]) {
      InsertSorted(x, s[1..], key);
      InsertContents(x, s[1..], key);
      var rest := Insert(x, s[1..], key);
      forall j | 0 <= j < |rest| ensures key(s[0]) <= key(rest[j]) {
        assert rest[j] in multiset(rest);
        assert rest[j] == x || rest[j] in s[1..];
      }
    }
  }

  lemma {:induction false} InsertStable<T>(x: T, s: seq<T>, key: T -> int, k: int)
    ensures WithKey(Insert(x, s, key), key, k) == (if key(x) == k then [x] else []) + WithKey(s, key, k)
  {
    if s != [] && key(x) > key(s[0]) {
      InsertStable(x, s[1..], key, k);
      var out := Insert(x, s, key);
      assert out[0] == s[0] && out[1..] == Insert(x, s[1..], key);
      if key(x) == k {
        assert key(s[0]) != k;
      }
    } else {
      var out := Insert(x, s, key);
      assert out[0] == x && out[1..] == s;
    }
  }

  lemma {:induction false} SortContents<T>(s: seq<T>, key: T -> int)
    ensures multiset(Sort(s, key)) == multiset(s)
  {
    if s != [] {
      SortContents(s[1..], key);
      InsertContents(s[0], Sort(s[1..], key), key);
      assert s == [s[0]] + s[1..];
    }
  }

  lemma {:induction false} SortSorted<T>(s: seq<T>, key: T -> int)
    ensures SortedBy(Sort(s, key), key)
  {
    if s != [] {
      SortSorted(s[1..], key);
      InsertSorted(s[0], Sort(s[1..], key), key);
    }
  }

  lemma {:induction false} SortStable<T>(s: seq<T>, key: T -> int, k: int)
    ensures WithKey(Sort(s, key), key, k) == WithKey(s, key, k)
  {
    if s != [] {
      SortStable(s[1..], key, k);
      InsertStable(s[0], Sort(s[1..], key), key, k);
    }
  }

  lemma {:induction false} WithKeyMembers<T>(s: seq<T>, key: T -> int, k: int)
    ensures forall x :: x in WithKey(s, key, k) <==> x in s && key(x) == k
  {
    if s != [] {
      WithKeyMembers(s[1..], key, k);
      assert forall x :: x in s <==> x == s[0] || x in s[1..];
    }
  }

  /** The first element of an ascending sequence opens its own key's list. */
  lemma FirstOfItsKey<T>(s: seq<T>, key: T -> int)
    requires s != []
    ensures WithKey(s, key, key(s[0])) != [] && WithKey(s, key, key(s[0]))[0] == s[0]
  {
  }

  /** Ascending keys and the order kept within each key leave no choice: they determine the sequence. */
  lemma {:induction false} StableOrderUnique<T>(a: seq<T>, b: seq<T>, key: T -> int)
    requires SortedBy(a, key) && SortedBy(b, key)
    requires |a| == |b|
    requires SameWithinKeys(a, b, key)
    ensures a == b
  {
    if a != [] {
      var k0, k1 := key(a[0]), key(b[0]);
      FirstOfItsKey(a, key);
      FirstOfItsKey(b, key);
      WithKeyMembers(a, key, k1);
      WithKeyMembers(b, key, k0);
      assert WithKey(a, key, k0) == WithKey(b, key, k0) && WithKey(a, key, k1) == WithKey(b, key, k1);
      assert a[0] in WithKey(b, key, k0) && b[0] in WithKey(a, key, k1);
      assert a[0] in b && b[0] in a;
      assert k0 == k1;
      assert a[0] == b[0];
      forall k ensures WithKey(a[1..], key, k) == WithKey(b[1..], key, k) {
        SameTail(a, b, key, k);
      }
      StableOrderUnique(a[1..], b[1..], key);
      assert a == [a[0]] + a[1..] && b == [b[0]] + b[1..];
    }
  }

  lemma SameTail<T>(a: seq<T>, b: seq<T>, key: T -> int, k: int)
    requires a != [] && b != [] && a[0] == b[0]
    requires WithKey(a, key, k) == WithKey(b, key, k)
    ensures WithKey(a[1..], key, k) == WithKey(b[1..], key, k)
  {
    var head := if key(a[0]) == k then [a[0]] else [];
    assert WithKey(a, key, k) == head + WithKey(a[1..], key, k);
    assert WithKey(b, key, k) == head + WithKey(b[1..], key, k);
    assert WithKey(a[1..], key, k) == WithKey(a, key, k)[|head|..];
    assert WithKey(b[1..], key, k) == WithKey(b, key, k)[|head|..];
  }

  lemma SortMembers<T>(s: seq<T>, key: T -> int)
    ensures forall x :: x in Sort(s, key) <==> x in s
    ensures |Sort(s, key)| == |s|
  {
    SortContents(s, key);
    assert forall x :: x in s <==> x in multiset(s);
    assert forall x :: x in Sort(s, key) <==> x in multiset(Sort(s, key));
    assert |multiset(s)| == |multiset(Sort(s, key))|;
  }

  /** `Sort` is the one rearrangement that is ascending and keeps the input order within each key. */
  lemma SortIsTheStableOrder<T>(s: seq<T>, t: seq<T>, key: T -> int)
    ensures t == Sort(s, key) <==> |t| == |s| && SortedBy(t, key) && SameWithinKeys(s, t, key)
  {
    SortSorted(s, key);
    SortMembers(s, key);
    forall k ensures WithKey(s, key, k) == WithKey(Sort(s, key), key, k) {
      SortStable(s, key, k);
    }
    if |t| == |s| && SortedBy(t, key) && SameWithinKeys(s, t, key) {
      SameAsSorted(s, t, key);
      StableOrderUnique(t, Sort(s, key), key);
    }
  }

  lemma SameAsSorted<T>(s: seq<T>, t: seq<T>, key: T -> int)
    requires SameWithinKeys(s, t, key)
    ensures SameWithinKeys(t, Sort(s, key), key)
  {
    forall k ensures WithKey(t, key, k) == WithKey(Sort(s, key), key, k) {
      assert WithKey(s, key, k) == WithKey(t, key, k);
      SortStable(s, key, k);
    }
  }
}
