/** Stable sorting by an integer key, and what determines its result. */
module StableSort {

  function InsertByKey<T>(xs: seq<T>, key: T -> int, x: T): seq<T> {
    if xs == [] || key(x) < key(xs[0]) then [x] + xs else [xs[0]] + InsertByKey(xs[1..], key, x)
  }

  /** The stable sort: elements are inserted in order, each behind all those whose key is not larger. */
  function SortByKey<T>(xs: seq<T>, key: T -> int): seq<T> {
    if xs == [] then [] else InsertByKey(SortByKey(xs[..|xs| - 1], key), key, xs[|xs| - 1])
  }

  predicate SortedByKey<T>(xs: seq<T>, key: T -> int) {
    |xs| <= 1 || (key(xs[0]) <= key(xs[1]) && SortedByKey(xs[1..], key))
  }

  lemma {:induction false} SortedPairs<T>(xs: seq<T>, key: T -> int, i: nat, j: nat)
    requires SortedByKey(xs, key) && i <= j < |xs|
    ensures key(xs[i]) <= key(xs[j])
  {
    if 0 < i {
      SortedPairs(xs[1..], key, i - 1, j - 1);
    } else if 0 < j {
      SortedPairs(xs[1..], key, 0, j - 1);
    }
  }

  function WithKey<T>(xs: seq<T>, key: T -> int, k: int): seq<T> {
    if xs == [] then []
    else if key(xs[0]) == k then [xs[0]] + WithKey(xs[1..], key, k)
    else WithKey(xs[1..], key, k)
  }

  lemma {:induction false} WithKeyConcat<T>(a: seq<T>, b: seq<T>, key: T -> int, k: int)
    ensures WithKey(a + b, key, k) == WithKey(a, key, k) + WithKey(b, key, k)
  {
    if a == [] {
      assert a + b == b;
    } else {
      assert (a + b)[1..] == a[1..] + b;
      WithKeyConcat(a[1..], b, key, k);
    }
  }

  lemma WithKeySnoc<T>(xs: seq<T>, x: T, key: T -> int, k: int)
    ensures WithKey(xs + [x], key, k) == WithKey(xs, key, k) + (if key(x) == k then [x] else [])
  {
    WithKeyConcat(xs, [x], key, k);
    assert WithKey([x][1..], key, k) == [];
  }

  lemma {:induction false} InsertFacts<T>(xs: seq<T>, key: T -> int, x: T)
    ensures var r := InsertByKey(xs, key, x);
      && |r| == |xs| + 1
      && (forall y :: y in r <==> y in xs || y == x)
      && multiset(r) == multiset(xs) + multiset{x}
  {
    if xs == [] || key(x) < key(xs[0]) {
    } else {
      InsertFacts(xs[1..], key, x);
      assert xs == [xs[0]] + xs[1..];
    }
  }

  lemma {:induction false} InsertSorted<T>(xs: seq<T>, key: T -> int, x: T)
    requires SortedByKey(xs, key)
    ensures SortedByKey(InsertByKey(xs, key, x), key)
  {
    if xs == [] || key(x) < key(xs[0]) {
      assert ([x] + xs)[1..] == xs;
    } else {
      InsertSorted(xs[1..], key, x);
      assert InsertByKey(xs, key, x)[1..] == InsertByKey(xs[1..], key, x);
    }
  }

  lemma {:induction false} InsertStable<T>(xs: seq<T>, key: T -> int, x: T, k: int)
    requires SortedByKey(xs, key)
    ensures WithKey(InsertByKey(xs, key, x), key, k) == WithKey(xs, key, k) + (if key(x) == k then [x] else [])
  {
    if xs == [] {
    } else if key(x) < key(xs[0]) {
      forall i | 0 <= i < |xs| ensures key(x) < key(xs[i]) {
        SortedPairs(xs, key, 0, i);
      }
      NoneWithKey(xs, key, key(x));
      assert ([x] + xs)[1..] == xs;
    } else {
      InsertStable(xs[1..], key, x, k);
      assert InsertByKey(xs, key, x)[1..] == InsertByKey(xs[1..], key, x);
    }
  }

  lemma {:induction false} NoneWithKey<T>(xs: seq<T>, key: T -> int, k: int)
    requires forall i :: 0 <= i < |xs| ==> key(xs[i]) != k
    ensures WithKey(xs, key, k) == []
  {
    if xs != [] {
      NoneWithKey(xs[1..], key, k);
    }
  }

  lemma SortIsSorted<T>(xs: seq<T>, key: T -> int)
    ensures SortedByKey(SortByKey(xs, key), key) && multiset(SortByKey(xs, key)) == multiset(xs)
  {
    hide SortByKey, SortedByKey;
    SortOrders(xs, key);
    SortPermutes(xs, key);
  }

  lemma {:induction false} SortOrders<T>(xs: seq<T>, key: T -> int)
    ensures SortedByKey(SortByKey(xs, key), key)
  {
    hide InsertByKey, SortedByKey;
    if xs == [] {
      NothingIsSorted(key);
    } else {
      var front, x := xs[..|xs| - 1], xs[|xs| - 1];
      SortOrders(front, key);
      InsertSorted(SortByKey(front, key), key, x);
    }
  }

  lemma {:induction false} SortPermutes<T>(xs: seq<T>, key: T -> int)
    ensures multiset(SortByKey(xs, key)) == multiset(xs)
  {
    hide InsertByKey;
    if xs != [] {
      var front, x := xs[..|xs| - 1], xs[|xs| - 1];
      SortPermutes(front, key);
      InsertFacts(SortByKey(front, key), key, x);
      assert xs == front + [x];
    }
  }

  lemma NothingIsSorted<T>(key: T -> int)
    ensures SortedByKey([], key)
  {
  }

  /** Elements with equal keys keep their input order. */
  lemma {:induction false} SortIsStable<T>(xs: seq<T>, key: T -> int, k: int)
    ensures WithKey(SortByKey(xs, key), key, k) == WithKey(xs, key, k)
  {
    hide InsertByKey, SortedByKey, WithKey;
    if xs != [] {
      var front, x := xs[..|xs| - 1], xs[|xs| - 1];
      SortIsStable(front, key, k);
      SortIsSorted(front, key);
      InsertStable(SortByKey(front, key), key, x, k);
      WithKeySnoc(front, x, key, k);
      assert front + [x] == xs;
    }
  }

  lemma SortSameElements<T>(xs: seq<T>, key: T -> int)
    ensures forall x :: x in SortByKey(xs, key) <==> x in xs
  {
    SortIsSorted(xs, key);
    forall x ensures x in SortByKey(xs, key) <==> x in xs {
      assert x in multiset(xs) <==> x in xs;
      assert x in multiset(SortByKey(xs, key)) <==> x in SortByKey(xs, key);
    }
  }

  lemma {:induction false} WithKeyMember<T>(xs: seq<T>, key: T -> int, i: nat)
    requires i < |xs|
    ensures xs[i] in WithKey(xs, key, key(xs[i]))
  {
    if 0 < i {
      WithKeyMember(xs[1..], key, i - 1);
    }
  }

  lemma {:induction false} WithKeyOrigin<T>(xs: seq<T>, key: T -> int, k: int)
    ensures forall y :: y in WithKey(xs, key, k) ==> y in xs && key(y) == k
  {
    if xs != [] {
      WithKeyOrigin(xs[1..], key, k);
    }
  }

  lemma HeadIsLeast<T>(xs: seq<T>, y: T, key: T -> int)
    requires SortedByKey(xs, key) && y in xs
    ensures key(xs[0]) <= key(y)
  {
    var j :| 0 <= j < |xs| && xs[j] == y;
    SortedPairs(xs, key, 0, j);
  }

  lemma SomeKey<T>(xs: seq<T>, key: T -> int)
    ensures xs != [] ==> exists k :: WithKey(xs, key, k) != []
  {
    if xs != [] {
      assert WithKey(xs, key, key(xs[0])) != [];
    }
  }

  /** A sorted sequence is determined by what it holds under each key: there is only one stable sort. */
  lemma {:induction false} StableSortIsUnique<T>(a: seq<T>, b: seq<T>, key: T -> int)
    requires SortedByKey(a, key) && SortedByKey(b, key)
    requires forall k :: WithKey(a, key, k) == WithKey(b, key, k)
    ensures a == b
  {
    if a == [] {
      SomeKey(b, key);
    } else {
      WithKeyMember(a, key, 0);
      WithKeyOrigin(b, key, key(a[0]));
      assert b != [];
      WithKeyMember(b, key, 0);
      WithKeyOrigin(a, key, key(b[0]));
      HeadIsLeast(a, b[0], key);
      HeadIsLeast(b, a[0], key);
      assert key(a[0]) == key(b[0]);
      var h := key(a[0]);
      assert WithKey(a, key, h)[0] == a[0] && WithKey(b, key, h)[0] == b[0];
      forall k ensures WithKey(a[1..], key, k) == WithKey(b[1..], key, k) {
        assert WithKey(a, key, k) == WithKey(b, key, k);
        if k == h {
          assert WithKey(a, key, k)[1..] == WithKey(a[1..], key, k);
          assert WithKey(b, key, k)[1..] == WithKey(b[1..], key, k);
        }
      }
      StableSortIsUnique(a[1..], b[1..], key);
      assert a == [a[0]] + a[1..] && b == [b[0]] + b[1..];
    }
  }
}
