/** Stable sorting by an integer key, as the library sort of the source does it. */
module StableSort {
  function Insert<T>(x: T, xs: seq<T>, key: T -> int): seq<T> {
    if xs == [] || key(x) <= key(xs[0]) then [x] + xs
    else [xs[0]] + Insert(x, xs[1..], key)
  }

  function SortBy<T>(xs: seq<T>, key: T -> int): seq<T> {
    if xs == [] then [] else Insert(xs[0], SortBy(xs[1..], key), key)
  }

  predicate Ascending<T>(xs: seq<T>, key: T -> int) {
    forall i, j | 0 <= i < j < |xs| :: key(xs[i]) <= key(xs[j])
  }

  lemma {:induction false} InsertKeepsElements<T>(x: T, xs: seq<T>, key: T -> int)
    ensures multiset(Insert(x, xs, key)) == multiset(xs) + multiset{x}
  {
    if xs != [] && key(x) > key(xs[0]) {
      InsertKeepsElements(x, xs[1..], key);
      assert xs == [xs[0]] + xs[1..];
    }
  }

  lemma {:induction false} InsertKeepsOrder<T>(x: T, xs: seq<T>, key: T -> int)
    requires Ascending(xs, key)
    ensures Ascending(Insert(x, xs, key), key)
  {
    if xs != [] && key(x) > key(xs[0]) {
      InsertKeepsOrder(x, xs[1..], key);
      InsertKeepsElements(x, xs[1..], key);
      var rest := Insert(x, xs[1..], key);
      forall i | 0 <= i < |rest| ensures key(xs[0]) <= key(rest[i]) {
        assert rest[i] in multiset(rest);
        assert rest[i] == x || rest[i] in xs[1..];
      }
    }
  }

  /** Sorting orders the elements and keeps every one of them. */
  lemma {:induction false} SortIsOrdered<T>(xs: seq<T>, key: T -> int)
    ensures Ascending(SortBy(xs, key), key)
    ensures multiset(SortBy(xs, key)) == multiset(xs) && |SortBy(xs, key)| == |xs|
  {
    if xs != [] {
      SortIsOrdered(xs[1..], key);
      InsertKeepsOrder(xs[0], SortBy(xs[1..], key), key);
      InsertKeepsElements(xs[0], SortBy(xs[1..], key), key);
      assert xs == [xs[0]] + xs[1..];
    }
    assert |SortBy(xs, key)| == |multiset(SortBy(xs, key))| == |multiset(xs)| == |xs|;
  }

  lemma SortKeepsMembers<T>(xs: seq<T>, key: T -> int)
    ensures forall x :: x in SortBy(xs, key) <==> x in xs
  {
    SortIsOrdered(xs, key);
    forall x ensures x in SortBy(xs, key) <==> x in xs {
      assert x in SortBy(xs, key) <==> x in multiset(SortBy(xs, key));
      assert x in xs <==> x in multiset(xs);
    }
  }
}
