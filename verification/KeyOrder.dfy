/** Sorting by a textual key. */
module KeyOrder {
  type Order = (string, string) -> bool

  /** The comparison of keys that sorting uses. */
  ghost predicate StrictTotal(lt: Order) {
    && (forall a :: !lt(a, a))
    && (forall a, b :: a == b || lt(a, b) || lt(b, a))
    && (forall a, b, c :: lt(a, b) && lt(b, c) ==> lt(a, c))
  }

  function InsertByKey<T>(lt: Order, x: T, xs: seq<T>, key: T -> string): seq<T> {
    if xs == [] || !lt(key(xs[0]), key(x)) then [x] + xs
    else [xs[0]] + InsertByKey(lt, x, xs[1..], key)
  }

  function SortByKey<T>(lt: Order, xs: seq<T>, key: T -> string): seq<T> {
    if xs == [] then [] else InsertByKey(lt, xs[0], SortByKey(lt, xs[1..], key), key)
  }

  predicate DistinctKeys<T>(xs: seq<T>, key: T -> string) {
    forall i, j | 0 <= i < j < |xs| :: key(xs[i]) != key(xs[j])
  }

  predicate NeverDescends<T>(lt: Order, xs: seq<T>, key: T -> string) {
    forall i, j | 0 <= i < j < |xs| :: !lt(key(xs[j]), key(xs[i]))
  }

  predicate InOrder<T>(lt: Order, xs: seq<T>, key: T -> string) {
    forall i, j | 0 <= i < j < |xs| :: lt(key(xs[i]), key(xs[j]))
  }

  lemma {:induction false} InsertKeepsElements<T>(lt: Order, x: T, xs: seq<T>, key: T -> string)
    ensures multiset(InsertByKey(lt, x, xs, key)) == multiset(xs) + multiset{x}
  {
    if xs != [] && lt(key(xs[0]), key(x)) {
      InsertKeepsElements(lt, x, xs[1..], key);
      assert xs == [xs[0]] + xs[1..];
    }
  }

  lemma {:induction false} InsertKeepsOrder<T>(lt: Order, x: T, xs: seq<T>, key: T -> string)
    requires StrictTotal(lt) && NeverDescends(lt, xs, key)
    ensures NeverDescends(lt, InsertByKey(lt, x, xs, key), key)
  {
    if xs != [] && lt(key(xs[0]), key(x)) {
      InsertKeepsOrder(lt, x, xs[1..], key);
      InsertKeepsElements(lt, x, xs[1..], key);
      var rest := InsertByKey(lt, x, xs[1..], key);
      forall i | 0 <= i < |rest| ensures !lt(key(rest[i]), key(xs[0])) {
        assert rest[i] in multiset(rest);
        assert rest[i] == x || rest[i] in xs[1..];
      }
    }
  }

  /** Sorting keeps every element and never goes down. */
  lemma {:induction false} SortIsOrdered<T>(lt: Order, xs: seq<T>, key: T -> string)
    requires StrictTotal(lt)
    ensures NeverDescends(lt, SortByKey(lt, xs, key), key) && multiset(SortByKey(lt, xs, key)) == multiset(xs)
  {
    if xs != [] {
      SortIsOrdered(lt, xs[1..], key);
      InsertKeepsOrder(lt, xs[0], SortByKey(lt, xs[1..], key), key);
      InsertKeepsElements(lt, xs[0], SortByKey(lt, xs[1..], key), key);
      assert xs == [xs[0]] + xs[1..];
    }
  }

  /** With distinct keys the outcome has the same members in strictly ascending order. */
  lemma SortAscends<T>(lt: Order, xs: seq<T>, key: T -> string)
    requires StrictTotal(lt) && DistinctKeys(xs, key)
    ensures InOrder(lt, SortByKey(lt, xs, key), key)
    ensures forall x :: x in SortByKey(lt, xs, key) <==> x in xs
  {
    SortIsOrdered(lt, xs, key);
    var sorted := SortByKey(lt, xs, key);
    forall x ensures x in sorted <==> x in xs {
      assert x in sorted <==> x in multiset(sorted);
      assert x in xs <==> x in multiset(xs);
    }
    SameElementsSameDistinctness(xs, sorted, key);
  }

  lemma SameElementsSameDistinctness<T>(xs: seq<T>, ys: seq<T>, key: T -> string)
    requires multiset(xs) == multiset(ys) && DistinctKeys(xs, key)
    ensures DistinctKeys(ys, key)
  {
    forall i, j | 0 <= i < j < |ys| ensures key(ys[i]) != key(ys[j]) {
      TwoPositions(ys, i, j);
      if key(ys[i]) == key(ys[j]) {
        assert ys[i] in multiset(xs) && ys[j] in multiset(xs);
        var p :| 0 <= p < |xs| && xs[p] == ys[i];
        var q :| 0 <= q < |xs| && xs[q] == ys[j];
        assert p == q;
        OnePosition(xs, p);
      }
    }
  }

  lemma TwoPositions<T>(ys: seq<T>, i: nat, j: nat)
    requires i < j < |ys|
    ensures ys[i] == ys[j] ==> multiset(ys)[ys[i]] >= 2
  {
    assert ys == ys[..i] + [ys[i]] + ys[i + 1..j] + [ys[j]] + ys[j + 1..];
  }

  lemma OnePosition<T>(xs: seq<T>, p: nat)
    requires p < |xs| && forall i, j | 0 <= i < j < |xs| :: xs[i] != xs[j]
    ensures multiset(xs)[xs[p]] == 1
  {
    assert xs == xs[..p] + [xs[p]] + xs[p + 1..];
    assert xs[p] !in xs[..p] && xs[p] !in xs[p + 1..];
  }

  lemma RestMembers<T>(lt: Order, xs: seq<T>, key: T -> string)
    requires StrictTotal(lt) && InOrder(lt, xs, key) && xs != []
    ensures forall x :: x in xs[1..] <==> x in xs && x != xs[0]
  {
    forall x ensures x in xs[1..] <==> x in xs && x != xs[0] {
      if x in xs[1..] {
        var j :| 0 <= j < |xs| - 1 && xs[1..][j] == x;
        assert lt(key(xs[0]), key(xs[j + 1]));
      }
      assert xs == [xs[0]] + xs[1..];
    }
  }

  /** Members in strictly ascending order have only one arrangement. */
  lemma {:induction false} OnlyOneOrder<T>(lt: Order, xs: seq<T>, ys: seq<T>, key: T -> string)
    requires StrictTotal(lt) && InOrder(lt, xs, key) && InOrder(lt, ys, key)
    requires forall x :: x in xs <==> x in ys
    ensures xs == ys
  {
    assert xs == [] <==> ys == [] by {
      if xs != [] { assert xs[0] in ys; }
      if ys != [] { assert ys[0] in xs; }
    }
    if xs != [] {
      assert xs[0] in ys && ys[0] in xs;
      assert xs[0] == ys[0];
      RestMembers(lt, xs, key);
      RestMembers(lt, ys, key);
      OnlyOneOrder(lt, xs[1..], ys[1..], key);
    }
  }
}
