/** Dictionaries that keep the order of insertion. */
module Dictionary {
  import opened JsonText
  import opened Options

  function Find<T>(d: Entries<T>, k: string): Option<T> {
    if d.NoEntry? then None else if d.key == k then Some(d.value) else Find(d.rest, k)
  }

  /** A present key gets the new value in its place, an absent one comes last. */
  function Put<T>(d: Entries<T>, k: string, x: T): Entries<T> {
    if d.NoEntry? then Entry(k, x, NoEntry)
    else if d.key == k then Entry(k, x, d.rest)
    else Entry(d.key, d.value, Put(d.rest, k, x))
  }

  function Remove<T>(d: Entries<T>, k: string): Entries<T> {
    if d.NoEntry? then NoEntry
    else if d.key == k then Remove(d.rest, k)
    else Entry(d.key, d.value, Remove(d.rest, k))
  }

  function Append<T>(a: Entries<T>, b: Entries<T>): Entries<T> {
    if a.NoEntry? then b else Entry(a.key, a.value, Append(a.rest, b))
  }

  predicate OneValueEach<T>(d: Entries<T>) {
    d.Entry? ==> d.key !in Keys(d.rest) && OneValueEach(d.rest)
  }

  lemma {:induction false} FindsKeys<T>(d: Entries<T>, k: string)
    ensures Find(d, k).Some? <==> k in Keys(d)
  {
    if d.Entry? { FindsKeys(d.rest, k); }
  }

  lemma {:induction false} FindAfterPut<T>(d: Entries<T>, k: string, x: T, j: string)
    ensures Find(Put(d, k, x), j) == if j == k then Some(x) else Find(d, j)
  {
    if d.Entry? { FindAfterPut(d.rest, k, x, j); }
  }

  lemma {:induction false} FindAfterRemove<T>(d: Entries<T>, k: string, j: string)
    ensures Find(Remove(d, k), j) == if j == k then None else Find(d, j)
  {
    if d.Entry? { FindAfterRemove(d.rest, k, j); }
  }

  lemma {:induction false} PutKeepsOneValueEach<T>(d: Entries<T>, k: string, x: T)
    requires OneValueEach(d)
    ensures OneValueEach(Put(d, k, x)) && Keys(Put(d, k, x)) == Keys(d) + {k}
  {
    if d.Entry? && d.key != k { PutKeepsOneValueEach(d.rest, k, x); }
  }

  lemma {:induction false} PutAbsentAppends<T>(d: Entries<T>, k: string, x: T)
    requires k !in Keys(d)
    ensures Put(d, k, x) == Append(d, Entry(k, x, NoEntry))
  {
    if d.Entry? { PutAbsentAppends(d.rest, k, x); }
  }

  lemma {:induction false} AppendIsAssociative<T>(a: Entries<T>, b: Entries<T>, c: Entries<T>)
    ensures Append(Append(a, b), c) == Append(a, Append(b, c))
  {
    if a.Entry? { AppendIsAssociative(a.rest, b, c); }
  }

  lemma {:induction false} AppendKeys<T>(a: Entries<T>, b: Entries<T>)
    ensures Keys(Append(a, b)) == Keys(a) + Keys(b)
    ensures Append(a, NoEntry) == a
  {
    if a.Entry? { AppendKeys(a.rest, b); }
  }
}
