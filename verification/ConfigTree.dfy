/** Reading and writing a nested configuration by paths of keys. */
module ConfigTree {
  import opened Dictionary
  import opened JsonText
  import opened Options

  type Path = seq<string>

  function Get(v: Json, path: Path): Option<Json>
    decreases path
  {
    if path == [] then Some(v)
    else if !v.Object? then None
    else
      match Find(v.fields, path[0])
      case None => None
      case Some(child) => Get(child, path[1..])
  }

  const EMPTY := Object(NoEntry)

  function ChildOf(v: Json, k: string): Json
    requires v.Object?
  {
    match Find(v.fields, k)
    case None => EMPTY
    case Some(child) => child
  }

  /** Writing creates the objects on the way; it fails at a value that is no object, and at a
      path that is already set. */
  function Set(v: Json, path: Path, x: Json): Option<Json>
    requires path != []
    decreases path
  {
    if !v.Object? then None
    else if |path| == 1 then
      if path[0] in Keys(v.fields) then None else Some(Object(Put(v.fields, path[0], x)))
    else
      var inner := Set(ChildOf(v, path[0]), path[1..], x);
      if inner.None? then None else Some(Object(Put(v.fields, path[0], inner.value)))
  }

  /** Overwriting what is there. */
  function Replace(v: Json, path: Path, x: Json): Json
    requires Get(v, path).Some?
    decreases path
  {
    if path == [] then x
    else Object(Put(v.fields, path[0], Replace(ChildOf(v, path[0]), path[1..], x)))
  }

  predicate Free(v: Json, path: Path)
    decreases path
  {
    && path != [] && v.Object?
    && if |path| == 1 then path[0] !in Keys(v.fields) else Free(ChildOf(v, path[0]), path[1..])
  }

  /** Neither path leads through the end of the other. */
  predicate Apart(p: Path, q: Path) {
    p != [] && q != [] && (p[0] != q[0] || Apart(p[1..], q[1..]))
  }

  lemma {:induction false} SetIffFree(v: Json, path: Path, x: Json)
    requires path != []
    ensures Set(v, path, x).Some? <==> Free(v, path)
    decreases path
  {
    if v.Object? && |path| > 1 { SetIffFree(ChildOf(v, path[0]), path[1..], x); }
  }

  lemma {:induction false} GetWhatWasSet(v: Json, path: Path, x: Json)
    requires Free(v, path)
    ensures Set(v, path, x).Some? && Get(Set(v, path, x).value, path) == Some(x)
    decreases path
  {
    SetIffFree(v, path, x);
    if |path| == 1 {
      FindAfterPut(v.fields, path[0], x, path[0]);
    } else {
      var child := ChildOf(v, path[0]);
      GetWhatWasSet(child, path[1..], x);
      FindAfterPut(v.fields, path[0], Set(child, path[1..], x).value, path[0]);
    }
  }

  /** A write leaves every path apart from its own as it was. */
  lemma {:induction false} SetKeepsOthers(v: Json, path: Path, x: Json, other: Path)
    requires Free(v, path) && Apart(path, other)
    ensures Set(v, path, x).Some? && Get(Set(v, path, x).value, other) == Get(v, other)
    ensures Free(v, other) ==> Free(Set(v, path, x).value, other)
    decreases path
  {
    SetIffFree(v, path, x);
    var k := path[0];
    var child := ChildOf(v, k);
    var y := if |path| == 1 then x else Set(child, path[1..], x).value;
    FindAfterPut(v.fields, k, y, other[0]);
    FindsKeys(v.fields, other[0]);
    FindsKeys(Put(v.fields, k, y), other[0]);
    if other[0] == k {
      SetKeepsOthers(child, path[1..], x, other[1..]);
    }
  }

  lemma {:induction false} ReplaceKeepsOthers(v: Json, path: Path, x: Json, other: Path)
    requires Get(v, path).Some?
    ensures Get(Replace(v, path, x), path) == Some(x)
    ensures Apart(path, other) ==> Get(Replace(v, path, x), other) == Get(v, other)
    decreases path
  {
    if path != [] {
      var child := ChildOf(v, path[0]);
      var y := Replace(child, path[1..], x);
      FindAfterPut(v.fields, path[0], y, path[0]);
      ReplaceKeepsOthers(child, path[1..], x, if other == [] then [] else other[1..]);
      if other != [] { FindAfterPut(v.fields, path[0], y, other[0]); }
    }
  }

  // ---------- several writes ----------

  datatype Write = Write(path: Path, value: Json)

  function SetAll(v: Json, writes: seq<Write>): Option<Json>
    requires forall w | w in writes :: w.path != []
    decreases |writes|
  {
    if writes == [] then Some(v)
    else
      assert writes[0] in writes;
      var next := Set(v, writes[0].path, writes[0].value);
      if next.None? then None else SetAll(next.value, writes[1..])
  }

  lemma {:induction false} SetAllInTurn(v: Json, first: seq<Write>, second: seq<Write>)
    requires forall w | w in first + second :: w.path != []
    ensures (forall w | w in first :: w.path != []) && (forall w | w in second :: w.path != [])
    ensures SetAll(v, first + second)
            == if SetAll(v, first).None? then None else SetAll(SetAll(v, first).value, second)
    decreases |first|
  {
    assert forall w | w in first :: w in first + second;
    assert forall w | w in second :: w in first + second;
    if first == [] {
      assert first + second == second;
    } else {
      assert (first + second)[1..] == first[1..] + second;
      assert first[0] in first;
      var next := Set(v, first[0].path, first[0].value);
      if next.Some? { SetAllInTurn(next.value, first[1..], second); }
    }
  }

  predicate AllApart(writes: seq<Write>) {
    forall i, j | 0 <= i < j < |writes| :: Apart(writes[i].path, writes[j].path)
  }

  predicate AllFree(v: Json, writes: seq<Write>) {
    forall w | w in writes :: Free(v, w.path)
  }

  predicate ApartFrom(writes: seq<Write>, path: Path) {
    forall w | w in writes :: Apart(w.path, path)
  }

  lemma RestIsFree(v: Json, writes: seq<Write>)
    requires writes != [] && AllApart(writes) && AllFree(v, writes)
    ensures Free(v, writes[0].path) && Set(v, writes[0].path, writes[0].value).Some?
    ensures AllFree(Set(v, writes[0].path, writes[0].value).value, writes[1..])
    ensures AllApart(writes[1..]) && ApartFrom(writes[1..], writes[0].path)
  {
    assert writes[0] in writes;
    GetWhatWasSet(v, writes[0].path, writes[0].value);
    forall w | w in writes[1..]
      ensures Free(Set(v, writes[0].path, writes[0].value).value, w.path) && Apart(w.path, writes[0].path)
    {
      var j :| 0 <= j < |writes| - 1 && writes[1..][j] == w;
      assert w == writes[j + 1];
      assert Apart(writes[0].path, writes[j + 1].path);
      SetKeepsOthers(v, writes[0].path, writes[0].value, w.path);
      ApartIsSymmetric(writes[0].path, w.path);
    }
  }

  lemma {:induction false} ApartIsSymmetric(p: Path, q: Path)
    requires Apart(p, q)
    ensures Apart(q, p)
  {
    if p[0] == q[0] { ApartIsSymmetric(p[1..], q[1..]); }
  }

  /** Writes to free paths apart from each other all succeed and leave the rest as it was. */
  lemma {:induction false} SetAllKeepsOthers(v: Json, writes: seq<Write>, other: Path)
    requires AllApart(writes) && AllFree(v, writes) && ApartFrom(writes, other)
    ensures SetAll(v, writes).Some? && Get(SetAll(v, writes).value, other) == Get(v, other)
    decreases |writes|
  {
    if writes != [] {
      RestIsFree(v, writes);
      var next := Set(v, writes[0].path, writes[0].value).value;
      assert writes[0] in writes;
      SetKeepsOthers(v, writes[0].path, writes[0].value, other);
      SetAllKeepsOthers(next, writes[1..], other);
    }
  }

  lemma {:induction false} GetWhatWasSetAll(v: Json, writes: seq<Write>, i: nat)
    requires AllApart(writes) && AllFree(v, writes) && i < |writes|
    ensures SetAll(v, writes).Some? && Get(SetAll(v, writes).value, writes[i].path) == Some(writes[i].value)
    decreases |writes|
  {
    RestIsFree(v, writes);
    var next := Set(v, writes[0].path, writes[0].value).value;
    if i == 0 {
      GetWhatWasSet(v, writes[0].path, writes[0].value);
      SetAllKeepsOthers(next, writes[1..], writes[0].path);
    } else {
      GetWhatWasSetAll(next, writes[1..], i - 1);
    }
  }
}
