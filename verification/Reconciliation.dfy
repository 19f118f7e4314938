/** Reconciling the stored entities of an environment with those its manifest declares,
    and what storing the outcome leads to. */
module Reconciliation {
  import opened JsonText
  import opened KeyOrder
  import opened Options
  import opened StableStringify

  /** A digest is known by the text that is hashed. */
  datatype Entity = Entity(archived: bool, config: Json, digest: string)
  datatype Desired = Desired(id: string, config: Json)

  datatype Action =
    | Create(id: string, desired: Json)
    | Restore(id: string, current: Entity, desired: Json)
    | Update(id: string, current: Entity, desired: Json)
    | Unchanged(id: string, current: Entity, desired: Json)
    | Archive(id: string, current: Entity)

  type Store = map<string, Entity>

  predicate Unique(desired: seq<Desired>) {
    forall i, j | 0 <= i < j < |desired| :: desired[i].id != desired[j].id
  }

  predicate Declares(desired: seq<Desired>, id: string) {
    exists i | 0 <= i < |desired| :: desired[i].id == id
  }

  function Classify(lt: Order, store: Store, d: Desired): Action {
    if d.id !in store then Create(d.id, d.config)
    else if store[d.id].archived then Restore(d.id, store[d.id], d.config)
    else if store[d.id].digest != Stringify(lt, d.config) then Update(d.id, store[d.id], d.config)
    else Unchanged(d.id, store[d.id], d.config)
  }

  /** One action for every declared entity, and one for every stored one that is neither declared nor archived. */
  predicate Expected(lt: Order, store: Store, desired: seq<Desired>, a: Action) {
    if a.Archive? then a.id in store && !store[a.id].archived && a.current == store[a.id] && !Declares(desired, a.id)
    else exists i | 0 <= i < |desired| :: a == Classify(lt, store, desired[i])
  }

  predicate DistinctIds(actions: seq<Action>) {
    DistinctKeys(actions, IdOf)
  }

  ghost predicate IsReconciliation(lt: Order, store: Store, desired: seq<Desired>, actions: seq<Action>) {
    DistinctIds(actions) && forall a :: a in actions <==> Expected(lt, store, desired, a)
  }

  function IdOf(a: Action): string {
    a.id
  }

  // ---------- the reconciliation ----------

  /** The first loop: each declared entity takes its stored counterpart out of the map. */
  method ClassifyAll(lt: Order, store: Store, desired: seq<Desired>) returns (actions: seq<Action>, left: Store)
    requires Unique(desired)
    ensures |actions| == |desired| && forall i | 0 <= i < |desired| :: actions[i] == Classify(lt, store, desired[i])
    ensures left.Keys == set id | id in store && !Declares(desired, id)
    ensures forall id | id in left :: left[id] == store[id]
  {
    actions, left := [], store;
    for i := 0 to |desired|
      invariant |actions| == i && forall j | 0 <= j < i :: actions[j] == Classify(lt, store, desired[j])
      invariant forall id :: id in left <==> id in store && !Declares(desired[..i], id)
      invariant forall id | id in left :: left[id] == store[id]
    {
      var id, config := desired[i].id, desired[i].config;
      assert !Declares(desired[..i], id);
      DeclaresNext(desired, i);
      var found := if id in left then Some(left[id]) else None;
      left := left - {id};
      if found.None? { actions := actions + [Create(id, config)]; }
      else if found.value.archived { actions := actions + [Restore(id, found.value, config)]; }
      else if found.value.digest != Stringify(lt, config) { actions := actions + [Update(id, found.value, config)]; }
      else { actions := actions + [Unchanged(id, found.value, config)]; }
    }
    assert desired[..|desired|] == desired;
  }

  lemma DeclaresNext(desired: seq<Desired>, i: nat)
    requires i < |desired|
    ensures forall id :: Declares(desired[..i + 1], id) <==> Declares(desired[..i], id) || id == desired[i].id
  {
    forall id ensures Declares(desired[..i + 1], id) <==> Declares(desired[..i], id) || id == desired[i].id {
      if Declares(desired[..i], id) {
        var j :| 0 <= j < i && desired[..i][j].id == id;
        assert desired[..i + 1][j].id == id;
      }
      if id == desired[i].id { assert desired[..i + 1][i].id == id; }
      if Declares(desired[..i + 1], id) && id != desired[i].id {
        var j :| 0 <= j < i + 1 && desired[..i + 1][j].id == id;
        assert desired[..i][j].id == id;
      }
    }
  }

  /** The second loop: what is left and still active is archived. */
  method ArchiveLeft(left: Store) returns (actions: seq<Action>)
    ensures DistinctIds(actions)
    ensures forall a :: a in actions <==> a.Archive? && a.id in left && !left[a.id].archived && a.current == left[a.id]
  {
    actions := [];
    var rest := left;
    while rest != map[]
      invariant rest.Keys <= left.Keys && forall id | id in rest :: rest[id] == left[id]
      invariant DistinctIds(actions) && forall a | a in actions :: a.id !in rest
      invariant forall a :: a in actions <==>
                  a.Archive? && a.id in left && a.id !in rest && !left[a.id].archived && a.current == left[a.id]
      decreases |rest|
    {
      var id :| id in rest;
      if !rest[id].archived { actions := actions + [Archive(id, rest[id])]; }
      rest := rest - {id};
    }
  }

  method Reconcile(lt: Order, store: Store, desired: seq<Desired>) returns (actions: seq<Action>)
    requires StrictTotal(lt) && Unique(desired)
    ensures IsReconciliation(lt, store, desired, actions) && InOrder(lt, actions, IdOf)
  {
    var kept, left := ClassifyAll(lt, store, desired);
    var archived := ArchiveLeft(left);
    var all := kept + archived;
    AllAreExpected(lt, store, desired, kept, left, archived);
    SortAscends(lt, all, IdOf);
    actions := SortByKey(lt, all, IdOf);
  }

  lemma AllAreExpected(lt: Order, store: Store, desired: seq<Desired>, kept: seq<Action>, left: Store, archived: seq<Action>)
    requires Unique(desired) && |kept| == |desired|
    requires forall i | 0 <= i < |desired| :: kept[i] == Classify(lt, store, desired[i])
    requires left.Keys == set id | id in store && !Declares(desired, id)
    requires forall id | id in left :: left[id] == store[id]
    requires DistinctIds(archived)
    requires forall a :: a in archived <==> a.Archive? && a.id in left && !left[a.id].archived && a.current == left[a.id]
    ensures IsReconciliation(lt, store, desired, kept + archived)
  {
    var all := kept + archived;
    forall a ensures a in all <==> Expected(lt, store, desired, a) {
      if a in kept { var i :| 0 <= i < |kept| && kept[i] == a; }
      if !a.Archive? && Expected(lt, store, desired, a) {
        var i :| 0 <= i < |desired| && a == Classify(lt, store, desired[i]);
        assert kept[i] in kept;
      }
    }
    forall i, j | 0 <= i < j < |all| ensures all[i].id != all[j].id {
      if j >= |kept| && i < |kept| {
        assert archived[j - |kept|] in archived;
        assert desired[i].id == all[i].id;
      }
    }
  }

  // ---------- storing the outcome ----------

  /** Archiving keeps the configuration; every other action stores the declared one. */
  function Stored(lt: Order, a: Action): Entity {
    match a
    case Archive(_, current) => current.(archived := true)
    case _ => Entity(false, a.desired, Stringify(lt, a.desired))
  }

  function Materialize(lt: Order, store: Store, actions: seq<Action>): Store
    decreases |actions|
  {
    if actions == [] then store
    else Materialize(lt, store[actions[0].id := Stored(lt, actions[0])], actions[1..])
  }

  lemma {:induction false} MaterializeKeeps(lt: Order, store: Store, actions: seq<Action>, id: string)
    requires forall a | a in actions :: a.id != id
    ensures (id in Materialize(lt, store, actions) <==> id in store)
    ensures id in store ==> Materialize(lt, store, actions)[id] == store[id]
    decreases |actions|
  {
    if actions != [] {
      assert actions[0] in actions;
      MaterializeKeeps(lt, store[actions[0].id := Stored(lt, actions[0])], actions[1..], id);
    }
  }

  lemma {:induction false} MaterializeStores(lt: Order, store: Store, actions: seq<Action>, i: nat)
    requires DistinctIds(actions) && i < |actions|
    ensures actions[i].id in Materialize(lt, store, actions)
    ensures Materialize(lt, store, actions)[actions[i].id] == Stored(lt, actions[i])
    decreases |actions|
  {
    var next := store[actions[0].id := Stored(lt, actions[0])];
    if i == 0 {
      MaterializeKeeps(lt, next, actions[1..], actions[0].id);
    } else {
      MaterializeStores(lt, next, actions[1..], i - 1);
    }
  }

  /** What the store holds afterwards: the declared entities as declared, everything else archived. */
  lemma StoreAfterwards(lt: Order, store: Store, desired: seq<Desired>, actions: seq<Action>)
    requires Unique(desired) && IsReconciliation(lt, store, desired, actions)
    ensures var store' := Materialize(lt, store, actions);
            && (forall i | 0 <= i < |desired| ::
                  desired[i].id in store'
                  && store'[desired[i].id] == Entity(false, desired[i].config, Stringify(lt, desired[i].config)))
            && (forall id | id in store' && !Declares(desired, id) :: id in store && store'[id] == store[id].(archived := true))
  {
    var store' := Materialize(lt, store, actions);
    forall i | 0 <= i < |desired|
      ensures desired[i].id in store'
      ensures store'[desired[i].id] == Entity(false, desired[i].config, Stringify(lt, desired[i].config))
    {
      var a := Classify(lt, store, desired[i]);
      assert Expected(lt, store, desired, a);
      var j :| 0 <= j < |actions| && actions[j] == a;
      MaterializeStores(lt, store, actions, j);
    }
    forall id | id in store' && !Declares(desired, id)
      ensures id in store && store'[id] == store[id].(archived := true)
    {
      if j :| 0 <= j < |actions| && actions[j].id == id {
        assert Expected(lt, store, desired, actions[j]);
        MaterializeStores(lt, store, actions, j);
      } else {
        MaterializeKeeps(lt, store, actions, id);
        if !store[id].archived {
          assert Expected(lt, store, desired, Archive(id, store[id]));
        }
      }
    }
  }

  /** Reconciliation converges: once its outcome is stored, reconciling the same manifest
      finds every declared entity unchanged and nothing else to do. */
  lemma ReconcilingAgainChangesNothing(lt: Order, store: Store, desired: seq<Desired>, first: seq<Action>, second: seq<Action>)
    requires Unique(desired) && IsReconciliation(lt, store, desired, first)
    requires IsReconciliation(lt, Materialize(lt, store, first), desired, second)
    ensures forall a | a in second :: a.Unchanged? && Declares(desired, a.id)
    ensures Materialize(lt, Materialize(lt, store, first), second) == Materialize(lt, store, first)
  {
    var store' := Materialize(lt, store, first);
    StoreAfterwards(lt, store, desired, first);
    forall a | a in second ensures a.Unchanged? && Declares(desired, a.id) && a.id in store' && Stored(lt, a) == store'[a.id] {
      assert Expected(lt, store', desired, a);
      if !a.Archive? {
        var i :| 0 <= i < |desired| && a == Classify(lt, store', desired[i]);
      }
    }
    StoringAgain(lt, store', second);
  }

  lemma {:induction false} StoringAgain(lt: Order, store: Store, actions: seq<Action>)
    requires forall a | a in actions :: a.id in store && store[a.id] == Stored(lt, a)
    ensures Materialize(lt, store, actions) == store
    decreases |actions|
  {
    if actions != [] {
      assert actions[0] in actions;
      assert store[actions[0].id := Stored(lt, actions[0])] == store;
      StoringAgain(lt, store, actions[1..]);
    }
  }

  /** What each action says, by what the store holds: a new entity is created, an archived one restored, an active one
      updated when its digest is not that of its declaration, and one that is not declared archived. */
  lemma ActionsByStore(lt: Order, store: Store, desired: seq<Desired>, actions: seq<Action>, a: Action)
    requires Unique(desired) && IsReconciliation(lt, store, desired, actions) && a in actions
    ensures a.Create? <==> a.id !in store
    ensures a.Restore? <==> a.id in store && store[a.id].archived
    ensures a.Archive? <==> a.id in store && !store[a.id].archived && !Declares(desired, a.id)
    ensures !a.Archive? ==> Desired(a.id, a.desired) in desired
    ensures a.Update? <==> a.id in store && !store[a.id].archived && Declares(desired, a.id) && store[a.id].digest != Stringify(lt, a.desired)
    ensures !a.Create? ==> a.id in store && a.current == store[a.id]
  {
    assert Expected(lt, store, desired, a);
  }

  /** Every declared entity and every other active one has its action. */
  lemma EveryEntityHasItsAction(lt: Order, store: Store, desired: seq<Desired>, actions: seq<Action>, id: string)
    requires Unique(desired) && IsReconciliation(lt, store, desired, actions)
    ensures (exists a | a in actions :: a.id == id) <==> Declares(desired, id) || (id in store && !store[id].archived)
  {
    if i :| 0 <= i < |desired| && desired[i].id == id {
      var a := Classify(lt, store, desired[i]);
      assert Expected(lt, store, desired, a) && a.id == id;
    } else if id in store && !store[id].archived {
      assert Expected(lt, store, desired, Archive(id, store[id]));
    }
    forall a | a in actions && a.id == id ensures Declares(desired, id) || (id in store && !store[id].archived) {
      assert Expected(lt, store, desired, a);
    }
  }

  /** With canonical digests, an active entity is updated exactly when its declared
      configuration differs as a value. */
  lemma UpdatedIffDifferent(lt: Order, store: Store, d: Desired)
    requires StrictTotal(lt) && d.id in store && !store[d.id].archived
    requires WellFormed(d.config) && WellFormed(store[d.id].config)
    requires store[d.id].digest == Stringify(lt, store[d.id].config)
    ensures Classify(lt, store, d).Update? <==> Meaning(d.config) != Meaning(store[d.id].config)
  {
    EqualTextsIffEqualValues(lt, d.config, store[d.id].config);
  }
}
