/** Every run of the storage script halts; an uninterrupted one completes exactly
    when its declarations are admissible; and that holds after any history of
    interrupted runs. */
module AppStorageRecovery {
  import opened Decimal
  import opened AppStorage
  import opened AppStorageSafety

  // ---------- termination ----------

  function Rank(run: Run, pc: Pc): nat
    requires WithinBounds(run, pc)
  {
    var n := |run.declared|;
    match pc
    case Done => 0
    case Raised => 0
    case StopOld => 14 * n + 2
    case Validate(i) => 14 * n + 4 * (n - i) + 3
    case RemoveHelper(i) => 14 * n + 4 * (n - i) + 2
    case RemoveVolume(i) => 14 * n + 4 * (n - i) + 1
    case ClearPending(i) => 14 * n + 4 * (n - i)
    case Begin(i) => 14 * (n - i) + 1
    case TruncatePending(i) => 14 * (n - i)
    case WritePending(i) => 14 * (n - i) - 1
    case CreateVolume(i) => 14 * (n - i) - 2
    case CreateHelper(i) => 14 * (n - i) - 3
    case Import(i) => 14 * (n - i) - 4
    case DropHelper(i) => 14 * (n - i) - 5
    case WriteMarker(i) => 14 * (n - i) - 6
    case PublishMarker(i) => 14 * (n - i) - 7
    case NoteInitialized(i) => 14 * (n - i) - 8
    case UnlinkPending(i) => 14 * (n - i) - 9
    case FinallyHelper(i, _, _) => 14 * (n - i) - 10
    case FinallyVolume(i) => 14 * (n - i) - 11
  }

  lemma CheckingLowersRank(run: Run, w: World, pc: Pc, f: Fault)
    requires WithinBounds(run, pc) && Checking(pc)
    ensures Rank(run, Step(run, State(w, pc), f).pc) < Rank(run, pc)
  {
  }

  lemma CreatingLowersRank(run: Run, w: World, pc: Pc, f: Fault)
    requires WithinBounds(run, pc) && Creating(pc)
    ensures Rank(run, Step(run, State(w, pc), f).pc) < Rank(run, pc)
  {
  }

  lemma PublishingLowersRank(run: Run, w: World, pc: Pc, f: Fault)
    requires WithinBounds(run, pc) && Publishing(pc)
    ensures Rank(run, Step(run, State(w, pc), f).pc) < Rank(run, pc)
  {
  }

  lemma StepLowersRank(run: Run, s: State, f: Fault)
    requires WithinBounds(run, s.pc) && !Halted(s)
    ensures Rank(run, Step(run, s, f).pc) < Rank(run, s.pc)
  {
    if Checking(s.pc) { CheckingLowersRank(run, s.world, s.pc, f); }
    else if Creating(s.pc) { CreatingLowersRank(run, s.world, s.pc, f); }
    else if Publishing(s.pc) { PublishingLowersRank(run, s.world, s.pc, f); }
  }

  predicate Halting(run: Run, s: State, bound: int)
    requires WithinBounds(run, s.pc)
  {
    Halted(s) || Rank(run, s.pc) <= bound
  }

  lemma StartHalting(run: Run, w: World)
    ensures Halting(run, Start(run, w), 18 * |run.declared| + 3)
  {
  }

  lemma StepHalting(run: Run, s: State, f: Fault, bound: int)
    requires WithinBounds(run, s.pc) && Halting(run, s, bound)
    ensures Halting(run, Step(run, s, f), bound - 1)
  {
    if !Halted(s) { StepLowersRank(run, s, f); }
  }

  lemma {:induction false} RankAfter(run: Run, w: World, faults: nat -> Fault, n: nat)
    ensures Halting(run, Exec(run, w, faults, n), 18 * |run.declared| + 3 - n)
  {
    if n == 0 {
      StartHalting(run, w);
    } else {
      RankAfter(run, w, faults, n - 1);
      StepHalting(run, Exec(run, w, faults, n - 1), faults(n - 1), 18 * |run.declared| + 3 - (n - 1));
    }
  }

  /** Whatever fails, a run is over after a bounded number of steps. */
  lemma EveryRunHalts(run: Run, w: World, faults: nat -> Fault, n: nat)
    requires n > 18 * |run.declared| + 3
    ensures Halted(Exec(run, w, faults, n))
  {
    RankAfter(run, w, faults, n);
  }

  // ---------- what validation establishes ----------

  predicate Admits(run: Run, w: World, k: nat)
    requires k < |run.declared|
  {
    var v, initial := run.declared[k].name, InitialOf(run, w, k);
    && (v in w.volumes ==> w.volumes[v].owned)
    && (v in w.ready ==> v in w.volumes)
    && (v !in w.ready ==> !(HasOld(run, w) && initial.Unset?) && !(initial.PreviousContainer? && !HasOld(run, w)))
  }

  predicate AdmitsUpTo(run: Run, w: World, n: nat)
    requires n <= |run.declared|
  {
    (HasOld(run, w) ==> w.previous.owned) && forall k | 0 <= k < n :: Admits(run, w, k)
  }

  predicate Accepts(run: Run, w: World) {
    AdmitsUpTo(run, w, |run.declared|)
  }

  /** Validation has looked at the first n volumes of w0, removing only unfinished ones of ours. */
  predicate Examined(run: Run, w0: World, w: World, n: nat)
    requires n <= |run.declared|
  {
    && AdmitsUpTo(run, w0, n) && w.ready == w0.ready && w.previous == w0.previous
    && (forall v | v in w.volumes :: v in w0.volumes && w.volumes[v] == w0.volumes[v])
    && (forall v | v in w0.volumes && v !in w.volumes :: w0.volumes[v].owned && v !in w0.ready)
  }

  predicate Trail(run: Run, w0: World, s: State)
    requires WithinBounds(run, s.pc)
  {
    match s.pc
    case Validate(i) => Examined(run, w0, s.world, i)
    case RemoveHelper(i) => Examined(run, w0, s.world, i)
    case RemoveVolume(i) => Examined(run, w0, s.world, i)
    case ClearPending(i) => Examined(run, w0, s.world, i)
    case Raised => s.world.previous == w0.previous || Accepts(run, w0)
    case _ => Accepts(run, w0)
  }

  lemma ValidateKeepsTrail(run: Run, w0: World, s: State, f: Fault)
    requires Inv(run, s) && Trail(run, w0, s) && s.pc.Validate?
    ensures Trail(run, w0, Step(run, s, f))
  {
  }

  lemma RecoverKeepsTrail(run: Run, w0: World, s: State, f: Fault)
    requires Inv(run, s) && Trail(run, w0, s) && Checking(s.pc) && !s.pc.Validate?
    ensures Trail(run, w0, Step(run, s, f))
  {
  }

  lemma LaterStepsAccepted(run: Run, s: State, f: Fault)
    requires WithinBounds(run, s.pc) && !Checking(s.pc) && !Halted(s)
    ensures !Checking(Step(run, s, f).pc)
  {
  }

  lemma StepKeepsTrail(run: Run, w0: World, s: State, f: Fault)
    requires Inv(run, s) && Trail(run, w0, s)
    ensures Trail(run, w0, Step(run, s, f))
  {
    if s.pc.Validate? { ValidateKeepsTrail(run, w0, s, f); }
    else if Checking(s.pc) { RecoverKeepsTrail(run, w0, s, f); }
    else if !Halted(s) { LaterStepsAccepted(run, s, f); }
  }

  lemma ExecKeepsTrail(run: Run, w: World, faults: nat -> Fault, n: nat)
    requires Sound(w)
    ensures Trail(run, w, Exec(run, w, faults, n))
  {
    var p := (s: State) => Inv(run, s) && Trail(run, w, s);
    forall s: State, f: Fault | WithinBounds(run, s.pc) && p(s) ensures p(Step(run, s, f)) {
      StepKeepsInv(run, s, f);
      StepKeepsTrail(run, w, s, f);
    }
    Always(run, w, faults, n, p);
  }

  /** The serving container is stopped only after every volume has passed validation. */
  lemma StopsOnlyAfterValidation(run: Run, w: World, faults: nat -> Fault, n: nat)
    requires Sound(w)
    requires Exec(run, w, faults, n).world.previous != w.previous || Exec(run, w, faults, n).pc.Done?
    ensures Accepts(run, w)
  {
    ExecKeepsTrail(run, w, faults, n);
    ExecKeepsInv(run, w, faults, n);
    if Checking(Exec(run, w, faults, n).pc) { }
  }

  // ---------- where the data of a new volume comes from ----------

  predicate Sourced(run: Run, w: World, v: string)
    requires v in w.volumes
  {
    exists k :: 0 <= k < |run.declared| && run.declared[k].name == v && w.volumes[v].data == Complete(OriginOf(run, w, k))
  }

  /** Every volume that became ready since w0 holds what its declaration asks for. */
  predicate NewlyReadyAreSourced(run: Run, w0: World, w: World) {
    && HasOld(run, w) == HasOld(run, w0)
    && forall v | v in w.ready && v !in w0.ready && v in w.volumes :: Sourced(run, w, v)
  }

  predicate Unfinished(run: Run, s: State)
    requires WithinBounds(run, s.pc)
  {
    s.pc.RemoveVolume? || Creating(s.pc) || (Publishing(s.pc) && !s.pc.NoteInitialized? && !s.pc.UnlinkPending?)
  }

  lemma StepKeepsData(run: Run, s: State, f: Fault, v: string)
    requires WithinBounds(run, s.pc) && v in s.world.ready
    requires Unfinished(run, s) ==> run.declared[s.pc.i].name !in s.world.ready
    ensures v in Step(run, s, f).world.volumes ==>
              v in s.world.volumes && Step(run, s, f).world.volumes[v] == s.world.volumes[v]
  {
  }

  lemma StepAddsReady(run: Run, s: State, f: Fault, v: string)
    requires WithinBounds(run, s.pc) && v !in s.world.ready && v in Step(run, s, f).world.ready
    ensures s.pc.PublishMarker? && v == run.declared[s.pc.i].name
    ensures Step(run, s, f).world.volumes == s.world.volumes && Step(run, s, f).world.previous == s.world.previous
  {
    if !s.pc.PublishMarker? { ReadyStays(run, s, f); }
  }

  lemma ReadyStays(run: Run, s: State, f: Fault)
    requires WithinBounds(run, s.pc) && !s.pc.PublishMarker?
    ensures Step(run, s, f).world.ready == s.world.ready
  {
    if Checking(s.pc) { CheckingKeepsReady(run, s.world, s.pc, f); }
    else if Creating(s.pc) { CreatingKeepsReady(run, s.world, s.pc, f); }
  }

  lemma CheckingKeepsReady(run: Run, w: World, pc: Pc, f: Fault)
    requires WithinBounds(run, pc) && Checking(pc)
    ensures CheckingStep(run, w, pc, f).world.ready == w.ready
  {
  }

  lemma CreatingKeepsReady(run: Run, w: World, pc: Pc, f: Fault)
    requires WithinBounds(run, pc) && Creating(pc)
    ensures CreatingStep(run, w, pc, f).world.ready == w.ready
  {
  }

  lemma UnfinishedIsUnready(run: Run, s: State)
    requires Inv(run, s)
    ensures Unfinished(run, s) ==> run.declared[s.pc.i].name !in s.world.ready
  {
  }

  lemma StepKeepsSourced(run: Run, w0: World, s: State, f: Fault)
    requires Inv(run, s) && NewlyReadyAreSourced(run, w0, s.world)
    ensures NewlyReadyAreSourced(run, w0, Step(run, s, f).world)
  {
    var w, w' := s.world, Step(run, s, f).world;
    UnfinishedIsUnready(run, s);
    assert HasOld(run, w') == HasOld(run, w) by { HasOldIsFixed(run, s, f); }
    forall v | v in w'.ready && v !in w0.ready && v in w'.volumes
      ensures Sourced(run, w', v)
    {
      if v in w.ready {
        StepKeepsData(run, s, f, v);
        var k :| 0 <= k < |run.declared| && run.declared[k].name == v && w.volumes[v].data == Complete(OriginOf(run, w, k));
        assert OriginOf(run, w', k) == OriginOf(run, w, k);
      } else {
        StepAddsReady(run, s, f, v);
        assert Populated(run, w, s.pc.i);
        assert OriginOf(run, w', s.pc.i) == OriginOf(run, w, s.pc.i);
      }
    }
  }

  lemma HasOldIsFixed(run: Run, s: State, f: Fault)
    requires WithinBounds(run, s.pc)
    ensures HasOld(run, Step(run, s, f).world) == HasOld(run, s.world)
  {
  }

  lemma ExecKeepsSourced(run: Run, w: World, faults: nat -> Fault, n: nat)
    requires Sound(w)
    ensures NewlyReadyAreSourced(run, w, Exec(run, w, faults, n).world)
  {
    var p := (s: State) => Inv(run, s) && NewlyReadyAreSourced(run, w, s.world);
    forall s: State, f: Fault | WithinBounds(run, s.pc) && p(s) ensures p(Step(run, s, f)) {
      StepKeepsInv(run, s, f);
      StepKeepsSourced(run, w, s, f);
    }
    Always(run, w, faults, n, p);
  }

  /** A deployment goes on only over complete data: a run that is done leaves every
      declared volume ready, existing and complete, and new ones filled from the
      declared source, whatever commands failed on the way. */
  lemma DoneMeansComplete(run: Run, w: World, faults: nat -> Fault, n: nat, k: nat)
    requires Sound(w) && k < |run.declared| && Exec(run, w, faults, n).pc.Done?
    ensures var w', v := Exec(run, w, faults, n).world, run.declared[k].name;
            v in w'.ready && v in w'.volumes && w'.volumes[v].owned && w'.volumes[v].data.Complete? &&
            (v in w.ready ==> SameVolume(w, w', v)) && (v !in w.ready ==> Sourced(run, w', v))
  {
    var v := run.declared[k].name;
    ExecKeepsInv(run, w, faults, n);
    StopsOnlyAfterValidation(run, w, faults, n);
    assert Admits(run, w, k);
    if v in w.ready {
      ReadyVolumeIsUntouched(run, w, faults, n, v);
    } else {
      ExecKeepsSourced(run, w, faults, n);
    }
    OwnedWhenNew(run, w, faults, n, v);
  }

  /** Every volume of the machine is one it was given or one of ours. */
  lemma OwnedWhenNew(run: Run, w: World, faults: nat -> Fault, n: nat, v: string)
    requires OwnedIfThere(w, v)
    ensures OwnedIfThere(Exec(run, w, faults, n).world, v)
  {
    var p := (s: State) => OwnedIfThere(s.world, v);
    forall s: State, f: Fault | WithinBounds(run, s.pc) && p(s) ensures p(Step(run, s, f)) { StepKeepsOwned(run, s, f, v); }
    Always(run, w, faults, n, p);
  }

  predicate OwnedIfThere(w: World, v: string) {
    v in w.volumes ==> w.volumes[v].owned
  }

  lemma StepKeepsOwned(run: Run, s: State, f: Fault, v: string)
    requires WithinBounds(run, s.pc) && OwnedIfThere(s.world, v)
    ensures OwnedIfThere(Step(run, s, f).world, v)
  {
  }

  // ---------- a run without faults ----------

  function NoFaults(n: nat): Fault { Ok }

  predicate Declares(run: Run, v: string) {
    Named(run, v, |run.declared|)
  }

  predicate Named(run: Run, v: string, n: nat) {
    exists k :: 0 <= k < n <= |run.declared| && run.declared[k].name == v
  }

  /** An unfinished volume that was begun with helper h. */
  predicate Leftover(w: World, v: string, h: string) {
    v in w.volumes && v !in w.ready && w.volumes[v].initializer == h
  }

  /** Validation of the first n volumes finds one that was begun with helper h, and removes both. */
  predicate Freed(run: Run, w: World, h: string, n: nat)
    requires n <= |run.declared|
  {
    exists k :: 0 <= k < n && Leftover(w, run.declared[k].name, h)
  }

  function Remaining(run: Run, w: World, n: nat): set<string>
    requires n <= |run.declared|
  {
    set h | h in w.helpers && !Freed(run, w, h, n)
  }

  /** The run has to make a helper for volume k. */
  predicate NeedsHelper(run: Run, w: World, k: nat)
    requires k < |run.declared|
  {
    run.declared[k].name !in w.ready && !Named(run, run.declared[k].name, k)
  }

  predicate NamesUsable(run: Run, w: World, n: nat)
    requires n <= |run.declared|
  {
    forall k: nat | k < n && NeedsHelper(run, w, k) :: HelperName(run, k) !in Remaining(run, w, |run.declared|)
  }

  /** The names of the helpers that the run makes are free, or taken by a helper that it removes
      with an unfinished volume it declares. */
  predicate HelperNamesUsable(run: Run, w: World) {
    NamesUsable(run, w, |run.declared|)
  }

  predicate ReadyFrom(run: Run, w0: World, w: World, n: nat) {
    && w0.ready <= w.ready
    && forall v | v in w.ready && v !in w0.ready :: Named(run, v, n)
  }

  predicate RemovedFrom(run: Run, w0: World, w: World, n: nat) {
    forall v | v in w0.volumes && v !in w.volumes :: Named(run, v, n)
  }

  /** While volume i is worked on; `n` volumes have been begun and `m` have their marker. */
  predicate Underway(run: Run, w0: World, w: World, n: nat, m: nat)
    requires n <= |run.declared|
  {
    w.helpers.Keys == Remaining(run, w0, |run.declared|) && NamesUsable(run, w0, n) && ReadyFrom(run, w0, w, m)
  }

  predicate Helping(run: Run, w0: World, w: World, i: nat)
    requires i < |run.declared|
  {
    && w.helpers.Keys == Remaining(run, w0, |run.declared|) + {HelperName(run, i)}
    && HelperName(run, i) !in Remaining(run, w0, |run.declared|)
    && NamesUsable(run, w0, i + 1) && ReadyFrom(run, w0, w, i)
  }

  /** What a run without faults keeps: which helpers are left, and why it raises if it does. */
  predicate Progress(run: Run, w0: World, s: State)
    requires WithinBounds(run, s.pc)
  {
    var w := s.world;
    match s.pc
    case Validate(i) => w.helpers.Keys == Remaining(run, w0, i) && RemovedFrom(run, w0, w, i)
    case RemoveHelper(i) => w.helpers.Keys == Remaining(run, w0, i) && RemovedFrom(run, w0, w, i)
    case RemoveVolume(i) => w.helpers.Keys == Remaining(run, w0, i + 1) && RemovedFrom(run, w0, w, i)
    case ClearPending(i) => w.helpers.Keys == Remaining(run, w0, i + 1) && RemovedFrom(run, w0, w, i + 1)
    case StopOld => Underway(run, w0, w, 0, 0)
    case Begin(i) => Underway(run, w0, w, i, i)
    case TruncatePending(i) => Underway(run, w0, w, i, i)
    case WritePending(i) => Underway(run, w0, w, i, i)
    case CreateVolume(i) => Underway(run, w0, w, i, i)
    case CreateHelper(i) => Underway(run, w0, w, i, i)
    case Import(i) => Helping(run, w0, w, i)
    case DropHelper(i) => Helping(run, w0, w, i)
    case WriteMarker(i) => Underway(run, w0, w, i + 1, i)
    case PublishMarker(i) => Underway(run, w0, w, i + 1, i)
    case NoteInitialized(i) => Underway(run, w0, w, i + 1, i + 1)
    case UnlinkPending(i) => Underway(run, w0, w, i + 1, i + 1)
    case FinallyHelper(i, initialized, raising) =>
      if initialized then !raising && Underway(run, w0, w, i + 1, i + 1) else !HelperNamesUsable(run, w0)
    case FinallyVolume(i) => !HelperNamesUsable(run, w0)
    case Done => HelperNamesUsable(run, w0)
    case Raised => !(Accepts(run, w0) && HelperNamesUsable(run, w0))
  }

  predicate Smooth(run: Run, w0: World, s: State) {
    Inv(run, s) && Trail(run, w0, s) && Progress(run, w0, s) && HasOld(run, w0) == HasOld(run, s.world)
  }

  lemma StartIsSmooth(run: Run, w: World)
    requires Sound(w)
    ensures Smooth(run, w, Start(run, w))
  {
    assert Remaining(run, w, 0) == w.helpers.Keys;
  }

  /** Looking at a volume with no leftover frees no helper. */
  lemma NothingFreed(run: Run, w: World, n: nat)
    requires n < |run.declared|
    requires forall h | h in Remaining(run, w, n) :: !Leftover(w, run.declared[n].name, h)
    ensures Remaining(run, w, n + 1) == Remaining(run, w, n)
  {
  }

  lemma OneFreed(run: Run, w: World, n: nat, h: string)
    requires n < |run.declared| && Leftover(w, run.declared[n].name, h)
    ensures Remaining(run, w, n + 1) == Remaining(run, w, n) - {h}
  {
    assert forall other | Leftover(w, run.declared[n].name, other) :: other == h;
  }

  /** A removed volume was freed when its name first came up. */
  lemma RemovedIsFreed(run: Run, w0: World, v: string, n: nat, h: string)
    requires n <= |run.declared| && Named(run, v, n) && h in Remaining(run, w0, n)
    ensures !Leftover(w0, v, h)
  {
  }

  lemma ValidateIsSmooth(run: Run, w0: World, s: State)
    requires Smooth(run, w0, s) && s.pc.Validate?
    ensures Progress(run, w0, Step(run, s, Ok))
  {
    var w, i := s.world, s.pc.i;
    if i < |run.declared| {
      var v := run.declared[i].name;
      if v !in w.volumes {
        forall h | h in Remaining(run, w0, i) ensures !Leftover(w0, v, h) {
          if v in w0.volumes { RemovedIsFreed(run, w0, v, i, h); }
        }
        NothingFreed(run, w0, i);
        assert Step(run, s, Ok).pc.Raised? ==> !Admits(run, w0, i);
      } else if w.volumes[v].owned && v in w.ready {
        NothingFreed(run, w0, i);
      } else if w.volumes[v].owned && w.pending[v] !in w.helpers {
        NothingFreed(run, w0, i);
      } else {
        assert Step(run, s, Ok).pc.Raised? ==> !Admits(run, w0, i);
      }
    }
  }

  lemma RecoverIsSmooth(run: Run, w0: World, s: State)
    requires Smooth(run, w0, s) && Checking(s.pc) && !s.pc.Validate?
    ensures Progress(run, w0, Step(run, s, Ok))
  {
    var w, i := s.world, s.pc.i;
    var v := run.declared[i].name;
    match s.pc
    case RemoveHelper(_) => OneFreed(run, w0, i, w.pending[v]);
    case RemoveVolume(_) =>
    case ClearPending(_) => assert Step(run, s, Ok).pc.Raised? ==> !Admits(run, w0, i);
  }

  lemma UnusableName(run: Run, w0: World, s: State)
    requires Smooth(run, w0, s) && s.pc.CreateHelper?
    ensures NeedsHelper(run, w0, s.pc.i)
  {
  }

  lemma CreateIsSmooth(run: Run, w0: World, s: State)
    requires Smooth(run, w0, s) && Creating(s.pc) && !s.pc.CreateHelper? && !s.pc.Import?
    ensures Progress(run, w0, Step(run, s, Ok))
  {
  }

  lemma HelperIsSmooth(run: Run, w0: World, s: State)
    requires Smooth(run, w0, s) && s.pc.CreateHelper?
    ensures Progress(run, w0, Step(run, s, Ok))
  {
    UnusableName(run, w0, s);
    if HelperName(run, s.pc.i) in s.world.helpers { TakenIsSmooth(run, w0, s); } else { MadeIsSmooth(run, w0, s); }
  }

  lemma TakenIsSmooth(run: Run, w0: World, s: State)
    requires Smooth(run, w0, s) && s.pc.CreateHelper? && NeedsHelper(run, w0, s.pc.i)
    requires HelperName(run, s.pc.i) in s.world.helpers
    ensures Progress(run, w0, Step(run, s, Ok))
  {
  }

  lemma MadeIsSmooth(run: Run, w0: World, s: State)
    requires Smooth(run, w0, s) && s.pc.CreateHelper? && HelperName(run, s.pc.i) !in s.world.helpers
    ensures Progress(run, w0, Step(run, s, Ok))
  {
  }

  lemma ImportIsSmooth(run: Run, w0: World, s: State)
    requires Smooth(run, w0, s) && s.pc.Import?
    ensures Progress(run, w0, Step(run, s, Ok))
  {
    assert Admits(run, w0, s.pc.i);
    assert InitialOf(run, w0, s.pc.i) == InitialOf(run, s.world, s.pc.i);
  }

  lemma PublishIsSmooth(run: Run, w0: World, s: State)
    requires Smooth(run, w0, s) && Publishing(s.pc)
    ensures Progress(run, w0, Step(run, s, Ok))
  {
  }

  lemma TurnIsSmooth(run: Run, w0: World, s: State)
    requires Smooth(run, w0, s) && (s.pc.StopOld? || s.pc.Begin? || s.pc.FinallyHelper? || s.pc.FinallyVolume?)
    ensures Progress(run, w0, Step(run, s, Ok))
  {
    if s.pc.StopOld? || s.pc.Begin? { BeginIsSmooth(run, w0, s); }
  }

  lemma BeginIsSmooth(run: Run, w0: World, s: State)
    requires Smooth(run, w0, s) && (s.pc.StopOld? || s.pc.Begin?)
    ensures Progress(run, w0, Step(run, s, Ok))
  {
  }

  lemma StepIsSmooth(run: Run, w0: World, s: State)
    requires Smooth(run, w0, s)
    ensures Smooth(run, w0, Step(run, s, Ok))
  {
    StepKeepsInv(run, s, Ok);
    StepKeepsTrail(run, w0, s, Ok);
    HasOldIsFixed(run, s, Ok);
    StepKeepsProgress(run, w0, s);
  }

  lemma StepKeepsProgress(run: Run, w0: World, s: State)
    requires Smooth(run, w0, s)
    ensures Progress(run, w0, Step(run, s, Ok))
  {
    if Checking(s.pc) { CheckIsSmooth(run, w0, s); }
    else if Creating(s.pc) { PopulateIsSmooth(run, w0, s); }
    else if Publishing(s.pc) { PublishIsSmooth(run, w0, s); }
    else if !Halted(s) { TurnIsSmooth(run, w0, s); }
  }

  lemma CheckIsSmooth(run: Run, w0: World, s: State)
    requires Smooth(run, w0, s) && Checking(s.pc)
    ensures Progress(run, w0, Step(run, s, Ok))
  {
    if s.pc.Validate? { ValidateIsSmooth(run, w0, s); } else { RecoverIsSmooth(run, w0, s); }
  }

  lemma PopulateIsSmooth(run: Run, w0: World, s: State)
    requires Smooth(run, w0, s) && Creating(s.pc)
    ensures Progress(run, w0, Step(run, s, Ok))
  {
    if s.pc.CreateHelper? { HelperIsSmooth(run, w0, s); }
    else if s.pc.Import? { ImportIsSmooth(run, w0, s); }
    else { CreateIsSmooth(run, w0, s); }
  }

  lemma {:induction false} RunIsSmooth(run: Run, w: World, n: nat)
    requires Sound(w)
    ensures Smooth(run, w, Exec(run, w, NoFaults, n))
  {
    if n == 0 {
      StartIsSmooth(run, w);
    } else {
      RunIsSmooth(run, w, n - 1);
      StepIsSmooth(run, w, Exec(run, w, NoFaults, n - 1));
    }
  }

  /** A run that nothing interrupts completes exactly when its declarations are admissible and the
      names of its helpers can be used. */
  lemma UninterruptedRunCompletes(run: Run, w: World, n: nat)
    requires Sound(w) && n > 18 * |run.declared| + 3
    ensures Exec(run, w, NoFaults, n).pc.Done? <==> Accepts(run, w) && HelperNamesUsable(run, w)
    ensures !Accepts(run, w) ==> Exec(run, w, NoFaults, n).world.previous == w.previous
  {
    EveryRunHalts(run, w, NoFaults, n);
    RunIsSmooth(run, w, n);
    if Exec(run, w, NoFaults, n).pc.Done? { StopsOnlyAfterValidation(run, w, NoFaults, n); }
  }
}
