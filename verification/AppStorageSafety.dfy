/** What every step of the storage script keeps, over any sequence of runs
    each of which may stop after any step. */
module AppStorageSafety {
  import opened AppStorage

  // ---------- the invariant between steps ----------

  /** A ready volume that exists holds all of its data; one that exists without
      being ready is recoverable; helpers belong to volumes that are not ready. */
  predicate Sound(w: World) {
    && (forall v | v in w.volumes && w.volumes[v].owned && v in w.ready :: w.volumes[v].data.Complete?)
    && (forall v | v in w.volumes && w.volumes[v].owned && v !in w.ready :: Recoverable(w, v))
    && (forall h | h in w.helpers :: SoundHelper(w, h))
    && (forall v | v in w.inUse :: v in w.volumes && v in w.ready)
  }

  predicate Recoverable(w: World, v: string)
    requires v in w.volumes
  {
    v in w.pending && w.pending[v] != "" && w.pending[v] == w.volumes[v].initializer
  }

  predicate SoundHelper(w: World, h: string)
    requires h in w.helpers
  {
    var c := w.helpers[h];
    c.owned && c.initializer == h && !c.running && c.mounts !in w.ready &&
    c.mounts in w.volumes && w.volumes[c.mounts].owned && w.volumes[c.mounts].initializer == h
  }

  /** After validation every declared volume either exists and is ready, or is neither. */
  predicate Settled(run: Run, w: World, n: nat)
    requires n <= |run.declared|
  {
    forall k | 0 <= k < n :: run.declared[k].name in w.volumes <==> run.declared[k].name in w.ready
  }

  predicate ReadyUpTo(run: Run, w: World, n: nat)
    requires n <= |run.declared|
  {
    forall k | 0 <= k < n :: run.declared[k].name in w.ready
  }

  predicate Unmounted(w: World, v: string) {
    forall h | h in w.helpers :: w.helpers[h].mounts != v
  }

  predicate OldIsStopped(run: Run, w: World) {
    HasOld(run, w) && (|run.declared| > 0 || w.previous.storage) ==> !w.previous.running
  }

  /** The volume of step i has been created for this run's helper and is not ready yet. */
  predicate Claimed(run: Run, w: World, i: nat)
    requires i < |run.declared|
  {
    var v := run.declared[i].name;
    v in w.volumes && w.volumes[v].owned && w.volumes[v].initializer == HelperName(run, i) && v !in w.ready
  }

  predicate Populated(run: Run, w: World, i: nat)
    requires i < |run.declared|
  {
    var v := run.declared[i].name;
    v in w.volumes && w.volumes[v].owned && w.volumes[v].data == Complete(OriginOf(run, w, i))
  }

  /** What is known at each program point, on top of Sound. */
  predicate AtPc(run: Run, s: State)
    requires WithinBounds(run, s.pc)
  {
    var w := s.world;
    match s.pc
    case Validate(i) => Settled(run, w, i)
    case RemoveHelper(i) =>
      var v := run.declared[i].name;
      Settled(run, w, i) && v in w.volumes && w.volumes[v].owned && v !in w.ready
    case RemoveVolume(i) =>
      var v := run.declared[i].name;
      Settled(run, w, i) && v in w.volumes && w.volumes[v].owned && v !in w.ready && w.volumes[v].initializer !in w.helpers
    case ClearPending(i) =>
      var v := run.declared[i].name;
      Settled(run, w, i) && v !in w.volumes && v !in w.ready
    case StopOld => Settled(run, w, |run.declared|)
    case Begin(i) => Settled(run, w, |run.declared|) && OldIsStopped(run, w) && ReadyUpTo(run, w, i)
    case TruncatePending(i) => Vacant(run, s)
    case WritePending(i) => Vacant(run, s)
    case CreateVolume(i) =>
      var v := run.declared[i].name;
      Vacant(run, s) && v in w.pending && w.pending[v] == HelperName(run, i)
    case CreateHelper(i) => Owning(run, s) && Unmounted(w, run.declared[i].name)
    case Import(i) => Owning(run, s) && Importing(run, w, i)
    case DropHelper(i) => Owning(run, s) && Populated(run, w, i)
    case WriteMarker(i) => Owning(run, s) && Populated(run, w, i) && HelperName(run, i) !in w.helpers
    case PublishMarker(i) =>
      Owning(run, s) && Populated(run, w, i) && HelperName(run, i) !in w.helpers && run.declared[i].name in w.temporary
    case NoteInitialized(i) => Published(run, s)
    case UnlinkPending(i) => Published(run, s)
    case FinallyHelper(i, initialized, raising) =>
      if initialized then Published(run, s)
      else raising
    case FinallyVolume(i) => true
    case Done => Settled(run, w, |run.declared|) && OldIsStopped(run, w) && ReadyUpTo(run, w, |run.declared|)
    case Raised => true
  }

  predicate Vacant(run: Run, s: State)
    requires WithinBounds(run, s.pc) && (s.pc.TruncatePending? || s.pc.WritePending? || s.pc.CreateVolume?)
  {
    Settled(run, s.world, |run.declared|) && OldIsStopped(run, s.world) && ReadyUpTo(run, s.world, s.pc.i) &&
    run.declared[s.pc.i].name !in s.world.volumes && run.declared[s.pc.i].name !in s.world.ready
  }

  /** All volumes but the one being initialised are settled, and that one is ours. */
  predicate Owning(run: Run, s: State)
    requires WithinBounds(run, s.pc) && !s.pc.StopOld? && !s.pc.Done? && !s.pc.Raised? && !s.pc.Validate? && !s.pc.Begin?
  {
    SettledExcept(run, s.world, s.pc.i) && OldIsStopped(run, s.world) && Claimed(run, s.world, s.pc.i) &&
    ReadyUpTo(run, s.world, s.pc.i)
  }

  predicate Published(run: Run, s: State)
    requires WithinBounds(run, s.pc) && !s.pc.StopOld? && !s.pc.Done? && !s.pc.Raised? && !s.pc.Validate? && !s.pc.Begin?
  {
    var v := run.declared[s.pc.i].name;
    Settled(run, s.world, |run.declared|) && OldIsStopped(run, s.world) && Populated(run, s.world, s.pc.i) &&
    ReadyUpTo(run, s.world, s.pc.i) && v in s.world.ready && v !in s.world.inUse && HelperName(run, s.pc.i) !in s.world.helpers
  }

  predicate SettledExcept(run: Run, w: World, i: nat)
    requires i < |run.declared|
  {
    forall k | 0 <= k < |run.declared| && run.declared[k].name != run.declared[i].name ::
      run.declared[k].name in w.volumes <==> run.declared[k].name in w.ready
  }

  predicate Inv(run: Run, s: State) {
    WithinBounds(run, s.pc) && Sound(s.world) && AtPc(run, s)
  }

  lemma ValidatingKeepsInv(run: Run, s: State, f: Fault)
    requires Inv(run, s) && (s.pc.Validate? || s.pc.StopOld? || s.pc.Begin?)
    ensures Inv(run, Step(run, s, f))
  {
  }

  lemma FreeingKeepsInv(run: Run, s: State, f: Fault)
    requires Inv(run, s) && s.pc.RemoveHelper?
    ensures Inv(run, Step(run, s, f))
  {
  }

  lemma RecoveringKeepsInv(run: Run, s: State, f: Fault)
    requires Inv(run, s) && (s.pc.RemoveVolume? || s.pc.ClearPending?)
    ensures Inv(run, Step(run, s, f))
  {
  }

  lemma NamingKeepsInv(run: Run, s: State, f: Fault)
    requires Inv(run, s) && (s.pc.TruncatePending? || s.pc.WritePending?)
    ensures Inv(run, Step(run, s, f))
  {
  }

  lemma ClaimingKeepsInv(run: Run, s: State, f: Fault)
    requires Inv(run, s) && s.pc.CreateVolume?
    ensures Inv(run, Step(run, s, f))
  {
  }

  lemma DataKeepsSound(w: World, v: string, data: Data)
    requires Sound(w) && v !in w.ready
    ensures Sound(WithData(w, v, data))
  {
  }

  lemma HelperKeepsSound(w: World, h: string, v: string)
    requires Sound(w) && h !in w.helpers
    requires v in w.volumes && w.volumes[v].owned && w.volumes[v].initializer == h && v !in w.ready
    ensures Sound(w.(helpers := w.helpers[h := Helper(true, h, false, v)]))
  {
  }

  lemma MadeHelperKeepsInv(run: Run, s: State)
    requires Inv(run, s) && s.pc.CreateHelper?
    ensures Inv(run, Step(run, s, Ok))
  {
    var w, i := s.world, s.pc.i;
    var h, v := HelperName(run, i), run.declared[i].name;
    if h !in w.helpers {
      HelperKeepsSound(w, h, v);
      DataKeepsSound(w.(helpers := w.helpers[h := Helper(true, h, false, v)]), v, Complete(FromImage));
    }
  }

  lemma FailedHelperKeepsInv(run: Run, s: State, f: Fault)
    requires Inv(run, s) && s.pc.CreateHelper? && !f.Ok?
    ensures Inv(run, Step(run, s, f))
  {
    var w, i := s.world, s.pc.i;
    var h, v := HelperName(run, i), run.declared[i].name;
    if h !in w.helpers {
      HelperKeepsSound(w, h, v);
      DataKeepsSound(w.(helpers := w.helpers[h := Helper(true, h, false, v)]), v, Partial);
      DataKeepsSound(w, v, Partial);
    }
  }

  lemma HelperKeepsInv(run: Run, s: State, f: Fault)
    requires Inv(run, s) && s.pc.CreateHelper?
    ensures Inv(run, Step(run, s, f))
  {
    if f.Ok? { MadeHelperKeepsInv(run, s); } else { FailedHelperKeepsInv(run, s, f); }
  }

  lemma ImportKeepsInv(run: Run, s: State, f: Fault)
    requires Inv(run, s) && s.pc.Import?
    ensures Inv(run, Step(run, s, f))
  {
    var w, v := s.world, run.declared[s.pc.i].name;
    DataKeepsSound(w, v, Partial);
    DataKeepsSound(w, v, Complete(FromPrevious));
  }

  lemma PreparingMarkerKeepsInv(run: Run, s: State, f: Fault)
    requires Inv(run, s) && (s.pc.DropHelper? || s.pc.WriteMarker?)
    ensures Inv(run, Step(run, s, f))
  {
  }

  lemma PublishingKeepsInv(run: Run, s: State, f: Fault)
    requires Inv(run, s) && s.pc.PublishMarker?
    ensures Inv(run, Step(run, s, f))
  {
  }

  lemma NotingKeepsInv(run: Run, s: State, f: Fault)
    requires Inv(run, s) && (s.pc.NoteInitialized? || s.pc.UnlinkPending?)
    ensures Inv(run, Step(run, s, f))
  {
  }

  lemma DroppingKeepsInv(run: Run, s: State, f: Fault)
    requires Inv(run, s) && s.pc.FinallyHelper?
    ensures Inv(run, Step(run, s, f))
  {
  }

  lemma CleaningKeepsInv(run: Run, s: State, f: Fault)
    requires Inv(run, s) && s.pc.FinallyVolume?
    ensures Inv(run, Step(run, s, f))
  {
  }

  lemma StepKeepsInv(run: Run, s: State, f: Fault)
    requires Inv(run, s)
    ensures Inv(run, Step(run, s, f))
  {
    if Checking(s.pc) { CheckingKeepsInv(run, s, f); }
    else if Creating(s.pc) { CreatingKeepsInv(run, s, f); }
    else if s.pc.DropHelper? || s.pc.WriteMarker? { PreparingMarkerKeepsInv(run, s, f); }
    else if s.pc.PublishMarker? { PublishingKeepsInv(run, s, f); }
    else if Publishing(s.pc) { NotingKeepsInv(run, s, f); }
    else if s.pc.StopOld? || s.pc.Begin? { ValidatingKeepsInv(run, s, f); }
    else if s.pc.FinallyHelper? { DroppingKeepsInv(run, s, f); }
    else if s.pc.FinallyVolume? { CleaningKeepsInv(run, s, f); }
  }

  lemma CheckingKeepsInv(run: Run, s: State, f: Fault)
    requires Inv(run, s) && Checking(s.pc)
    ensures Inv(run, Step(run, s, f))
  {
    if s.pc.Validate? { ValidatingKeepsInv(run, s, f); }
    else if s.pc.RemoveHelper? { FreeingKeepsInv(run, s, f); }
    else { RecoveringKeepsInv(run, s, f); }
  }

  lemma CreatingKeepsInv(run: Run, s: State, f: Fault)
    requires Inv(run, s) && Creating(s.pc)
    ensures Inv(run, Step(run, s, f))
  {
    if s.pc.CreateHelper? { HelperKeepsInv(run, s, f); }
    else if s.pc.Import? { ImportKeepsInv(run, s, f); }
    else if s.pc.CreateVolume? { ClaimingKeepsInv(run, s, f); }
    else { NamingKeepsInv(run, s, f); }
  }

  /** What holds at the start and is kept by every step holds wherever a run stops. */
  lemma {:induction false} Always(run: Run, w: World, faults: nat -> Fault, n: nat, p: State -> bool)
    requires p(Start(run, w))
    requires forall s: State, f: Fault | WithinBounds(run, s.pc) && p(s) :: p(Step(run, s, f))
    ensures p(Exec(run, w, faults, n))
  {
    if n > 0 { Always(run, w, faults, n - 1, p); }
  }

  /** Wherever a run stops, the invariant holds. */
  lemma ExecKeepsInv(run: Run, w: World, faults: nat -> Fault, n: nat)
    requires Sound(w)
    ensures Inv(run, Exec(run, w, faults, n))
  {
    var p := (s: State) => Inv(run, s);
    forall s: State, f: Fault | WithinBounds(run, s.pc) && p(s) ensures p(Step(run, s, f)) { StepKeepsInv(run, s, f); }
    Always(run, w, faults, n, p);
  }

  // ---------- ready volumes are never touched again ----------

  predicate Working(pc: Pc) {
    pc.TruncatePending? || pc.WritePending? || pc.CreateVolume? || pc.CreateHelper? || pc.Import? ||
    pc.DropHelper? || pc.WriteMarker? || pc.PublishMarker? || pc.NoteInitialized? || pc.UnlinkPending? ||
    pc.FinallyHelper? || pc.FinallyVolume?
  }

  predicate LeavesAlone(run: Run, s: State, v: string)
    requires WithinBounds(run, s.pc)
  {
    v in s.world.ready && (Working(s.pc) ==> run.declared[s.pc.i].name != v)
  }

  predicate SameVolume(w: World, w': World, v: string) {
    (v in w.volumes <==> v in w'.volumes) && (v in w.volumes ==> w.volumes[v] == w'.volumes[v])
  }

  lemma StepLeavesAlone(run: Run, s: State, f: Fault, v: string)
    requires WithinBounds(run, s.pc) && LeavesAlone(run, s, v)
    requires s.pc.RemoveVolume? ==> run.declared[s.pc.i].name != v
    ensures LeavesAlone(run, Step(run, s, f), v) && SameVolume(s.world, Step(run, s, f).world, v)
  {
  }

  lemma StepKeepsUntouched(run: Run, w: World, s: State, f: Fault, v: string)
    requires Inv(run, s) && LeavesAlone(run, s, v) && SameVolume(w, s.world, v)
    ensures LeavesAlone(run, Step(run, s, f), v) && SameVolume(w, Step(run, s, f).world, v)
  {
    StepLeavesAlone(run, s, f, v);
  }

  /** A volume whose marker was there when the run began stays exactly as it was,
      present or missing, wherever the run stops. */
  lemma ReadyVolumeIsUntouched(run: Run, w: World, faults: nat -> Fault, n: nat, v: string)
    requires Sound(w) && v in w.ready
    ensures LeavesAlone(run, Exec(run, w, faults, n), v)
    ensures SameVolume(w, Exec(run, w, faults, n).world, v)
  {
    var p := (s: State) => Inv(run, s) && LeavesAlone(run, s, v) && SameVolume(w, s.world, v);
    forall s: State, f: Fault | WithinBounds(run, s.pc) && p(s) ensures p(Step(run, s, f)) {
      StepKeepsInv(run, s, f);
      StepKeepsUntouched(run, w, s, f, v);
    }
    Always(run, w, faults, n, p);
  }

  /** No run that declares a ready but missing volume completes. */
  lemma MissingVolumeStopsTheRun(run: Run, w: World, faults: nat -> Fault, n: nat, k: nat)
    requires Sound(w) && k < |run.declared|
    requires run.declared[k].name in w.ready && run.declared[k].name !in w.volumes
    ensures !Exec(run, w, faults, n).pc.Done?
  {
    ExecKeepsInv(run, w, faults, n);
    ReadyVolumeIsUntouched(run, w, faults, n, run.declared[k].name);
  }

  // ---------- when a marker can lose its volume ----------

  /** Every marker has its volume. */
  predicate Backed(w: World) {
    forall v | v in w.ready :: v in w.volumes
  }

  /** The marker has been published but the script has not noted it yet. */
  predicate InGap(run: Run, s: State, f: Fault)
    requires WithinBounds(run, s.pc)
  {
    || (s.pc.PublishMarker? && run.declared[s.pc.i].name in s.world.temporary && !f.Ok? && f.applied)
    || (s.pc.NoteInitialized? && !f.Ok? && !f.applied)
  }

  lemma FinallyOverReadyMeansGap(run: Run, s: State, f: Fault, i: nat)
    requires WithinBounds(run, s.pc) && i < |run.declared|
    requires s.pc.CreateHelper? || s.pc.Import? || s.pc.DropHelper? || s.pc.WriteMarker? || s.pc.PublishMarker? ==>
               run.declared[s.pc.i].name !in s.world.ready
    requires Step(run, s, f).pc.FinallyHelper? && Step(run, s, f).pc.i == i && !Step(run, s, f).pc.initialized
    requires run.declared[i].name in Step(run, s, f).world.ready
    ensures InGap(run, s, f)
  {
  }

  lemma RemovalFollowsHelper(run: Run, s: State, f: Fault)
    requires WithinBounds(run, s.pc) && Step(run, s, f).pc.FinallyVolume?
    ensures s.pc.FinallyHelper? && s.pc.i == Step(run, s, f).pc.i && !s.pc.initialized && !f.Signal?
    ensures s.world.ready == Step(run, s, f).world.ready
  {
  }

  lemma UnreadyBeforePublishing(run: Run, s: State)
    requires Inv(run, s)
    ensures s.pc.CreateHelper? || s.pc.Import? || s.pc.DropHelper? || s.pc.WriteMarker? || s.pc.PublishMarker? ==>
              run.declared[s.pc.i].name !in s.world.ready
  {
  }

  lemma RemovalOverReadyMeansGap(run: Run, w: World, faults: nat -> Fault, n: nat)
    requires Sound(w)
    requires Exec(run, w, faults, n).pc.FinallyVolume?
    requires run.declared[Exec(run, w, faults, n).pc.i].name in Exec(run, w, faults, n).world.ready
    ensures n >= 2 && InGap(run, Exec(run, w, faults, n - 2), faults(n - 2)) && !faults(n - 1).Signal?
  {
    RemovalFollowsHelper(run, Exec(run, w, faults, n - 1), faults(n - 1));
    ExecKeepsInv(run, w, faults, n - 2);
    var s := Exec(run, w, faults, n - 2);
    UnreadyBeforePublishing(run, s);
    FinallyOverReadyMeansGap(run, s, faults(n - 2), Exec(run, w, faults, n - 1).pc.i);
  }

  /** The run was interrupted in the gap and the clean-up then removed the volume. */
  predicate LosesVolumeAt(run: Run, w: World, faults: nat -> Fault, k: nat) {
    InGap(run, Exec(run, w, faults, k), faults(k)) && !faults(k + 1).Signal? && Happens(faults(k + 2))
  }

  lemma StepUnbacks(run: Run, s: State, f: Fault)
    requires WithinBounds(run, s.pc)
    requires s.pc.RemoveVolume? ==> run.declared[s.pc.i].name !in s.world.ready
    requires s.pc.PublishMarker? ==> run.declared[s.pc.i].name in s.world.volumes
    requires Backed(s.world) && !Backed(Step(run, s, f).world)
    ensures s.pc.FinallyVolume? && run.declared[s.pc.i].name in s.world.ready && Happens(f)
  {
  }

  lemma HaltedStays(run: Run, w: World, faults: nat -> Fault, m: nat, n: nat)
    requires m <= n && Halted(Exec(run, w, faults, m))
    ensures Exec(run, w, faults, n) == Exec(run, w, faults, m)
    decreases n
  {
    if m < n { HaltedStays(run, w, faults, m, n - 1); }
  }

  lemma StepIntoGap(run: Run, s: State, f: Fault)
    requires Inv(run, s) && InGap(run, s, f)
    ensures var s' := Step(run, s, f); var v := run.declared[s.pc.i].name;
            s'.pc == FinallyHelper(s.pc.i, false, true) && v in s'.world.ready && !Referenced(s'.world, v)
  {
  }

  lemma GapLosesVolume(run: Run, w: World, faults: nat -> Fault, k: nat)
    requires Sound(w) && LosesVolumeAt(run, w, faults, k)
    ensures Halted(Exec(run, w, faults, k + 3)) && !Backed(Exec(run, w, faults, k + 3).world)
  {
    ExecKeepsInv(run, w, faults, k);
    var s0 := Exec(run, w, faults, k);
    StepIntoGap(run, s0, faults(k));
    var s1 := Exec(run, w, faults, k + 1);
    var s2 := Exec(run, w, faults, k + 2);
    assert s2 == FinallyHelperStep(run, s1.world, s1.pc, faults(k + 1));
    assert Exec(run, w, faults, k + 3) == FinallyVolumeStep(run, s2.world, s2.pc.i, faults(k + 2));
  }

  lemma UnbackedAt(run: Run, w: World, faults: nat -> Fault, n: nat)
    requires Sound(w) && Backed(Exec(run, w, faults, n).world) && !Backed(Exec(run, w, faults, n + 1).world)
    ensures n >= 2 && LosesVolumeAt(run, w, faults, n - 2)
  {
    ExecKeepsInv(run, w, faults, n);
    StepUnbacks(run, Exec(run, w, faults, n), faults(n));
    RemovalOverReadyMeansGap(run, w, faults, n);
  }

  predicate BackedAfter(run: Run, w: World, faults: nat -> Fault, n: nat) {
    Backed(Exec(run, w, faults, n).world)
  }

  /** The step at which some property of the steps is first lost. */
  lemma {:induction false} FirstLoss(holds: nat -> bool, n: nat) returns (m: nat)
    requires holds(0) && !holds(n)
    ensures m < n && holds(m) && !holds(m + 1)
  {
    if holds(n - 1) { m := n - 1; } else { m := FirstLoss(holds, n - 1); }
  }

  lemma GapLosesVolumeForGood(run: Run, w: World, faults: nat -> Fault, k: nat, n: nat)
    requires Sound(w) && k + 3 <= n && LosesVolumeAt(run, w, faults, k)
    ensures !BackedAfter(run, w, faults, n)
  {
    GapLosesVolume(run, w, faults, k);
    HaltedStays(run, w, faults, k + 3, n);
  }

  lemma MarkerWithoutVolumeHasGap(run: Run, w: World, faults: nat -> Fault, n: nat) returns (k: nat)
    requires Sound(w) && Backed(w) && !BackedAfter(run, w, faults, n)
    ensures k + 3 <= n && LosesVolumeAt(run, w, faults, k)
  {
    var m := FirstLoss((i: nat) => BackedAfter(run, w, faults, i), n);
    UnbackedAt(run, w, faults, m);
    k := m - 2;
  }

  /** Exactly when a run leaves a marker without its volume: it was interrupted
      between publishing the marker and noting it, and its clean-up went through. */
  lemma MarkerWithoutVolumeIffGap(run: Run, w: World, faults: nat -> Fault, n: nat)
    requires Sound(w) && Backed(w)
    ensures !BackedAfter(run, w, faults, n) <==> exists k: nat :: k + 3 <= n && LosesVolumeAt(run, w, faults, k)
  {
    if !BackedAfter(run, w, faults, n) {
      var k := MarkerWithoutVolumeHasGap(run, w, faults, n);
    }
    forall k: nat | k + 3 <= n && LosesVolumeAt(run, w, faults, k)
      ensures !BackedAfter(run, w, faults, n)
    {
      GapLosesVolumeForGood(run, w, faults, k, n);
    }
  }

  /** The steps of a run that is only ever killed: none of them fails or is interrupted. */
  predicate OnlyKilled(faults: nat -> Fault, n: nat) {
    forall k: nat | k < n :: faults(k).Ok?
  }

  /** A hard crash, wherever it comes, never leaves a marker without its volume. */
  lemma CrashKeepsVolumes(run: Run, w: World, faults: nat -> Fault, n: nat)
    requires Sound(w) && Backed(w) && OnlyKilled(faults, n)
    ensures BackedAfter(run, w, faults, n)
  {
    MarkerWithoutVolumeIffGap(run, w, faults, n);
  }
}
