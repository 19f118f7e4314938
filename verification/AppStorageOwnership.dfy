/** What a run of the storage script leaves alone whatever it finds on the host, sound or not,
    and whatever fails on the way. */
module AppStorageOwnership {
  import opened AppStorage
  import opened AppStorageSafety
  import opened AppStorageRecovery

  // ---------- volumes that are not declared ----------

  /** Volume, marker and files of v are as they were. */
  predicate Untouched(w: World, w': World, v: string) {
    && SameVolume(w, w', v) && (v in w'.ready <==> v in w.ready) && (v in w'.temporary <==> v in w.temporary)
    && (v in w'.pending <==> v in w.pending) && (v in w.pending ==> w'.pending[v] == w.pending[v])
  }

  lemma CheckingLeavesOthers(run: Run, w: World, pc: Pc, f: Fault, v: string)
    requires WithinBounds(run, pc) && Checking(pc) && !Declares(run, v)
    ensures Untouched(w, CheckingStep(run, w, pc, f).world, v)
  {
    if !pc.Validate? { assert run.declared[pc.i].name != v; }
  }

  lemma CreatingLeavesOthers(run: Run, w: World, pc: Pc, f: Fault, v: string)
    requires WithinBounds(run, pc) && Creating(pc) && run.declared[pc.i].name != v
    ensures Untouched(w, CreatingStep(run, w, pc, f).world, v)
  {
  }

  lemma PublishingLeavesOthers(run: Run, w: World, pc: Pc, f: Fault, v: string)
    requires WithinBounds(run, pc) && Publishing(pc) && run.declared[pc.i].name != v
    ensures Untouched(w, PublishingStep(run, w, pc, f).world, v)
  {
  }

  lemma StepLeavesOthers(run: Run, s: State, f: Fault, v: string)
    requires WithinBounds(run, s.pc) && !Declares(run, v)
    ensures Untouched(s.world, Step(run, s, f).world, v)
  {
    if Creating(s.pc) || Publishing(s.pc) || s.pc.FinallyVolume? { assert run.declared[s.pc.i].name != v; }
    if Checking(s.pc) { CheckingLeavesOthers(run, s.world, s.pc, f, v); }
    else if Creating(s.pc) { CreatingLeavesOthers(run, s.world, s.pc, f, v); }
    else if Publishing(s.pc) { PublishingLeavesOthers(run, s.world, s.pc, f, v); }
  }

  /** A volume that is not declared, its marker and its files stay as they are. */
  lemma UndeclaredIsUntouched(run: Run, w: World, faults: nat -> Fault, n: nat, v: string)
    requires !Declares(run, v)
    ensures Untouched(w, Exec(run, w, faults, n).world, v)
  {
    var p := (s: State) => Untouched(w, s.world, v);
    forall s: State, f: Fault | WithinBounds(run, s.pc) && p(s) ensures p(Step(run, s, f)) {
      StepLeavesOthers(run, s, f, v);
    }
    Always(run, w, faults, n, p);
  }

  // ---------- volumes of others ----------

  /** Not ours, or begun by something that left no matching record. */
  predicate Foreign(w: World, v: string) {
    && v in w.volumes
    && (!w.volumes[v].owned
        || (v !in w.ready && !(v in w.pending && w.pending[v] != "" && w.pending[v] == w.volumes[v].initializer)))
  }

  /** Validation has not come past the first declaration of v. */
  predicate NotPassed(run: Run, pc: Pc, v: string)
    requires WithinBounds(run, pc)
  {
    match pc
    case Validate(i) => !Named(run, v, i)
    case RemoveHelper(i) => !Named(run, v, i + 1)
    case RemoveVolume(i) => !Named(run, v, i + 1)
    case ClearPending(i) => !Named(run, v, i + 1)
    case Raised => true
    case _ => !Declares(run, v)
  }

  lemma ForeignStopsValidation(run: Run, s: State, f: Fault, v: string)
    requires WithinBounds(run, s.pc) && s.pc.Validate? && Foreign(s.world, v) && NotPassed(run, s.pc, v)
    ensures NotPassed(run, Step(run, s, f).pc, v) && Step(run, s, f).world == s.world
  {
    var i := s.pc.i;
    if i < |run.declared| && !Step(run, s, f).pc.Raised? {
      assert run.declared[i].name != v;
      assert !Named(run, v, i + 1);
    }
  }

  lemma ForeignIsNotNamed(run: Run, pc: Pc, v: string)
    requires WithinBounds(run, pc) && NotPassed(run, pc, v) && (pc.RemoveHelper? || pc.RemoveVolume? || pc.ClearPending?)
    ensures run.declared[pc.i].name != v
  {
  }

  lemma RecoveryKeepsForeign(run: Run, s: State, f: Fault, v: string)
    requires WithinBounds(run, s.pc) && (s.pc.RemoveHelper? || s.pc.RemoveVolume? || s.pc.ClearPending?)
    requires NotPassed(run, s.pc, v)
    ensures NotPassed(run, Step(run, s, f).pc, v) && Untouched(s.world, Step(run, s, f).world, v)
  {
    ForeignIsNotNamed(run, s.pc, v);
  }

  lemma StepKeepsNotDeclared(run: Run, s: State, f: Fault, v: string)
    requires WithinBounds(run, s.pc) && !Checking(s.pc) && (s.pc.Raised? || !Declares(run, v))
    ensures NotPassed(run, Step(run, s, f).pc, v)
  {
    LaterStepsStayLater(run, s, f);
  }

  lemma LaterStepsStayLater(run: Run, s: State, f: Fault)
    requires WithinBounds(run, s.pc) && !Checking(s.pc)
    ensures !Checking(Step(run, s, f).pc) && (s.pc.Raised? ==> Step(run, s, f) == s)
  {
    if !Halted(s) { LaterStepsAccepted(run, s, f); }
  }

  lemma StepKeepsForeign(run: Run, w: World, s: State, f: Fault, v: string)
    requires Foreign(w, v) && WithinBounds(run, s.pc) && NotPassed(run, s.pc, v) && Untouched(w, s.world, v)
    ensures NotPassed(run, Step(run, s, f).pc, v) && Untouched(w, Step(run, s, f).world, v)
  {
    if s.pc.Validate? { ForeignStopsValidation(run, s, f, v); }
    else if Checking(s.pc) { RecoveryKeepsForeign(run, s, f, v); }
    else {
      StepKeepsNotDeclared(run, s, f, v);
      LaterStepsStayLater(run, s, f);
      if !s.pc.Raised? { StepLeavesOthers(run, s, f, v); }
    }
  }

  /** A volume that is not ours, or that is unfinished and not begun by us, stays as it is, and a run that
      declares it does not complete. */
  lemma ForeignVolumeIsUntouched(run: Run, w: World, faults: nat -> Fault, n: nat, v: string)
    requires Foreign(w, v)
    ensures Untouched(w, Exec(run, w, faults, n).world, v)
    ensures Declares(run, v) ==> !Exec(run, w, faults, n).pc.Done?
  {
    var p := (s: State) => WithinBounds(run, s.pc) && NotPassed(run, s.pc, v) && Untouched(w, s.world, v);
    forall s: State, f: Fault | WithinBounds(run, s.pc) && p(s) ensures p(Step(run, s, f)) {
      StepKeepsForeign(run, w, s, f, v);
    }
    Always(run, w, faults, n, p);
  }

  // ---------- containers of others ----------

  /** A container that is not one of our stopped helpers. */
  predicate Stranger(w: World, h: string) {
    h in w.helpers && (!w.helpers[h].owned || w.helpers[h].initializer != h || w.helpers[h].running)
  }

  predicate OwnName(run: Run, h: string) {
    exists k | 0 <= k < |run.declared| :: HelperName(run, k) == h
  }

  predicate Spared(run: Run, w: World, s: State, h: string)
    requires WithinBounds(run, s.pc)
  {
    && h in w.helpers && h in s.world.helpers && s.world.helpers[h] == w.helpers[h]
    && (s.pc.RemoveHelper? ==>
          var v := run.declared[s.pc.i].name; (if v in s.world.pending then s.world.pending[v] else "") != h)
  }

  lemma StepSpares(run: Run, w: World, s: State, f: Fault, h: string)
    requires WithinBounds(run, s.pc) && Stranger(w, h) && !OwnName(run, h) && Spared(run, w, s, h)
    ensures Spared(run, w, Step(run, s, f), h)
  {
    if Creating(s.pc) || Publishing(s.pc) || s.pc.FinallyHelper? { assert HelperName(run, s.pc.i) != h; }
    if Creating(s.pc) { CreatingSpares(run, w, s, f, h); }
    else if Publishing(s.pc) { PublishingSpares(run, w, s, f, h); }
  }

  lemma CreatingSpares(run: Run, w: World, s: State, f: Fault, h: string)
    requires WithinBounds(run, s.pc) && Creating(s.pc) && Spared(run, w, s, h) && HelperName(run, s.pc.i) != h
    ensures Spared(run, w, Step(run, s, f), h)
  {
  }

  lemma PublishingSpares(run: Run, w: World, s: State, f: Fault, h: string)
    requires WithinBounds(run, s.pc) && Publishing(s.pc) && Spared(run, w, s, h) && HelperName(run, s.pc.i) != h
    ensures Spared(run, w, Step(run, s, f), h)
  {
  }

  /** A container that is not one of our stopped helpers stays as it is, unless it bears the name of one that
      the run makes itself: that one the clean-up removes by its name. */
  lemma StrangerIsSpared(run: Run, w: World, faults: nat -> Fault, n: nat, h: string)
    requires Stranger(w, h) && !OwnName(run, h)
    ensures var w' := Exec(run, w, faults, n).world; h in w'.helpers && w'.helpers[h] == w.helpers[h]
  {
    var p := (s: State) => WithinBounds(run, s.pc) && Spared(run, w, s, h);
    forall s: State, f: Fault | WithinBounds(run, s.pc) && p(s) ensures p(Step(run, s, f)) {
      StepSpares(run, w, s, f, h);
    }
    Always(run, w, faults, n, p);
  }

  // ---------- volumes in use, and the serving container ----------

  /** The serving container is as it was, or stopped where the script has to stop it. */
  predicate OnlyStopped(run: Run, w: World, w': World) {
    && w'.inUse == w.inUse
    && (w'.previous == w.previous
        || (HasOld(run, w) && (|run.declared| > 0 || w.previous.storage) && w'.previous == w.previous.(running := false)))
  }

  /** A volume that another container uses is there as long as it was. */
  predicate Kept(w: World, w': World) {
    forall v | v in w.inUse && v in w.volumes :: v in w'.volumes
  }

  lemma StepKeepsUsed(run: Run, w: World, s: State, f: Fault)
    requires WithinBounds(run, s.pc) && s.world.inUse == w.inUse && Kept(w, s.world)
    ensures Kept(w, Step(run, s, f).world)
  {
    if Creating(s.pc) { CreatingKeepsVolumes(run, s.world, s.pc, f); }
    else if Publishing(s.pc) { PublishingKeepsVolumes(run, s.world, s.pc, f); }
  }

  lemma CreatingKeepsVolumes(run: Run, w: World, pc: Pc, f: Fault)
    requires WithinBounds(run, pc) && Creating(pc)
    ensures w.volumes.Keys <= CreatingStep(run, w, pc, f).world.volumes.Keys
  {
  }

  lemma PublishingKeepsVolumes(run: Run, w: World, pc: Pc, f: Fault)
    requires WithinBounds(run, pc) && Publishing(pc)
    ensures PublishingStep(run, w, pc, f).world.volumes == w.volumes
  {
  }

  predicate StopIsDue(run: Run, w: World, pc: Pc) {
    pc.StopOld? ==> HasOld(run, w) && (|run.declared| > 0 || w.previous.storage)
  }

  lemma StepOnlyStops(run: Run, w: World, s: State, f: Fault)
    requires WithinBounds(run, s.pc) && OnlyStopped(run, w, s.world) && StopIsDue(run, w, s.pc)
    ensures OnlyStopped(run, w, Step(run, s, f).world) && StopIsDue(run, w, Step(run, s, f).pc)
  {
  }

  /** Other containers keep their volumes, and the serving container is at most stopped. */
  lemma OthersAreServed(run: Run, w: World, faults: nat -> Fault, n: nat)
    ensures OnlyStopped(run, w, Exec(run, w, faults, n).world) && Kept(w, Exec(run, w, faults, n).world)
  {
    var p := (s: State) => WithinBounds(run, s.pc) && OnlyStopped(run, w, s.world) && StopIsDue(run, w, s.pc) && Kept(w, s.world);
    forall s: State, f: Fault | WithinBounds(run, s.pc) && p(s) ensures p(Step(run, s, f)) {
      StepOnlyStops(run, w, s, f);
      StepKeepsUsed(run, w, s, f);
    }
    Always(run, w, faults, n, p);
  }

  /** Nothing is created, copied or published while the previous release still runs. */
  lemma OldIsStoppedFirst(run: Run, w: World, faults: nat -> Fault, n: nat)
    requires Sound(w)
    ensures var s := Exec(run, w, faults, n);
            Creating(s.pc) || Publishing(s.pc) || (s.pc.Done? && run.declared != []) ==>
              Serving(run, s.world) ==> !s.world.previous.running
  {
    ExecKeepsInv(run, w, faults, n);
  }

  /** A previous container of somebody else stops the run before it does anything. */
  lemma ForeignPreviousStopsAll(run: Run, w: World, faults: nat -> Fault, n: nat)
    requires HasOld(run, w) && !w.previous.owned
    ensures Exec(run, w, faults, n) == State(w, Raised)
  {
    var p := (s: State) => s == State(w, Raised);
    Always(run, w, faults, n, p);
  }

  // ---------- what a declaration asks for ----------

  /** There is a container of the previous release. */
  predicate Serving(run: Run, w: World) {
    run.named && w.previous.Present?
  }

  /** A declaration is admissible when its volume is ours or absent, is there if it has a marker, and has a source if it
      does not: one that is stated where there is a previous release; where there is none, anything but that release,
      which previews never ask for. */
  lemma AdmitsBySource(run: Run, w: World, k: nat)
    requires k < |run.declared|
    ensures var v, asked := run.declared[k].name, run.declared[k].initialData;
            Admits(run, w, k) <==>
              && (v in w.volumes ==> w.volumes[v].owned) && (v in w.ready ==> v in w.volumes)
              && (v !in w.ready ==> if Serving(run, w) then asked != Unset else run.preview || asked != PreviousContainer)
  {
  }

  /** The data that a declaration asks for: that of the previous release, or else of the image. */
  function Asked(run: Run, w: World, d: Declaration): Data {
    Complete(if d.initialData == PreviousContainer && Serving(run, w) then FromPrevious else FromImage)
  }

  /** A completed run has filled every new volume from what one of its declarations asks for. */
  lemma FilledAsAsked(run: Run, w: World, faults: nat -> Fault, n: nat, k: nat)
    requires Sound(w) && k < |run.declared| && Exec(run, w, faults, n).pc.Done? && run.declared[k].name !in w.ready
    ensures var w', v := Exec(run, w, faults, n).world, run.declared[k].name;
            v in w'.volumes && exists d | d in run.declared :: d.name == v && w'.volumes[v].data == Asked(run, w, d)
  {
    var w', v := Exec(run, w, faults, n).world, run.declared[k].name;
    DoneMeansComplete(run, w, faults, n, k);
    StopsOnlyAfterValidation(run, w, faults, n);
    OthersAreServed(run, w, faults, n);
    var j :| 0 <= j < |run.declared| && run.declared[j].name == v && w'.volumes[v].data == Complete(OriginOf(run, w', j));
    assert Admits(run, w, j);
    AdmitsBySource(run, w, j);
    assert run.declared[j] in run.declared;
  }
}
