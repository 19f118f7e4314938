/** What a run of the storage script takes away again, and what it never touches. */
module AppStorageCleanup {
  import opened AppStorage
  import opened AppStorageSafety
  import opened AppStorageRecovery

  /** Each of the first n steps goes as permitted. */
  predicate AllSteps(run: Run, w: World, faults: nat -> Fault, n: nat, permitted: (State, Fault) -> bool) {
    n > 0 ==> AllSteps(run, w, faults, n - 1, permitted) && permitted(Exec(run, w, faults, n - 1), faults(n - 1))
  }

  /** What the permitted steps keep holds wherever a run of such steps stops. */
  lemma {:induction false} AlwaysIf(run: Run, w: World, faults: nat -> Fault, n: nat,
                                    permitted: (State, Fault) -> bool, p: State -> bool)
    requires p(Start(run, w)) && AllSteps(run, w, faults, n, permitted)
    requires forall s: State, f: Fault | WithinBounds(run, s.pc) && p(s) && permitted(s, f) :: p(Step(run, s, f))
    ensures p(Exec(run, w, faults, n))
  {
    if n > 0 { AlwaysIf(run, w, faults, n - 1, permitted, p); }
  }

  // ---------- helpers ----------

  /** The clean-up reaches Docker. */
  predicate DropsHelper(s: State, f: Fault) {
    s.pc.FinallyHelper? ==> Happens(f)
  }

  /** The run has no helper but perhaps the one of the volume that it works on. */
  predicate HelpersFrom(run: Run, w: World, s: State) {
    && WithinBounds(run, s.pc)
    && forall h | h in s.world.helpers ::
         h in w.helpers || ((s.pc.Import? || s.pc.DropHelper? || s.pc.FinallyHelper?) && h == HelperName(run, s.pc.i))
  }

  lemma StepKeepsHelpersFrom(run: Run, w: World, s: State, f: Fault)
    requires HelpersFrom(run, w, s) && DropsHelper(s, f)
    ensures HelpersFrom(run, w, Step(run, s, f))
  {
    if Creating(s.pc) { CreatingKeepsHelpersFrom(run, w, s, f); }
    else if Publishing(s.pc) { PublishingKeepsHelpersFrom(run, w, s, f); }
  }

  lemma CreatingKeepsHelpersFrom(run: Run, w: World, s: State, f: Fault)
    requires HelpersFrom(run, w, s) && Creating(s.pc)
    ensures HelpersFrom(run, w, Step(run, s, f))
  {
  }

  lemma PublishingKeepsHelpersFrom(run: Run, w: World, s: State, f: Fault)
    requires HelpersFrom(run, w, s) && Publishing(s.pc)
    ensures HelpersFrom(run, w, Step(run, s, f))
  {
  }

  lemma HelpersAlwaysFrom(run: Run, w: World, faults: nat -> Fault, n: nat)
    requires AllSteps(run, w, faults, n, DropsHelper)
    ensures HelpersFrom(run, w, Exec(run, w, faults, n))
  {
    var p := (s: State) => HelpersFrom(run, w, s);
    forall s: State, f: Fault | WithinBounds(run, s.pc) && p(s) && DropsHelper(s, f) ensures p(Step(run, s, f)) {
      StepKeepsHelpersFrom(run, w, s, f);
    }
    AlwaysIf(run, w, faults, n, DropsHelper, p);
  }

  /** However a run ends, if its clean-up reaches Docker it leaves no helper that it did not find. */
  lemma NoHelperIsLeft(run: Run, w: World, faults: nat -> Fault, n: nat)
    requires Halted(Exec(run, w, faults, n)) && AllSteps(run, w, faults, n, DropsHelper)
    ensures Exec(run, w, faults, n).world.helpers.Keys <= w.helpers.Keys
  {
    HelpersAlwaysFrom(run, w, faults, n);
  }

  // ---------- volumes that could not be filled ----------

  /** Neither step of the clean-up is cut short, and no volume is created by a command that reports failure. */
  predicate CleansUp(s: State, f: Fault) {
    && (s.pc.FinallyHelper? ==> Happens(f) && !f.Signal?)
    && (s.pc.FinallyVolume? ==> Happens(f))
    && (s.pc.CreateVolume? ==> f.Ok? || !f.applied)
  }

  predicate Filling(pc: Pc) {
    pc.CreateHelper? || pc.Import? || pc.DropHelper? || pc.WriteMarker? || pc.PublishMarker?
    || (pc.FinallyHelper? && !pc.initialized) || pc.FinallyVolume?
  }

  /** The volume that is worked on was begun by this run; once its helper is gone nothing mounts it. */
  predicate Begun(run: Run, s: State)
    requires WithinBounds(run, s.pc)
  {
    Filling(s.pc) || s.pc.NoteInitialized? || s.pc.UnlinkPending? ==>
      var w, v := s.world, run.declared[s.pc.i].name;
      && v in w.volumes && w.volumes[v].owned && w.volumes[v].initializer == HelperName(run, s.pc.i)
      && (s.pc.FinallyVolume? ==> HelperName(run, s.pc.i) !in w.helpers)
  }

  /** Unready volumes are those that the run found, and perhaps the one that it fills. */
  predicate UnreadyFrom(run: Run, w: World, s: State)
    requires WithinBounds(run, s.pc)
  {
    forall v | v in s.world.volumes && v !in s.world.ready ::
      || (v in w.volumes && v !in w.ready && s.world.volumes[v] == w.volumes[v])
      || (Filling(s.pc) && v == run.declared[s.pc.i].name)
  }

  lemma CreatingKeepsBegun(run: Run, s: State, f: Fault)
    requires Inv(run, s) && Begun(run, s) && Creating(s.pc)
    ensures Begun(run, Step(run, s, f))
  {
  }

  lemma StepKeepsBegun(run: Run, s: State, f: Fault)
    requires Inv(run, s) && Begun(run, s) && CleansUp(s, f)
    ensures Begun(run, Step(run, s, f))
  {
    if Creating(s.pc) { CreatingKeepsBegun(run, s, f); }
    else if Publishing(s.pc) { PublishingKeepsBegun(run, s, f); }
  }

  lemma PublishingKeepsBegun(run: Run, s: State, f: Fault)
    requires Inv(run, s) && Begun(run, s) && Publishing(s.pc)
    ensures Begun(run, Step(run, s, f))
  {
  }

  lemma NothingMounts(run: Run, s: State)
    requires Inv(run, s) && Begun(run, s) && s.pc.FinallyVolume? && run.declared[s.pc.i].name !in s.world.ready
    ensures !Referenced(s.world, run.declared[s.pc.i].name)
  {
    forall h | h in s.world.helpers ensures s.world.helpers[h].mounts != run.declared[s.pc.i].name {
      assert SoundHelper(s.world, h);
    }
  }

  predicate Filled(run: Run, w: World, s: State) {
    Inv(run, s) && Begun(run, s) && UnreadyFrom(run, w, s) && w.ready <= s.world.ready
  }

  lemma CheckingKeepsUnreadyFrom(run: Run, w: World, s: State, f: Fault)
    requires Filled(run, w, s) && Checking(s.pc)
    ensures UnreadyFrom(run, w, Step(run, s, f))
  {
  }

  lemma CreatingKeepsUnreadyFrom(run: Run, w: World, s: State, f: Fault)
    requires Filled(run, w, s) && Creating(s.pc) && CleansUp(s, f)
    ensures UnreadyFrom(run, w, Step(run, s, f))
  {
  }

  lemma PublishingKeepsUnreadyFrom(run: Run, w: World, s: State, f: Fault)
    requires Filled(run, w, s) && Publishing(s.pc)
    ensures UnreadyFrom(run, w, Step(run, s, f))
  {
  }

  lemma StepKeepsUnreadyFrom(run: Run, w: World, s: State, f: Fault)
    requires Filled(run, w, s) && CleansUp(s, f)
    ensures UnreadyFrom(run, w, Step(run, s, f))
  {
    if Checking(s.pc) { CheckingKeepsUnreadyFrom(run, w, s, f); }
    else if Creating(s.pc) { CreatingKeepsUnreadyFrom(run, w, s, f); }
    else if Publishing(s.pc) { PublishingKeepsUnreadyFrom(run, w, s, f); }
    else if s.pc.FinallyVolume? && run.declared[s.pc.i].name !in s.world.ready { NothingMounts(run, s); }
  }

  lemma StepKeepsReady(run: Run, s: State, f: Fault)
    requires WithinBounds(run, s.pc)
    ensures s.world.ready <= Step(run, s, f).world.ready
  {
    if !s.pc.PublishMarker? { ReadyStays(run, s, f); }
  }

  lemma StepKeepsFilled(run: Run, w: World, s: State, f: Fault)
    requires Filled(run, w, s) && CleansUp(s, f)
    ensures Filled(run, w, Step(run, s, f))
  {
    StepKeepsInv(run, s, f);
    StepKeepsBegun(run, s, f);
    StepKeepsUnreadyFrom(run, w, s, f);
    StepKeepsReady(run, s, f);
  }

  lemma AlwaysFilled(run: Run, w: World, faults: nat -> Fault, n: nat)
    requires Sound(w) && AllSteps(run, w, faults, n, CleansUp)
    ensures Filled(run, w, Exec(run, w, faults, n))
  {
    var p := (s: State) => Filled(run, w, s);
    forall s: State, f: Fault | WithinBounds(run, s.pc) && p(s) && CleansUp(s, f) ensures p(Step(run, s, f)) {
      StepKeepsFilled(run, w, s, f);
    }
    AlwaysIf(run, w, faults, n, CleansUp, p);
  }

  /** However a run ends, if its clean-up goes through it leaves no volume that it began and could not fill:
      one that is not ready was there before, as it is. */
  lemma NoUnfilledVolumeIsLeft(run: Run, w: World, faults: nat -> Fault, n: nat)
    requires Sound(w) && Halted(Exec(run, w, faults, n)) && AllSteps(run, w, faults, n, CleansUp)
    ensures var w' := Exec(run, w, faults, n).world;
            forall v | v in w'.volumes && v !in w'.ready :: v in w.volumes && v !in w.ready && w'.volumes[v] == w.volumes[v]
  {
    AlwaysFilled(run, w, faults, n);
  }

  // ---------- unfinished volumes of earlier runs ----------

  predicate Unfinished(w: World, v: string) {
    v in w.volumes && v !in w.ready
  }

  /** The volume is gone, its record, and the helper that the record named. */
  predicate Gone(w: World, w': World, v: string) {
    v !in w'.volumes && v !in w'.pending && v in w.pending && w.pending[v] !in w'.helpers
  }

  /** Nothing has been added since w. */
  predicate OnlyLess(w: World, w': World) {
    && w'.ready == w.ready && w'.volumes.Keys <= w.volumes.Keys && w'.helpers.Keys <= w.helpers.Keys
    && forall v | v in w'.pending :: v in w.pending && w'.pending[v] == w.pending[v]
  }

  /** How many declarations validation is through with. */
  function Passed(run: Run, pc: Pc): nat
    requires Checking(pc) || pc.StopOld?
  {
    if pc.StopOld? then |run.declared| else pc.i
  }

  /** What validation has removed is gone as a whole, but for the volume that it is at. */
  predicate Clearing(run: Run, w: World, s: State)
    requires WithinBounds(run, s.pc) && (Checking(s.pc) || s.pc.StopOld?)
  {
    && OnlyLess(w, s.world)
    && (forall k | 0 <= k < Passed(run, s.pc) && Unfinished(w, run.declared[k].name) :: run.declared[k].name !in s.world.volumes)
    && (forall v | v in w.volumes && v !in s.world.volumes ::
          Gone(w, s.world, v) || (s.pc.ClearPending? && v == run.declared[s.pc.i].name))
    && (!s.pc.Validate? && !s.pc.StopOld? ==>
          var v := run.declared[s.pc.i].name;
          && v in s.world.pending && (s.pc.RemoveHelper? || s.world.pending[v] !in s.world.helpers)
          && (s.pc.ClearPending? ==> v !in s.world.volumes))
  }

  predicate ClearedAt(run: Run, w: World, s: State)
    requires WithinBounds(run, s.pc)
  {
    if Checking(s.pc) || s.pc.StopOld? then Clearing(run, w, s)
    else s.pc == Begin(0) ==> forall d | d in run.declared && Unfinished(w, d.name) :: Gone(w, s.world, d.name)
  }

  lemma ValidatingClears(run: Run, w: World, s: State, f: Fault)
    requires WithinBounds(run, s.pc) && s.pc.Validate? && Clearing(run, w, s)
    ensures ClearedAt(run, w, Step(run, s, f))
  {
    if s.pc.i == |run.declared| { AllPassed(run, w, s); }
  }

  lemma AllPassed(run: Run, w: World, s: State)
    requires WithinBounds(run, s.pc) && (s.pc.StopOld? || s.pc == Validate(|run.declared|)) && Clearing(run, w, s)
    ensures forall d | d in run.declared && Unfinished(w, d.name) :: Gone(w, s.world, d.name)
  {
    forall d | d in run.declared && Unfinished(w, d.name) ensures Gone(w, s.world, d.name) {
      var k :| 0 <= k < |run.declared| && run.declared[k] == d;
      assert d.name !in s.world.volumes;
    }
  }

  lemma RemovingClears(run: Run, w: World, s: State, f: Fault)
    requires WithinBounds(run, s.pc) && (s.pc.RemoveHelper? || s.pc.RemoveVolume?) && Clearing(run, w, s)
    ensures ClearedAt(run, w, Step(run, s, f))
  {
  }

  lemma ForgettingClears(run: Run, w: World, s: State, f: Fault)
    requires WithinBounds(run, s.pc) && s.pc.ClearPending? && Clearing(run, w, s)
    ensures ClearedAt(run, w, Step(run, s, f))
  {
  }

  lemma StoppingClears(run: Run, w: World, s: State, f: Fault)
    requires WithinBounds(run, s.pc) && s.pc.StopOld? && Clearing(run, w, s)
    ensures ClearedAt(run, w, Step(run, s, f))
  {
    AllPassed(run, w, s);
  }

  lemma OthersDoNotBegin(run: Run, s: State, f: Fault)
    requires WithinBounds(run, s.pc) && !Checking(s.pc) && !s.pc.StopOld?
    ensures var pc := Step(run, s, f).pc; !Checking(pc) && !pc.StopOld? && pc != Begin(0)
  {
  }

  lemma StepClears(run: Run, w: World, s: State, f: Fault)
    requires WithinBounds(run, s.pc) && ClearedAt(run, w, s)
    ensures ClearedAt(run, w, Step(run, s, f))
  {
    if s.pc.Validate? { ValidatingClears(run, w, s, f); }
    else if s.pc.RemoveHelper? || s.pc.RemoveVolume? { RemovingClears(run, w, s, f); }
    else if s.pc.ClearPending? { ForgettingClears(run, w, s, f); }
    else if s.pc.StopOld? { StoppingClears(run, w, s, f); }
    else { OthersDoNotBegin(run, s, f); }
  }

  /** When validation is over, whatever an earlier run left of a declared volume is gone: the volume, the record of it
      and its helper. */
  lemma UnfinishedIsCleared(run: Run, w: World, faults: nat -> Fault, n: nat, d: Declaration)
    requires Exec(run, w, faults, n).pc == Begin(0) && d in run.declared && Unfinished(w, d.name)
    ensures Gone(w, Exec(run, w, faults, n).world, d.name)
  {
    var p := (s: State) => WithinBounds(run, s.pc) && ClearedAt(run, w, s);
    forall s: State, f: Fault | WithinBounds(run, s.pc) && p(s) ensures p(Step(run, s, f)) { StepClears(run, w, s, f); }
    Always(run, w, faults, n, p);
  }

  // ---------- pending and temporary files ----------

  /** Of the first n declared volumes those that the run made ready have no pending and no temporary file. */
  predicate Retired(run: Run, w: World, w': World, n: nat)
    requires n <= |run.declared|
  {
    && ReadyFrom(run, w, w', n)
    && forall k | 0 <= k < n && run.declared[k].name !in w.ready ::
         run.declared[k].name !in w'.pending && run.declared[k].name !in w'.temporary
  }

  /** The marker of volume i has been put in place of its temporary file. */
  predicate Marked(run: Run, w: World, w': World, i: nat)
    requires i < |run.declared|
  {
    && ReadyFrom(run, w, w', i + 1) && run.declared[i].name !in w'.temporary
    && forall k | 0 <= k < i && run.declared[k].name !in w.ready ::
         run.declared[k].name !in w'.pending && run.declared[k].name !in w'.temporary
  }

  predicate RetiredAt(run: Run, w: World, s: State)
    requires WithinBounds(run, s.pc)
  {
    if Checking(s.pc) || s.pc.StopOld? then s.world.ready == w.ready
    else if s.pc.Begin? || Creating(s.pc) || s.pc.DropHelper? || s.pc.WriteMarker? || s.pc.PublishMarker?
    then Retired(run, w, s.world, s.pc.i)
    else if s.pc.NoteInitialized? || s.pc.UnlinkPending? then Marked(run, w, s.world, s.pc.i)
    else if s.pc.FinallyHelper? && s.pc.initialized && !s.pc.raising then Retired(run, w, s.world, s.pc.i + 1)
    else s.pc.Done? ==> Retired(run, w, s.world, |run.declared|)
  }

  lemma BeginRetires(run: Run, w: World, s: State, f: Fault)
    requires Inv(run, s) && RetiredAt(run, w, s) && (s.pc.Begin? || s.pc.FinallyHelper?)
    ensures RetiredAt(run, w, Step(run, s, f))
  {
    if s.pc.Begin? && s.pc.i < |run.declared| && run.declared[s.pc.i].name in s.world.ready && f.Ok? {
      assert Named(run, run.declared[s.pc.i].name, s.pc.i + 1);
    }
  }

  lemma CheckingRetires(run: Run, w: World, s: State, f: Fault)
    requires Inv(run, s) && RetiredAt(run, w, s) && (Checking(s.pc) || s.pc.StopOld?)
    ensures RetiredAt(run, w, Step(run, s, f))
  {
    ReadyStays(run, s, f);
  }

  lemma NamingRetires(run: Run, w: World, s: State, f: Fault)
    requires Inv(run, s) && RetiredAt(run, w, s) && (s.pc.TruncatePending? || s.pc.WritePending? || s.pc.CreateVolume?)
    ensures RetiredAt(run, w, Step(run, s, f))
  {
  }

  lemma ImportingRetires(run: Run, w: World, s: State, f: Fault)
    requires Inv(run, s) && RetiredAt(run, w, s) && (s.pc.CreateHelper? || s.pc.Import? || s.pc.DropHelper?)
    ensures RetiredAt(run, w, Step(run, s, f))
  {
  }

  lemma MarkingRetires(run: Run, w: World, s: State, f: Fault)
    requires Inv(run, s) && RetiredAt(run, w, s) && (s.pc.WriteMarker? || s.pc.PublishMarker?)
    ensures RetiredAt(run, w, Step(run, s, f))
  {
    if s.pc.PublishMarker? { assert Named(run, run.declared[s.pc.i].name, s.pc.i + 1); }
  }

  lemma UnlinkingRetires(run: Run, w: World, s: State, f: Fault)
    requires Inv(run, s) && RetiredAt(run, w, s) && (s.pc.NoteInitialized? || s.pc.UnlinkPending?)
    ensures RetiredAt(run, w, Step(run, s, f))
  {
  }

  lemma StepRetires(run: Run, w: World, s: State, f: Fault)
    requires Inv(run, s) && RetiredAt(run, w, s)
    ensures RetiredAt(run, w, Step(run, s, f))
  {
    if Checking(s.pc) || s.pc.StopOld? { CheckingRetires(run, w, s, f); }
    else if s.pc.TruncatePending? || s.pc.WritePending? || s.pc.CreateVolume? { NamingRetires(run, w, s, f); }
    else if s.pc.CreateHelper? || s.pc.Import? || s.pc.DropHelper? { ImportingRetires(run, w, s, f); }
    else if s.pc.WriteMarker? || s.pc.PublishMarker? { MarkingRetires(run, w, s, f); }
    else if s.pc.NoteInitialized? || s.pc.UnlinkPending? { UnlinkingRetires(run, w, s, f); }
    else if s.pc.Begin? || s.pc.FinallyHelper? { BeginRetires(run, w, s, f); }
  }

  lemma AlwaysRetired(run: Run, w: World, faults: nat -> Fault, n: nat)
    requires Sound(w)
    ensures RetiredAt(run, w, Exec(run, w, faults, n))
  {
    var p := (s: State) => Inv(run, s) && RetiredAt(run, w, s);
    forall s: State, f: Fault | WithinBounds(run, s.pc) && p(s) ensures p(Step(run, s, f)) {
      StepKeepsInv(run, s, f);
      StepRetires(run, w, s, f);
    }
    Always(run, w, faults, n, p);
  }

  /** A run that completes leaves neither a pending nor a temporary file of a volume that it initialised. */
  lemma DoneMeansRetired(run: Run, w: World, faults: nat -> Fault, n: nat, k: nat)
    requires Sound(w) && Exec(run, w, faults, n).pc.Done? && k < |run.declared| && run.declared[k].name !in w.ready
    ensures run.declared[k].name !in Exec(run, w, faults, n).world.pending
    ensures run.declared[k].name !in Exec(run, w, faults, n).world.temporary
  {
    AlwaysRetired(run, w, faults, n);
  }
}
