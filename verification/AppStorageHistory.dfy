/** The life of an app's storage: deployment after deployment, each of which may
    stop after any step, with the app starting and stopping in between. */
module AppStorageHistory {
  import opened Decimal
  import opened AppStorage
  import opened AppStorageSafety
  import opened AppStorageRecovery

  /** One deployment attempt: the run stops after `steps` steps, whether it is over
      or was killed; then containers come and go, so that `previous` is the serving
      container and other containers use some of the volumes that are ready. */
  datatype Attempted = Attempted(run: Run, faults: nat -> Fault, steps: nat, inUse: set<string>, previous: Previous)

  function Between(w: World, inUse: set<string>, previous: Previous): World {
    w.(inUse := (set v | v in inUse && v in w.ready && v in w.volumes), previous := previous)
  }

  function After(w: World, a: Attempted): World {
    Between(Exec(a.run, w, a.faults, a.steps).world, a.inUse, a.previous)
  }

  function Life(w: World, history: seq<Attempted>): World
    decreases |history|
  {
    if history == [] then w else Life(After(w, history[0]), history[1..])
  }

  lemma {:induction false} LifeIsSound(w: World, history: seq<Attempted>)
    requires Sound(w)
    ensures Sound(Life(w, history))
    decreases |history|
  {
    if history != [] {
      var a := history[0];
      ExecKeepsInv(a.run, w, a.faults, a.steps);
      LifeIsSound(After(w, a), history[1..]);
    }
  }

  /** The data of a ready volume outlives every later deployment, and a marker
      whose volume is missing keeps it missing: nothing recreates it empty. */
  lemma {:induction false} ReadyVolumeOutlives(w: World, history: seq<Attempted>, v: string)
    requires Sound(w) && v in w.ready
    ensures v in Life(w, history).ready && SameVolume(w, Life(w, history), v)
    decreases |history|
  {
    if history != [] {
      var a := history[0];
      ReadyVolumeIsUntouched(a.run, w, a.faults, a.steps, v);
      ExecKeepsInv(a.run, w, a.faults, a.steps);
      ReadyVolumeOutlives(After(w, a), history[1..], v);
    }
  }

  /** A volume that is ready at any time and still exists later holds all of its data. */
  lemma ReadyMeansComplete(w: World, history: seq<Attempted>, last: Attempted, v: string)
    requires Sound(w)
    requires var now := Exec(last.run, Life(w, history), last.faults, last.steps).world;
             v in now.ready && v in now.volumes && now.volumes[v].owned
    ensures Exec(last.run, Life(w, history), last.faults, last.steps).world.volumes[v].data.Complete?
  {
    LifeIsSound(w, history);
    ExecKeepsInv(last.run, Life(w, history), last.faults, last.steps);
  }

  // ---------- markers keep their volumes unless a run stops in the gap ----------

  predicate AvoidsGap(w: World, a: Attempted) {
    forall k: nat :: k + 3 <= a.steps ==> !LosesVolumeAt(a.run, w, a.faults, k)
  }

  predicate LifeAvoidsGap(w: World, history: seq<Attempted>)
    decreases |history|
  {
    history != [] ==> AvoidsGap(w, history[0]) && LifeAvoidsGap(After(w, history[0]), history[1..])
  }

  /** Over a whole life: some marker is without its volume exactly when some run
      was stopped in the gap and cleaned up. */
  lemma {:induction false} LifeStaysBackedIffGapAvoided(w: World, history: seq<Attempted>)
    requires Sound(w) && Backed(w)
    ensures Backed(Life(w, history)) <==> LifeAvoidsGap(w, history)
    decreases |history|
  {
    if history != [] {
      var a := history[0];
      ExecKeepsInv(a.run, w, a.faults, a.steps);
      MarkerWithoutVolumeIffGap(a.run, w, a.faults, a.steps);
      if AvoidsGap(w, a) {
        LifeStaysBackedIffGapAvoided(After(w, a), history[1..]);
      } else {
        var v :| v in After(w, a).ready && v !in After(w, a).volumes;
        ReadyVolumeOutlives(After(w, a), history[1..], v);
      }
    }
  }

  /** Deployments that are only ever killed never cost a volume. */
  lemma {:induction false} CrashesKeepVolumes(w: World, history: seq<Attempted>)
    requires Sound(w) && Backed(w) && forall a | a in history :: OnlyKilled(a.faults, a.steps)
    ensures Backed(Life(w, history))
    decreases |history|
  {
    if history != [] {
      var a := history[0];
      CrashKeepsVolumes(a.run, w, a.faults, a.steps);
      ExecKeepsInv(a.run, w, a.faults, a.steps);
      CrashesKeepVolumes(After(w, a), history[1..]);
    }
  }

  // ---------- recovery ----------

  predicate OnlyOurs(w: World) {
    forall v | v in w.volumes :: w.volumes[v].owned
  }

  lemma {:induction false} LifeStaysOurs(w: World, history: seq<Attempted>)
    requires OnlyOurs(w)
    ensures OnlyOurs(Life(w, history))
    decreases |history|
  {
    if history != [] {
      var a := history[0];
      forall v | v in After(w, a).volumes ensures After(w, a).volumes[v].owned {
        OwnedWhenNew(a.run, w, a.faults, a.steps, v);
      }
      LifeStaysOurs(After(w, a), history[1..]);
    }
  }

  /** The deployment asks for nothing impossible: a new volume has a source. */
  predicate SourcesAvailable(run: Run, w: World) {
    && (HasOld(run, w) ==> w.previous.owned)
    && forall k | 0 <= k < |run.declared| && run.declared[k].name !in w.ready ::
         var initial := InitialOf(run, w, k);
         if HasOld(run, w) then !initial.Unset? else !initial.PreviousContainer?
  }

  // ---------- names of helpers ----------

  lemma SameBeforeLastDash(a: string, x: string, b: string, y: string)
    requires a + "-" + x == b + "-" + y && '-' !in x && '-' !in y
    ensures a == b
  {
    var t, u := a + "-" + x, b + "-" + y;
    assert t[|a|] == '-' && u[|b|] == '-';
    assert t[..|a|] == a && u[..|b|] == b;
  }

  lemma NamesOfDeployments(run: Run, other: Run, i: nat, j: nat)
    requires HelperName(run, i) == HelperName(other, j)
    ensures run.deployment == other.deployment
  {
    var a, b := "towbar-storage-" + run.deployment, "towbar-storage-" + other.deployment;
    SameBeforeLastDash(a, Show(i), b, Show(j));
    assert a[15..] == run.deployment && b[15..] == other.deployment;
  }

  /** Whatever helpers with names of this run are left, their volumes are among those it declares. */
  ghost predicate HelpersAreOwn(run: Run, w: World) {
    forall i: nat | HelperName(run, i) in w.helpers :: Declares(run, w.helpers[HelperName(run, i)].mounts)
  }

  /** The other run belongs to another deployment, or repeats this one with no other volumes. */
  predicate Compatible(run: Run, other: Run) {
    other.deployment == run.deployment ==> forall k | 0 <= k < |other.declared| :: Declares(run, other.declared[k].name)
  }

  lemma StepKeepsHelpersOwn(run: Run, other: Run, s: State, f: Fault)
    requires WithinBounds(other, s.pc) && Compatible(run, other) && HelpersAreOwn(run, s.world)
    ensures HelpersAreOwn(run, Step(other, s, f).world)
  {
    var w' := Step(other, s, f).world;
    forall i: nat | HelperName(run, i) in w'.helpers ensures Declares(run, w'.helpers[HelperName(run, i)].mounts) {
      var h := HelperName(run, i);
      if !(h in s.world.helpers && w'.helpers[h] == s.world.helpers[h]) {
        HelpersGrow(other, s, f, h);
        NamesOfDeployments(run, other, i, s.pc.i);
      }
    }
  }

  lemma HelpersGrow(run: Run, s: State, f: Fault, h: string)
    requires WithinBounds(run, s.pc) && h in Step(run, s, f).world.helpers
    ensures (h in s.world.helpers && Step(run, s, f).world.helpers[h] == s.world.helpers[h])
            || (s.pc.CreateHelper? && h == HelperName(run, s.pc.i) && Declares(run, Step(run, s, f).world.helpers[h].mounts))
  {
    if s.pc.CreateHelper? { assert Declares(run, run.declared[s.pc.i].name); }
  }

  lemma ExecKeepsHelpersOwn(run: Run, other: Run, w: World, faults: nat -> Fault, n: nat)
    requires Compatible(run, other) && HelpersAreOwn(run, w)
    ensures HelpersAreOwn(run, Exec(other, w, faults, n).world)
  {
    var p := (s: State) => HelpersAreOwn(run, s.world);
    forall s: State, f: Fault | WithinBounds(other, s.pc) && p(s) ensures p(Step(other, s, f)) {
      StepKeepsHelpersOwn(run, other, s, f);
    }
    Always(other, w, faults, n, p);
  }

  lemma {:induction false} LifeKeepsHelpersOwn(run: Run, w: World, history: seq<Attempted>)
    requires HelpersAreOwn(run, w) && forall a | a in history :: Compatible(run, a.run)
    ensures HelpersAreOwn(run, Life(w, history))
    decreases |history|
  {
    if history != [] {
      var a := history[0];
      ExecKeepsHelpersOwn(run, a.run, w, a.faults, a.steps);
      LifeKeepsHelpersOwn(run, After(w, a), history[1..]);
    }
  }

  /** Validation frees the names that such helpers hold. */
  lemma OwnHelpersAreUsable(run: Run, w: World)
    requires Sound(w) && HelpersAreOwn(run, w)
    ensures HelperNamesUsable(run, w)
  {
    forall k: nat | k < |run.declared| ensures HelperName(run, k) !in Remaining(run, w, |run.declared|) {
      var h := HelperName(run, k);
      if h in w.helpers {
        assert SoundHelper(w, h);
        var j :| 0 <= j < |run.declared| && run.declared[j].name == w.helpers[h].mounts;
        assert Leftover(w, run.declared[j].name, h);
      }
    }
  }

  // ---------- recovery after a history ----------

  lemma AcceptsIffSources(run: Run, w: World)
    requires Backed(w) && OnlyOurs(w)
    ensures Accepts(run, w) <==> SourcesAvailable(run, w)
  {
    if Accepts(run, w) {
      forall k | 0 <= k < |run.declared| && run.declared[k].name !in w.ready
        ensures if HasOld(run, w) then !InitialOf(run, w, k).Unset? else !InitialOf(run, w, k).PreviousContainer?
      {
        assert Admits(run, w, k);
      }
    }
    if SourcesAvailable(run, w) {
      forall k | 0 <= k < |run.declared| ensures Admits(run, w, k) { }
    }
  }

  /** However many deployments crashed, and wherever, one run that nothing interrupts completes
      exactly when the sources of new volumes are there, and then makes every declared volume ready
      and complete: provided no earlier run was stopped in the gap, and earlier runs belong to other
      deployments or declare no other volumes. */
  lemma OneGoodRunRecovers(w: World, history: seq<Attempted>, run: Run, n: nat)
    requires Sound(w) && Backed(w) && OnlyOurs(w) && LifeAvoidsGap(w, history)
    requires HelpersAreOwn(run, w) && forall a | a in history :: Compatible(run, a.run)
    requires n > 18 * |run.declared| + 3
    ensures var s := Exec(run, Life(w, history), NoFaults, n);
            && (s.pc.Done? <==> SourcesAvailable(run, Life(w, history)))
            && (s.pc.Done? ==> forall k | 0 <= k < |run.declared| ::
                  var v := run.declared[k].name;
                  v in s.world.ready && v in s.world.volumes && s.world.volumes[v].data.Complete?)
  {
    var w' := Life(w, history);
    LifeIsSound(w, history);
    LifeStaysOurs(w, history);
    LifeStaysBackedIffGapAvoided(w, history);
    LifeKeepsHelpersOwn(run, w, history);
    OwnHelpersAreUsable(run, w');
    AcceptsIffSources(run, w');
    UninterruptedRunCompletes(run, w', n);
    DoneMakesComplete(run, w', n);
  }

  lemma DoneMakesComplete(run: Run, w: World, n: nat)
    requires Sound(w)
    ensures var s := Exec(run, w, NoFaults, n);
            s.pc.Done? ==> forall k | 0 <= k < |run.declared| ::
              var v := run.declared[k].name;
              v in s.world.ready && v in s.world.volumes && s.world.volumes[v].data.Complete?
  {
    var s := Exec(run, w, NoFaults, n);
    if s.pc.Done? {
      forall k: nat | k < |run.declared|
        ensures var v := run.declared[k].name; v in s.world.ready && v in s.world.volumes && s.world.volumes[v].data.Complete?
      {
        DoneMeansComplete(run, w, NoFaults, n, k);
      }
    }
  }

  /** Without the gap hypothesis recovery fails for good: once a marker has lost
      its volume, no later deployment that declares it completes. */
  lemma LostVolumeBlocksForever(w: World, history: seq<Attempted>, last: Attempted, k: nat)
    requires Sound(w) && k < |last.run.declared|
    requires last.run.declared[k].name in w.ready && last.run.declared[k].name !in w.volumes
    ensures !Exec(last.run, Life(w, history), last.faults, last.steps).pc.Done?
  {
    LifeIsSound(w, history);
    ReadyVolumeOutlives(w, history, last.run.declared[k].name);
    MissingVolumeStopsTheRun(last.run, Life(w, history), last.faults, last.steps, k);
  }

  // ---------- the gap is real ----------

  const EMPTY := World(map[], {}, {}, map[], map[], {}, Absent)
  const FIRST := Run(false, false, "d", [Declaration("data", Image)])

  /** A termination signal arrives between the two statements that publish and note the marker. */
  const IN_GAP: nat -> Fault := n => if n == 10 then Signal(false) else Ok

  lemma NextStep(run: Run, w: World, faults: nat -> Fault, n: nat)
    ensures Exec(run, w, faults, n + 1) == Step(run, Exec(run, w, faults, n), faults(n))
  {
  }

  /** The first deployment of one volume up to the creation of its helper. */
  lemma StepsUntilCreated() returns (s: State)
    ensures s == Exec(FIRST, EMPTY, IN_GAP, 6) && s.pc == CreateHelper(0) && s.world.helpers == map[]
  {
    assert Exec(FIRST, EMPTY, IN_GAP, 1) == State(EMPTY, Validate(1));
    assert Exec(FIRST, EMPTY, IN_GAP, 2) == State(EMPTY, Begin(0));
    assert Exec(FIRST, EMPTY, IN_GAP, 3) == State(EMPTY, TruncatePending(0));
    var s4 := Exec(FIRST, EMPTY, IN_GAP, 4);
    assert s4 == CreatingStep(FIRST, EMPTY, TruncatePending(0), Ok);
    var s5 := Exec(FIRST, EMPTY, IN_GAP, 5);
    assert s5 == CreatingStep(FIRST, s4.world, WritePending(0), Ok);
    s := Exec(FIRST, EMPTY, IN_GAP, 6);
    assert s == CreatingStep(FIRST, s5.world, CreateVolume(0), Ok);
  }

  lemma HelperMadeAndDropped(run: Run, s: State)
    requires WithinBounds(run, s.pc) && s.pc.CreateHelper? && s.world.helpers == map[] && !Importing(run, s.world, s.pc.i)
    ensures Step(run, Step(run, s, Ok), Ok).pc == WriteMarker(s.pc.i)
  {
  }

  lemma MarkerWrittenAndPublished(run: Run, s: State)
    requires WithinBounds(run, s.pc) && s.pc.WriteMarker?
    ensures Step(run, Step(run, s, Ok), Ok).pc == NoteInitialized(s.pc.i)
  {
  }

  lemma TwoSteps(run: Run, w: World, faults: nat -> Fault, n: nat)
    requires faults(n).Ok? && faults(n + 1).Ok?
    ensures Exec(run, w, faults, n + 2) == Step(run, Step(run, Exec(run, w, faults, n), Ok), Ok)
  {
    NextStep(run, w, faults, n);
    NextStep(run, w, faults, n + 1);
  }

  /** From the creation of a helper to the marker, in four steps. */
  lemma FourStepsPublish(run: Run, w: World, faults: nat -> Fault, n: nat)
    requires var s := Exec(run, w, faults, n);
             s.pc.CreateHelper? && s.world.helpers == map[] && !Importing(run, s.world, s.pc.i)
    requires forall k: nat | n <= k < n + 4 :: faults(k).Ok?
    ensures Exec(run, w, faults, n + 4).pc.NoteInitialized?
  {
    TwoSteps(run, w, faults, n);
    HelperMadeAndDropped(run, Exec(run, w, faults, n));
    TwoSteps(run, w, faults, n + 2);
    MarkerWrittenAndPublished(run, Exec(run, w, faults, n + 2));
  }

  lemma SignalWhileNoting(run: Run, w: World, faults: nat -> Fault, n: nat)
    requires Sound(w) && Exec(run, w, faults, n).pc.NoteInitialized?
    requires faults(n) == Signal(false) && faults(n + 1) == Ok && faults(n + 2) == Ok
    ensures !BackedAfter(run, w, faults, n + 3)
  {
    assert LosesVolumeAt(run, w, faults, n);
    GapLosesVolume(run, w, faults, n);
  }

  /** A concrete run: the first deployment of one volume, stopped by a signal in the
      gap, leaves the marker of a volume that no longer exists. */
  lemma SignalInGapLosesVolume()
    ensures Sound(EMPTY) && Backed(EMPTY) && !BackedAfter(FIRST, EMPTY, IN_GAP, 13)
  {
    var s := StepsUntilCreated();
    FourStepsPublish(FIRST, EMPTY, IN_GAP, 6);
    SignalWhileNoting(FIRST, EMPTY, IN_GAP, 10);
  }

  // ---------- a helper name can be taken ----------

  /** Left by a run of the same deployment that was killed while it filled another volume. */
  const TAKEN := World(map["other" := Volume(true, HelperName(FIRST, 0), Empty)], {}, {},
                       map["other" := HelperName(FIRST, 0)],
                       map[HelperName(FIRST, 0) := Helper(true, HelperName(FIRST, 0), false, "other")], {}, Absent)

  /** The declarations are admissible, and without any fault the run does not complete. */
  lemma TakenNameFails(n: nat)
    requires n > 18 * |FIRST.declared| + 3
    ensures Sound(TAKEN) && Accepts(FIRST, TAKEN) && !Exec(FIRST, TAKEN, NoFaults, n).pc.Done?
  {
    assert |HelperName(FIRST, 0)| > 0;
    UninterruptedRunCompletes(FIRST, TAKEN, n);
    assert FIRST.declared[0].name !in TAKEN.volumes;
    assert NeedsHelper(FIRST, TAKEN, 0) && HelperName(FIRST, 0) in Remaining(FIRST, TAKEN, 1);
  }
}
