/** The storage script of a deployment as a machine of atomic, durable steps.
    Every Docker command and every file operation is one step; a run that is
    killed is simply a run of which only the first few steps happened. */
module AppStorage {
  import opened Decimal

  // ---------- durable state ----------

  datatype Origin = FromImage | FromPrevious
  datatype Data = Empty | Partial | Complete(origin: Origin)

  /** `owned` stands for the label checks of the script; `initializer` is the label of that name. */
  datatype Volume = Volume(owned: bool, initializer: string, data: Data)
  datatype Helper = Helper(owned: bool, initializer: string, running: bool, mounts: string)
  datatype Previous = Absent | Present(owned: bool, storage: bool, running: bool)

  /** Volumes, markers and pending files are keyed by the declared volume name,
      helper containers by their container name.  `inUse` are the volumes that
      some container other than a helper references. */
  datatype World = World(
    volumes: map<string, Volume>,
    ready: set<string>,
    temporary: set<string>,
    pending: map<string, string>,
    helpers: map<string, Helper>,
    inUse: set<string>,
    previous: Previous)

  // ---------- one run of the script ----------

  datatype InitialData = Unset | Image | PreviousContainer
  datatype Declaration = Declaration(name: string, initialData: InitialData)
  datatype Run = Run(preview: bool, named: bool, deployment: string, declared: seq<Declaration>)

  /** How one step goes.  `Fail` is a command that reports an error, `Signal` an
      exception raised by a signal handler; either may come before or after the effect. */
  datatype Fault = Ok | Fail(applied: bool) | Signal(applied: bool)

  datatype Pc =
    | Validate(i: nat) | RemoveHelper(i: nat) | RemoveVolume(i: nat) | ClearPending(i: nat)
    | StopOld
    | Begin(i: nat) | TruncatePending(i: nat) | WritePending(i: nat) | CreateVolume(i: nat)
    | CreateHelper(i: nat) | Import(i: nat) | DropHelper(i: nat)
    | WriteMarker(i: nat) | PublishMarker(i: nat) | NoteInitialized(i: nat) | UnlinkPending(i: nat)
    | FinallyHelper(i: nat, initialized: bool, raising: bool) | FinallyVolume(i: nat)
    | Done | Raised

  datatype State = State(world: World, pc: Pc)

  function HelperName(run: Run, i: nat): string {
    "towbar-storage-" + run.deployment + "-" + Show(i)
  }

  predicate HasOld(run: Run, w: World) {
    run.named && w.previous.Present?
  }

  function InitialOf(run: Run, w: World, i: nat): InitialData
    requires i < |run.declared|
  {
    if !HasOld(run, w) && run.preview then Image else run.declared[i].initialData
  }

  predicate Importing(run: Run, w: World, i: nat)
    requires i < |run.declared|
  {
    InitialOf(run, w, i).PreviousContainer?
  }

  function OriginOf(run: Run, w: World, i: nat): Origin
    requires i < |run.declared|
  {
    if Importing(run, w, i) then FromPrevious else FromImage
  }

  /** Docker refuses to remove a volume that any container references. */
  predicate Referenced(w: World, v: string) {
    v in w.inUse || exists h | h in w.helpers :: w.helpers[h].mounts == v
  }

  predicate WithinBounds(run: Run, pc: Pc) {
    match pc
    case Validate(i) => i <= |run.declared|
    case Begin(i) => i <= |run.declared|
    case StopOld => true
    case Done => true
    case Raised => true
    case _ => pc.i < |run.declared|
  }

  /** Where validation of volume i continues once the volume is known to be absent. */
  function Admit(run: Run, w: World, i: nat): Pc
    requires i < |run.declared|
  {
    var initial := InitialOf(run, w, i);
    if run.declared[i].name in w.ready then Raised
    else if HasOld(run, w) && initial.Unset? then Raised
    else if initial.PreviousContainer? && !HasOld(run, w) then Raised
    else Validate(i + 1)
  }

  function Start(run: Run, w: World): State {
    State(w, if HasOld(run, w) && !w.previous.owned then Raised else Validate(0))
  }

  /** A command whose failure raises an exception, caught at `handler`. */
  function Attempt(w: World, after: World, f: Fault, next: Pc, handler: Pc): State {
    if f.Ok? then State(after, next)
    else State(if f.applied then after else w, handler)
  }

  /** A command whose exit code is ignored. */
  predicate Happens(f: Fault) {
    f.Ok? || f.applied
  }

  function WithData(w: World, v: string, data: Data): World {
    if v in w.volumes then w.(volumes := w.volumes[v := w.volumes[v].(data := data)]) else w
  }

  function ValidateStep(run: Run, w: World, i: nat): Pc
    requires i <= |run.declared|
  {
    if i == |run.declared| then
      if HasOld(run, w) && (|run.declared| > 0 || w.previous.storage) then StopOld else Begin(0)
    else
      var v := run.declared[i].name;
      if v !in w.volumes then Admit(run, w, i)
      else if !w.volumes[v].owned then Raised
      else if v in w.ready then Validate(i + 1)
      else
        var helper := if v in w.pending then w.pending[v] else "";
        if helper == "" || w.volumes[v].initializer != helper then Raised
        else if helper !in w.helpers then RemoveVolume(i)
        else
          var scratch := w.helpers[helper];
          if !scratch.owned || scratch.initializer != helper || scratch.running then Raised
          else RemoveHelper(i)
  }

  function CreateHelperStep(run: Run, w: World, i: nat, f: Fault): State
    requires i < |run.declared|
  {
    var v, helper, importing := run.declared[i].name, HelperName(run, i), Importing(run, w, i);
    var created := w.(helpers := w.helpers[helper := Helper(true, helper, false, v)]);
    if helper in w.helpers then State(w, FinallyHelper(i, false, true))
    else if f.Ok? then
      State(if importing then created else WithData(created, v, Complete(FromImage)),
            if importing then Import(i) else DropHelper(i))
    else
      var left := if f.applied then created else w;
      State(if importing then left else WithData(left, v, Partial), FinallyHelper(i, false, true))
  }

  /** Copying out of a container that still runs may tear its files. */
  function ImportStep(run: Run, w: World, i: nat, f: Fault): State
    requires i < |run.declared|
  {
    var v := run.declared[i].name;
    if !HasOld(run, w) then State(w, FinallyHelper(i, false, true))
    else if f.Ok? then
      State(WithData(w, v, if w.previous.running then Partial else Complete(FromPrevious)), DropHelper(i))
    else State(if f.applied then WithData(w, v, Partial) else w, FinallyHelper(i, false, true))
  }

  predicate Checking(pc: Pc) {
    pc.Validate? || pc.RemoveHelper? || pc.RemoveVolume? || pc.ClearPending?
  }

  predicate Creating(pc: Pc) {
    pc.TruncatePending? || pc.WritePending? || pc.CreateVolume? || pc.CreateHelper? || pc.Import?
  }

  predicate Publishing(pc: Pc) {
    pc.DropHelper? || pc.WriteMarker? || pc.PublishMarker? || pc.NoteInitialized? || pc.UnlinkPending?
  }

  /** Validation of all volumes, before the serving container is stopped. */
  function CheckingStep(run: Run, w: World, pc: Pc, f: Fault): State
    requires WithinBounds(run, pc) && Checking(pc)
  {
    match pc
    case Validate(i) => State(w, if f.Ok? then ValidateStep(run, w, i) else Raised)
    case RemoveHelper(i) =>
      var v := run.declared[i].name;
      var helper := if v in w.pending then w.pending[v] else "";
      Attempt(w, w.(helpers := w.helpers - {helper}), f, RemoveVolume(i), Raised)
    case RemoveVolume(i) =>
      var v := run.declared[i].name;
      if Referenced(w, v) then State(w, Raised)
      else Attempt(w, w.(volumes := w.volumes - {v}), f, ClearPending(i), Raised)
    case ClearPending(i) =>
      var w' := w.(pending := w.pending - {run.declared[i].name});
      Attempt(w, w', f, Admit(run, w', i), Raised)
  }

  /** From the pending file to a populated volume. */
  function CreatingStep(run: Run, w: World, pc: Pc, f: Fault): State
    requires WithinBounds(run, pc) && Creating(pc)
  {
    var v := run.declared[pc.i].name;
    match pc
    case TruncatePending(i) => Attempt(w, w.(pending := w.pending[v := ""]), f, WritePending(i), Raised)
    case WritePending(i) =>
      Attempt(w, w.(pending := w.pending[v := HelperName(run, i)]), f, CreateVolume(i), Raised)
    case CreateVolume(i) =>
      var w' := if v in w.volumes then w
                else w.(volumes := w.volumes[v := Volume(true, HelperName(run, i), Empty)]);
      Attempt(w, w', f, CreateHelper(i), Raised)
    case CreateHelper(i) => CreateHelperStep(run, w, i, f)
    case Import(i) => ImportStep(run, w, i, f)
  }

  /** From the populated volume to its marker. */
  function PublishingStep(run: Run, w: World, pc: Pc, f: Fault): State
    requires WithinBounds(run, pc) && Publishing(pc)
  {
    var v := run.declared[pc.i].name;
    match pc
    case DropHelper(i) =>
      Attempt(w, w.(helpers := w.helpers - {HelperName(run, i)}), f, WriteMarker(i), FinallyHelper(i, false, true))
    case WriteMarker(i) =>
      Attempt(w, w.(temporary := w.temporary + {v}), f, PublishMarker(i), FinallyHelper(i, false, true))
    case PublishMarker(i) =>
      if v !in w.temporary then State(w, FinallyHelper(i, false, true))
      else
        Attempt(w, w.(ready := w.ready + {v}, temporary := w.temporary - {v}), f,
                NoteInitialized(i), FinallyHelper(i, false, true))
    case NoteInitialized(i) =>
      State(w, if f.Ok? then UnlinkPending(i) else FinallyHelper(i, f.applied, true))
    case UnlinkPending(i) =>
      Attempt(w, w.(pending := w.pending - {v}), f, FinallyHelper(i, true, false), FinallyHelper(i, true, true))
  }

  function FinallyHelperStep(run: Run, w: World, pc: Pc, f: Fault): State
    requires WithinBounds(run, pc) && pc.FinallyHelper?
  {
    State(if Happens(f) then w.(helpers := w.helpers - {HelperName(run, pc.i)}) else w,
          if f.Signal? then Raised
          else if !pc.initialized then FinallyVolume(pc.i)
          else if pc.raising then Raised
          else Begin(pc.i + 1))
  }

  function FinallyVolumeStep(run: Run, w: World, i: nat, f: Fault): State
    requires i < |run.declared|
  {
    var v := run.declared[i].name;
    State(if Happens(f) && !Referenced(w, v) then w.(volumes := w.volumes - {v}) else w, Raised)
  }

  function StopOldStep(w: World, f: Fault): State {
    var w' := if w.previous.Present? then w.(previous := w.previous.(running := false)) else w;
    Attempt(w, w', f, Begin(0), Raised)
  }

  function BeginStep(run: Run, w: World, i: nat, f: Fault): State
    requires i <= |run.declared|
  {
    State(w, if !f.Ok? then Raised
             else if i == |run.declared| then Done
             else if run.declared[i].name in w.ready then Begin(i + 1)
             else TruncatePending(i))
  }

  function Step(run: Run, s: State, f: Fault): State
    requires WithinBounds(run, s.pc)
    ensures WithinBounds(run, Step(run, s, f).pc)
  {
    if Checking(s.pc) then CheckingStep(run, s.world, s.pc, f)
    else if s.pc.StopOld? then StopOldStep(s.world, f)
    else if s.pc.Begin? then BeginStep(run, s.world, s.pc.i, f)
    else if Creating(s.pc) then CreatingStep(run, s.world, s.pc, f)
    else if Publishing(s.pc) then PublishingStep(run, s.world, s.pc, f)
    else if s.pc.FinallyHelper? then FinallyHelperStep(run, s.world, s.pc, f)
    else if s.pc.FinallyVolume? then FinallyVolumeStep(run, s.world, s.pc.i, f)
    else s
  }

  /** The state after the first n steps of a run that starts in w. */
  function Exec(run: Run, w: World, faults: nat -> Fault, n: nat): (s: State)
    ensures WithinBounds(run, s.pc)
  {
    if n == 0 then Start(run, w) else Step(run, Exec(run, w, faults, n - 1), faults(n - 1))
  }

  predicate Halted(s: State) {
    s.pc.Done? || s.pc.Raised?
  }
}
