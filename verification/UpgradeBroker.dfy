/** The host upgrade broker: what each of its atomic actions does to the durable
    records, to the admission row of the database and to the running process.

    Requests and resumes hold the broker's lock from beginning to end, and so does
    every save of the execute thread; its database calls do not take the lock.
    The actions below are these critical sections and those single calls. */
module UpgradeBroker {
  import opened Options

  type Id(==,!new,0) = string

  datatype JobState =
    | Checking | Downloading | Applying | Verifying | Restoring
    | Blocked | Succeeded | Failed | Interrupted | Recovered

  predicate Active(s: JobState) {
    s.Checking? || s.Downloading? || s.Applying? || s.Verifying? || s.Restoring?
  }

  /** States after which the broker accepts another upgrade. */
  predicate Final(s: JobState) {
    s.Succeeded? || s.Blocked? || s.Recovered?
  }

  datatype Admission = Unreported | Unknown | Paused | Reopening | Open

  datatype Job = Job(id: Id, plan: Id, actor: Id, state: JobState, admission: Admission)

  /** What the execute thread does next. */
  datatype Thread =
    | Idle
    | PauseAdmission
    | ReopenBusy | UnpauseBusy | SaveBlocked
    | FindRelease | Upgrade | Install
    | Reopen | Unpause | SaveSucceeded
    | ReportFailure(admission: Admission) | ClearRestarting

  datatype Broker = Broker(
    row: Option<Id>,            // the admission row of the database
    current: Option<Job>,       // job.json
    records: map<Id, Job>,      // one file per request
    up: bool,                   // whether the process runs; the rest lives in its memory
    job: Option<Job>,
    restarting: bool,
    thread: Thread,
    launches: map<Id, nat>)     // how often execute was launched for a request

  /** How a save or a database call goes: it may report an error, or the process may
      die, before or after the effect has become durable. */
  datatype Fault = Ok | Raise(applied: bool) | Crash(applied: bool)

  datatype Outcome = Completed | Raised | Crashed

  function OutcomeOf(f: Fault): Outcome {
    match f case Ok => Completed case Raise(_) => Raised case Crash(_) => Crashed
  }

  predicate Takes(f: Fault) {
    f.Ok? || f.applied
  }

  function Dead(b: Broker): Broker {
    b.(up := false, job := None, restarting := false, thread := Idle)
  }

  function DeadIf(b: Broker, o: Outcome): Broker {
    if o.Crashed? then Dead(b) else b
  }

  // ---------- saving ----------

  datatype File = Current | Record

  function Save(b: Broker, file: File, job: Job, f: Fault): (Broker, Outcome) {
    var b' := if !Takes(f) then b
              else if file.Current? then b.(current := Some(job))
              else b.(records := b.records[job.id := job]);
    (DeadIf(b', OutcomeOf(f)), OutcomeOf(f))
  }

  /** A new job is recorded as current first, a later state in its own record first. */
  function Persist(b: Broker, job: Job, initial: bool, f: Fault, g: Fault): (Broker, Outcome) {
    var (b1, o1) := Save(b, if initial then Current else Record, job, f);
    if !o1.Completed? then (b1, o1)
    else
      var (b2, o2) := Save(b1, if initial then Record else Current, job, g);
      (if o2.Completed? then b2.(job := Some(job)) else b2, o2)
  }

  function Update(b: Broker, state: JobState, admission: Admission, f: Fault, g: Fault): (Broker, Outcome)
    requires b.job.Some?
  {
    Persist(b, b.job.value.(state := state, admission := admission), false, f, g)
  }

  /** When even the failure cannot be saved, memory reports it. */
  function RecordFailure(b: Broker, admission: Admission, f: Fault, g: Fault): (Broker, Outcome)
    requires b.job.Some?
  {
    var (b', o) := Update(b, Failed, admission, f, g);
    if o.Raised? then (b'.(job := Some(b.job.value.(state := Failed, admission := admission))), Completed)
    else (b', o)
  }

  // ---------- the admission row ----------

  /** Takes the row for `id` if it is free; a busy row is an error. */
  function PauseRow(b: Broker, id: Id, f: Fault): (Broker, Outcome) {
    if b.row.Some? && !f.Crash? then (b, Raised)
    else
      var b' := if Takes(f) && b.row.None? then b.(row := Some(id)) else b;
      (DeadIf(b', OutcomeOf(f)), OutcomeOf(f))
  }

  predicate Foreign(b: Broker, id: Id) {
    b.row.Some? && b.row.value != id
  }

  /** Frees the row of `id`; a row held by another job is an error. */
  function UnpauseRow(b: Broker, id: Id, f: Fault): (Broker, Outcome) {
    if Foreign(b, id) && !f.Crash? then (b, Raised)
    else
      var b' := if Takes(f) && !Foreign(b, id) then b.(row := None) else b;
      (DeadIf(b', OutcomeOf(f)), OutcomeOf(f))
  }

  // ---------- requests ----------

  datatype Reply = Existing(job: Job) | Conflict | Refused | Unsaved | Launched(job: Job) | Lost

  predicate MayStart(b: Broker) {
    !b.restarting && (b.job.Some? ==> Final(b.job.value.state))
  }

  function Known(b: Broker, id: Id): Option<Job> {
    if b.job.Some? && b.job.value.id == id then b.job
    else if id in b.records then Some(b.records[id])
    else None
  }

  function Count(m: map<Id, nat>, id: Id): nat {
    if id in m then m[id] else 0
  }

  /** A request for an upgrade.  `planned` says that the plan is current and the
      installed release is the one it was made for. */
  function Start(b: Broker, id: Id, plan: Id, actor: Id, planned: bool, f: nat -> Fault): (Broker, Reply)
    requires b.up
  {
    var previous := Known(b, id);
    if previous.Some? then
      (b, if previous.value.plan == plan && previous.value.actor == actor then Existing(previous.value) else Conflict)
    else if !MayStart(b) || !planned then (b, Refused)
    else
      var job := Job(id, plan, actor, Checking, Unreported);
      var (b1, o) := Persist(b, job, true, f(0), f(1));
      match o
      case Crashed => (b1, Lost)
      case Raised =>
        var (b2, o2) := RecordFailure(b1.(job := Some(job.(state := Failed))), Open, f(2), f(3));
        (b2, if o2.Crashed? then Lost else Unsaved)
      case Completed =>
        (b1.(thread := PauseAdmission, launches := b1.launches[id := Count(b1.launches, id) + 1]), Launched(job))
  }

  // ---------- the execute thread ----------

  /** What the outside world answers: whether work is pending, whether a check or the
      command succeeds, and which progress line the command prints next, if any. */
  datatype Answer = Answer(busy: bool, succeeds: bool, progress: Option<JobState>)

  function After(b: Broker, o: Outcome, next: Thread, failed: Admission): Broker {
    match o
    case Completed => b.(thread := next)
    case Raised => b.(thread := ReportFailure(failed))
    case Crashed => b
  }

  function PauseStep(b: Broker, f: Fault, next: Thread): Broker
    requires b.job.Some?
  {
    var (b', o) := PauseRow(b, b.job.value.id, f);
    After(b', o, next, Unknown)
  }

  function UnpauseStep(b: Broker, f: Fault, next: Thread): Broker
    requires b.job.Some?
  {
    var (b', o) := UnpauseRow(b, b.job.value.id, f);
    After(b', o, next, Unknown)
  }

  function SaveStep(b: Broker, state: JobState, admission: Admission, f: nat -> Fault, next: Thread, failed: Admission): Broker
    requires b.job.Some?
  {
    var (b', o) := Update(b, state, admission, f(0), f(1));
    After(b', o, next, failed)
  }

  /** The last save, under the lock together with the restart of the service. */
  function FinishStep(b: Broker, restarts: bool, f: nat -> Fault): Broker
    requires b.job.Some?
  {
    var (b', o) := Update(b.(restarting := true), Succeeded, Open, f(0), f(1));
    After(b', if o.Completed? && !restarts then Raised else o, Idle, Open)
  }

  function ReportStep(b: Broker, admission: Admission, f: nat -> Fault): Broker
    requires b.job.Some?
  {
    var (b', o) := RecordFailure(b, admission, f(0), f(1));
    if o.Crashed? then b' else b'.(thread := ClearRestarting)
  }

  function Execute(b: Broker, a: Answer, f: nat -> Fault): Broker
    requires b.up && (!b.thread.Idle? ==> b.job.Some?)
  {
    match b.thread
    case Idle => b
    case PauseAdmission => PauseStep(b, f(0), if a.busy then ReopenBusy else FindRelease)
    case ReopenBusy => SaveStep(b, b.job.value.state, Reopening, f, UnpauseBusy, Paused)
    case UnpauseBusy => UnpauseStep(b, f(0), SaveBlocked)
    case SaveBlocked => SaveStep(b, Blocked, Open, f, Idle, Open)
    case FindRelease =>
      if a.succeeds then SaveStep(b, Downloading, b.job.value.admission, f, Upgrade, Paused)
      else b.(thread := ReportFailure(Paused))
    case Upgrade =>
      if a.progress.Some? && Active(a.progress.value) then
        SaveStep(b, a.progress.value, b.job.value.admission, f, Upgrade, Paused)
      else b.(thread := if a.succeeds then Install else ReportFailure(Paused))
    case Install => b.(thread := if a.succeeds then Reopen else ReportFailure(Paused))
    case Reopen => SaveStep(b, b.job.value.state, Reopening, f, Unpause, Paused)
    case Unpause => UnpauseStep(b, f(0), SaveSucceeded)
    case SaveSucceeded => FinishStep(b, a.succeeds, f)
    case ReportFailure(admission) => ReportStep(b, admission, f)
    case ClearRestarting => b.(restarting := false, thread := Idle)
  }

  // ---------- recovery by the operator ----------

  /** `healthy`: the doctor command succeeded and nothing is pending; `installs` and
      `restarts`: the runner could be installed, and the service restarted. */
  function Resume(b: Broker, healthy: bool, installs: bool, restarts: bool, f: nat -> Fault): Broker
    requires b.up
  {
    if b.job.None? || Active(b.job.value.state) || !healthy then b
    else
      var (b1, o1) := Update(b, b.job.value.state, Reopening, f(0), f(1));
      if !o1.Completed? then b1
      else
        var (b2, o2) := if installs then UnpauseRow(b1, b1.job.value.id, f(2)) else (b1, Raised);
        match o2
        case Crashed => b2
        case Raised => GiveUp(b2, Unknown, f)
        case Completed =>
          var (b3, o3) := Update(b2.(restarting := true), Recovered, Open, f(3), f(4));
          match o3
          case Crashed => b3
          case Raised => GiveUp(b3, Open, f)
          case Completed => if restarts then b3 else GiveUp(b3, Open, f)
  }

  function GiveUp(b: Broker, admission: Admission, f: nat -> Fault): Broker
    requires b.job.Some?
  {
    var (b', o) := RecordFailure(b, admission, f(5), f(6));
    b'.(restarting := false)
  }

  // ---------- the life of the process ----------

  /** A new process reads the current job; one that was active is marked interrupted,
      and when that cannot be saved the process does not come up. */
  function Boot(b: Broker, f: nat -> Fault): Broker
    requires !b.up
  {
    var b1 := b.(up := true, job := b.current, restarting := false, thread := Idle);
    if b.current.Some? && Active(b.current.value.state) then
      var (b2, o) := Update(b1, Interrupted, b.current.value.admission, f(0), f(1));
      if o.Completed? then b2 else Dead(b2)
    else b1
  }

  datatype Event =
    | Request(id: Id, plan: Id, actor: Id, planned: bool, f: nat -> Fault)
    | Thread(answer: Answer, f: nat -> Fault)
    | Resumed(healthy: bool, installs: bool, restarts: bool, f: nat -> Fault)
    | Killed
    | Booted(f: nat -> Fault)

  /** Any request, any step of the thread, at any time; what cannot happen leaves the broker as it is. */
  function Apply(b: Broker, e: Event): Broker {
    match e
    case Request(id, plan, actor, planned, f) => if b.up then Start(b, id, plan, actor, planned, f).0 else b
    case Thread(answer, f) => if b.up && (!b.thread.Idle? ==> b.job.Some?) then Execute(b, answer, f) else b
    case Resumed(healthy, installs, restarts, f) => if b.up then Resume(b, healthy, installs, restarts, f) else b
    case Killed => Dead(b)
    case Booted(f) => if b.up then b else Boot(b, f)
  }

  function Run(b: Broker, events: seq<Event>): Broker
    decreases |events|
  {
    if events == [] then b else Run(Apply(b, events[0]), events[1..])
  }

  const FRESH := Broker(None, None, map[], false, None, false, Idle, map[])
}
