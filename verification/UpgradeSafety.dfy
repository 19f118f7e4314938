/** Safety of the upgrade broker over every interleaving of requests, thread steps,
    failed saves, lost database replies, crashes and restarts. */
module UpgradeSafety {
  import opened Options
  import opened UpgradeBroker

  // ---------- the invariant ----------

  /** The row is held only by the job that job.json names, in a state that keeps
      further upgrades out. */
  predicate RowIsCurrent(b: Broker) {
    b.row.Some? ==> b.current.Some? && b.current.value.id == b.row.value && !Final(b.current.value.state)
  }

  /** A live broker never finds the row held by somebody else. */
  predicate RowIsOurs(b: Broker) {
    b.up && b.row.Some? ==> b.job.Some? && b.job.value.id == b.row.value
  }

  /** What a job says about admission is true of the row. */
  predicate Truthful(b: Broker, j: Job) {
    (j.admission.Paused? ==> b.row == Some(j.id)) && (j.admission.Open? ==> b.row.None?)
  }

  predicate Reports(b: Broker) {
    (b.current.Some? ==> Truthful(b, b.current.value)) && (b.up && b.job.Some? ==> Truthful(b, b.job.value))
  }

  predicate FinalIsDurable(b: Broker) {
    b.up && b.job.Some? && Final(b.job.value.state) ==> b.current.Some? && Final(b.current.value.state)
  }

  predicate LaunchedOnce(b: Broker) {
    forall id | id in b.launches :: b.launches[id] == 1 && id in b.records
  }

  /** The job of a working thread is active, and durably so. */
  predicate Working(b: Broker, admission: Admission) {
    b.job.Some? && Active(b.job.value.state) && b.job.value.admission == admission && b.current == b.job
  }

  predicate ThreadOk(b: Broker) {
    match b.thread
    case Idle => true
    case PauseAdmission => Working(b, Unreported) && b.row.None?
    case UnpauseBusy => Working(b, Reopening) && b.row.Some?
    case Unpause => Working(b, Reopening) && b.row.Some?
    case SaveBlocked => Working(b, Reopening) && b.row.None?
    case SaveSucceeded => Working(b, Reopening) && b.row.None?
    case ReportFailure(admission) =>
      && b.job.Some? && (b.restarting || !Final(b.job.value.state))
      && (admission.Paused? ==> b.row.Some?) && (admission.Open? ==> b.row.None?)
      && (!admission.Open? ==> Active(b.job.value.state))
    case ClearRestarting => b.job.Some? && (b.restarting || !Final(b.job.value.state))
    case _ => Working(b, Unreported) && b.row.Some?
  }

  predicate Inv(b: Broker) {
    && RowIsCurrent(b) && RowIsOurs(b) && Reports(b) && FinalIsDurable(b) && LaunchedOnce(b) && ThreadOk(b)
    && (!b.up ==> b.thread.Idle?)
  }

  // ---------- saves ----------

  /** What a save may leave behind: memory follows only complete saves. */
  lemma PersistEffect(b: Broker, job: Job, initial: bool, f: Fault, g: Fault)
    ensures var (b', o) := Persist(b, job, initial, f, g);
            && b'.row == b.row && b'.launches == b.launches
            && b'.current in {b.current, Some(job)}
            && (forall id | id in b.records :: id in b'.records)
            && (o.Completed? ==> b'.current == Some(job) && job.id in b'.records
                                 && b' == b.(current := b'.current, records := b'.records, job := Some(job)))
            && (o.Raised? ==> b' == b.(current := b'.current, records := b'.records))
            && (o.Crashed? ==> b' == Dead(b').(current := b'.current, records := b'.records))
  {
  }

  lemma StartKeepsInv(b: Broker, id: Id, plan: Id, actor: Id, planned: bool, f: nat -> Fault)
    requires Inv(b) && b.up
    ensures Inv(Start(b, id, plan, actor, planned, f).0)
  {
    if Known(b, id).None? && MayStart(b) && planned {
      assert b.thread.Idle? && b.row.None?;
      var job := Job(id, plan, actor, Checking, Unreported);
      PersistEffect(b, job, true, f(0), f(1));
      var (b1, o) := Persist(b, job, true, f(0), f(1));
      if o.Raised? {
        var failed := job.(state := Failed, admission := Open);
        PersistEffect(b1.(job := Some(job.(state := Failed))), failed, false, f(2), f(3));
      }
    }
  }

  lemma ReopenKeepsInv(b: Broker, a: Answer, f: nat -> Fault)
    requires Inv(b) && b.up && (b.thread.ReopenBusy? || b.thread.Reopen?)
    ensures Inv(Execute(b, a, f))
  {
    PersistEffect(b, b.job.value.(admission := Reopening), false, f(0), f(1));
  }

  lemma FindReleaseKeepsInv(b: Broker, f: nat -> Fault)
    requires Inv(b) && b.up && b.thread.FindRelease?
    ensures Inv(SaveStep(b, Downloading, b.job.value.admission, f, Upgrade, Paused))
  {
    PersistEffect(b, b.job.value.(state := Downloading), false, f(0), f(1));
  }

  lemma ProgressKeepsInv(b: Broker, state: JobState, f: nat -> Fault)
    requires Inv(b) && b.up && b.thread.Upgrade? && Active(state)
    ensures Inv(SaveStep(b, state, b.job.value.admission, f, Upgrade, Paused))
  {
    PersistEffect(b, b.job.value.(state := state), false, f(0), f(1));
  }

  lemma AnswerKeepsInv(b: Broker, next: Thread)
    requires Inv(b) && b.up && (b.thread.FindRelease? || b.thread.Upgrade? || b.thread.Install?)
    requires next.Install? || next.Reopen? || next == ReportFailure(Paused)
    ensures Inv(b.(thread := next))
  {
  }

  lemma PauseKeepsInv(b: Broker, f: Fault, next: Thread)
    requires Inv(b) && b.up && b.thread.PauseAdmission? && (next.ReopenBusy? || next.FindRelease?)
    ensures Inv(PauseStep(b, f, next))
  {
  }

  lemma UnpauseKeepsInv(b: Broker, f: Fault, next: Thread)
    requires Inv(b) && b.up
    requires (b.thread.UnpauseBusy? && next.SaveBlocked?) || (b.thread.Unpause? && next.SaveSucceeded?)
    ensures Inv(UnpauseStep(b, f, next))
  {
  }

  lemma FinishKeepsInv(b: Broker, a: Answer, f: nat -> Fault)
    requires Inv(b) && b.up && (b.thread.SaveBlocked? || b.thread.SaveSucceeded?)
    ensures Inv(Execute(b, a, f))
  {
    var j := b.job.value;
    PersistEffect(b, j.(state := Blocked, admission := Open), false, f(0), f(1));
    PersistEffect(b.(restarting := true), j.(state := Succeeded, admission := Open), false, f(0), f(1));
  }

  lemma FailKeepsInv(b: Broker, a: Answer, f: nat -> Fault)
    requires Inv(b) && b.up && (b.thread.ReportFailure? || b.thread.ClearRestarting? || b.thread.Idle?)
    ensures Inv(Execute(b, a, f))
  {
    if b.thread.ReportFailure? {
      PersistEffect(b, b.job.value.(state := Failed, admission := b.thread.admission), false, f(0), f(1));
    }
  }

  lemma ExecuteKeepsInv(b: Broker, a: Answer, f: nat -> Fault)
    requires Inv(b) && b.up
    ensures Inv(Execute(b, a, f))
  {
    match b.thread
    case PauseAdmission => PauseKeepsInv(b, f(0), if a.busy then ReopenBusy else FindRelease);
    case UnpauseBusy => UnpauseKeepsInv(b, f(0), SaveBlocked);
    case Unpause => UnpauseKeepsInv(b, f(0), SaveSucceeded);
    case ReopenBusy => ReopenKeepsInv(b, a, f);
    case Reopen => ReopenKeepsInv(b, a, f);
    case FindRelease =>
      FindReleaseKeepsInv(b, f);
      AnswerKeepsInv(b, ReportFailure(Paused));
    case Upgrade =>
      if a.progress.Some? && Active(a.progress.value) { ProgressKeepsInv(b, a.progress.value, f); }
      AnswerKeepsInv(b, if a.succeeds then Install else ReportFailure(Paused));
    case Install => AnswerKeepsInv(b, if a.succeeds then Reopen else ReportFailure(Paused));
    case SaveBlocked => FinishKeepsInv(b, a, f);
    case SaveSucceeded => FinishKeepsInv(b, a, f);
    case ReportFailure(_) => FailKeepsInv(b, a, f);
    case ClearRestarting => FailKeepsInv(b, a, f);
    case Idle => FailKeepsInv(b, a, f);
  }

  /** Between two saves of a resume: the thread is out of the way. */
  predicate Recovering(b: Broker) {
    Inv(b) && b.up && b.job.Some? && !Active(b.job.value.state)
  }

  lemma ReopeningKeepsInv(b: Broker, f: Fault, g: Fault)
    requires Recovering(b)
    ensures var (b', o) := Update(b, b.job.value.state, Reopening, f, g);
            Inv(b') && (o.Completed? ==> Recovering(b') && b'.job.value.admission.Reopening? && b'.current == b'.job)
  {
    PersistEffect(b, b.job.value.(admission := Reopening), false, f, g);
  }

  lemma FreeingKeepsInv(b: Broker, f: Fault)
    requires Recovering(b) && b.job.value.admission.Reopening? && b.current == b.job
    ensures var (b', o) := UnpauseRow(b, b.job.value.id, f);
            Inv(b') && (!o.Crashed? ==> Recovering(b')) && (o.Completed? ==> b'.row.None? && b'.current == b'.job)
  {
  }

  lemma GivingUpKeepsInv(b: Broker, admission: Admission, f: nat -> Fault)
    requires Recovering(b) || (Recovering(b.(restarting := false)) && b.restarting)
    requires admission.Unknown? || (admission.Open? && b.row.None?)
    ensures Inv(GiveUp(b, admission, f))
  {
    PersistEffect(b, b.job.value.(state := Failed, admission := admission), false, f(5), f(6));
  }

  lemma RecoveredKeepsInv(b: Broker, f: Fault, g: Fault)
    requires Recovering(b) && b.row.None?
    ensures var (b', o) := Update(b.(restarting := true), Recovered, Open, f, g);
            Inv(b') && b'.row.None? && (!o.Crashed? ==> Recovering(b'))
  {
    PersistEffect(b.(restarting := true), b.job.value.(state := Recovered, admission := Open), false, f, g);
  }

  lemma ResumeKeepsInv(b: Broker, healthy: bool, installs: bool, restarts: bool, f: nat -> Fault)
    requires Inv(b) && b.up
    ensures Inv(Resume(b, healthy, installs, restarts, f))
  {
    if b.job.Some? && !Active(b.job.value.state) && healthy {
      ReopeningKeepsInv(b, f(0), f(1));
      var (b1, o1) := Update(b, b.job.value.state, Reopening, f(0), f(1));
      if o1.Completed? {
        FreeingKeepsInv(b1, f(2));
        var (b2, o2) := if installs then UnpauseRow(b1, b1.job.value.id, f(2)) else (b1, Raised);
        if o2.Raised? { GivingUpKeepsInv(b2, Unknown, f); }
        if o2.Completed? {
          RecoveredKeepsInv(b2, f(3), f(4));
          var (b3, o3) := Update(b2.(restarting := true), Recovered, Open, f(3), f(4));
          if !o3.Crashed? { GivingUpKeepsInv(b3, Open, f); }
        }
      }
    }
  }

  lemma BootKeepsInv(b: Broker, f: nat -> Fault)
    requires Inv(b) && !b.up
    ensures Inv(Boot(b, f))
  {
    if b.current.Some? {
      var j := b.current.value.(state := Interrupted);
      PersistEffect(b.(up := true, job := b.current, restarting := false, thread := Idle), j, false, f(0), f(1));
    }
  }

  // ---------- over every run ----------

  lemma ApplyKeepsInv(b: Broker, e: Event)
    requires Inv(b)
    ensures Inv(Apply(b, e))
  {
    match e
    case Request(id, plan, actor, planned, f) => if b.up { StartKeepsInv(b, id, plan, actor, planned, f); }
    case Thread(answer, f) => if b.up { ExecuteKeepsInv(b, answer, f); }
    case Resumed(healthy, installs, restarts, f) => if b.up { ResumeKeepsInv(b, healthy, installs, restarts, f); }
    case Killed =>
    case Booted(f) => if !b.up { BootKeepsInv(b, f); }
  }

  lemma {:induction false} RunKeepsInv(b: Broker, events: seq<Event>)
    requires Inv(b)
    ensures Inv(Run(b, events))
    decreases |events|
  {
    if events != [] {
      ApplyKeepsInv(b, events[0]);
      RunKeepsInv(Apply(b, events[0]), events[1..]);
    }
  }

  /** Whatever happens: the admission row is held only by the job that job.json names
      in a non-final state, and what job.json says about admission is true. */
  lemma AdmissionIsSafe(events: seq<Event>)
    ensures var b := Run(FRESH, events);
            && (b.row.Some? ==> b.current.Some? && b.current.value.id == b.row.value && !Final(b.current.value.state))
            && (b.current.Some? && b.current.value.admission.Open? ==> b.row.None?)
            && (b.current.Some? && b.current.value.admission.Paused? ==> b.row == Some(b.current.value.id))
  {
    RunKeepsInv(FRESH, events);
  }

  /** Neither the thread nor a resume ever finds the row held by another job, and the
      thread never finds it taken when it pauses. */
  lemma RowIsNeverForeign(events: seq<Event>)
    ensures var b := Run(FRESH, events);
            && (b.up && b.job.Some? ==> !Foreign(b, b.job.value.id))
            && (b.thread.PauseAdmission? ==> b.row.None?)
  {
    RunKeepsInv(FRESH, events);
  }

  /** No two lives of execute: while one has steps left, no request is accepted. */
  lemma OneThreadAtATime(events: seq<Event>)
    ensures var b := Run(FRESH, events); !b.thread.Idle? ==> !MayStart(b)
  {
    RunKeepsInv(FRESH, events);
  }

  /** Whether this event is answered by launching execute for `id`. */
  predicate Launches(b: Broker, e: Event, id: Id) {
    e.Request? && e.id == id && b.up && Start(b, e.id, e.plan, e.actor, e.planned, e.f).1.Launched?
  }

  /** How many of the events are. */
  function Launched(b: Broker, events: seq<Event>, id: Id): nat
    decreases |events|
  {
    if events == [] then 0
    else (if Launches(b, events[0], id) then 1 else 0) + Launched(Apply(b, events[0]), events[1..], id)
  }

  lemma StartCountsLaunch(b: Broker, id: Id, plan: Id, actor: Id, planned: bool, f: nat -> Fault)
    requires b.up
    ensures var (b', reply) := Start(b, id, plan, actor, planned, f);
            b'.launches == if reply.Launched? then b.launches[id := Count(b.launches, id) + 1] else b.launches
  {
    var job := Job(id, plan, actor, Checking, Unreported);
    PersistEffect(b, job, true, f(0), f(1));
    var b1 := Persist(b, job, true, f(0), f(1)).0;
    PersistEffect(b1.(job := Some(job.(state := Failed))), job.(state := Failed, admission := Open), false, f(2), f(3));
  }

  lemma SaveStepKeepsLaunches(b: Broker, state: JobState, admission: Admission, f: nat -> Fault, next: Thread, failed: Admission)
    requires b.job.Some?
    ensures SaveStep(b, state, admission, f, next, failed).launches == b.launches
  {
    PersistEffect(b, b.job.value.(state := state, admission := admission), false, f(0), f(1));
  }

  lemma ExecuteKeepsLaunches(b: Broker, a: Answer, f: nat -> Fault)
    requires b.up && (!b.thread.Idle? ==> b.job.Some?)
    ensures Execute(b, a, f).launches == b.launches
  {
    match b.thread
    case ReopenBusy => SaveStepKeepsLaunches(b, b.job.value.state, Reopening, f, UnpauseBusy, Paused);
    case Reopen => SaveStepKeepsLaunches(b, b.job.value.state, Reopening, f, Unpause, Paused);
    case SaveBlocked => SaveStepKeepsLaunches(b, Blocked, Open, f, Idle, Open);
    case FindRelease => SaveStepKeepsLaunches(b, Downloading, b.job.value.admission, f, Upgrade, Paused);
    case Upgrade =>
      if a.progress.Some? { SaveStepKeepsLaunches(b, a.progress.value, b.job.value.admission, f, Upgrade, Paused); }
    case SaveSucceeded => FinishStepKeepsLaunches(b, a.succeeds, f);
    case ReportFailure(admission) => ReportStepKeepsLaunches(b, admission, f);
    case _ =>
  }

  lemma FinishStepKeepsLaunches(b: Broker, restarts: bool, f: nat -> Fault)
    requires b.job.Some?
    ensures FinishStep(b, restarts, f).launches == b.launches
  {
    PersistEffect(b.(restarting := true), b.job.value.(state := Succeeded, admission := Open), false, f(0), f(1));
  }

  lemma ReportStepKeepsLaunches(b: Broker, admission: Admission, f: nat -> Fault)
    requires b.job.Some?
    ensures ReportStep(b, admission, f).launches == b.launches
  {
    PersistEffect(b, b.job.value.(state := Failed, admission := admission), false, f(0), f(1));
  }

  lemma UpdateKeepsLaunches(b: Broker, state: JobState, admission: Admission, f: Fault, g: Fault)
    requires b.job.Some?
    ensures Update(b, state, admission, f, g).0.launches == b.launches
    ensures Update(b, state, admission, f, g).1.Crashed? || Update(b, state, admission, f, g).0.job.Some?
  {
    PersistEffect(b, b.job.value.(state := state, admission := admission), false, f, g);
  }

  lemma ResumeKeepsLaunches(b: Broker, healthy: bool, installs: bool, restarts: bool, f: nat -> Fault)
    requires b.up
    ensures Resume(b, healthy, installs, restarts, f).launches == b.launches
  {
    if b.job.Some? && !Active(b.job.value.state) && healthy {
      UpdateKeepsLaunches(b, b.job.value.state, Reopening, f(0), f(1));
      var (b1, o1) := Update(b, b.job.value.state, Reopening, f(0), f(1));
      if o1.Completed? {
        var (b2, o2) := if installs then UnpauseRow(b1, b1.job.value.id, f(2)) else (b1, Raised);
        if !o2.Crashed? {
          UpdateKeepsLaunches(b2, Failed, Unknown, f(5), f(6));
          UpdateKeepsLaunches(b2.(restarting := true), Recovered, Open, f(3), f(4));
          var (b3, o3) := Update(b2.(restarting := true), Recovered, Open, f(3), f(4));
          if !o3.Crashed? { UpdateKeepsLaunches(b3, Failed, Open, f(5), f(6)); }
        }
      }
    }
  }

  lemma BootKeepsLaunches(b: Broker, f: nat -> Fault)
    requires !b.up
    ensures Boot(b, f).launches == b.launches
  {
    if b.current.Some? {
      var b1 := b.(up := true, job := b.current, restarting := false, thread := Idle);
      UpdateKeepsLaunches(b1, Interrupted, b.current.value.admission, f(0), f(1));
    }
  }

  lemma ApplyCountsLaunches(b: Broker, e: Event, id: Id)
    ensures Count(Apply(b, e).launches, id) == Count(b.launches, id) + if Launches(b, e, id) then 1 else 0
  {
    match e
    case Request(i, plan, actor, planned, f) => if b.up { StartCountsLaunch(b, i, plan, actor, planned, f); }
    case Thread(answer, f) =>
      if b.up && (!b.thread.Idle? ==> b.job.Some?) { ExecuteKeepsLaunches(b, answer, f); }
    case Resumed(healthy, installs, restarts, f) => if b.up { ResumeKeepsLaunches(b, healthy, installs, restarts, f); }
    case Killed =>
    case Booted(f) => if !b.up { BootKeepsLaunches(b, f); }
  }

  lemma {:induction false} RunCountsLaunches(b: Broker, events: seq<Event>, id: Id)
    ensures Count(Run(b, events).launches, id) == Count(b.launches, id) + Launched(b, events, id)
    decreases |events|
  {
    if events != [] {
      ApplyCountsLaunches(b, events[0], id);
      RunCountsLaunches(Apply(b, events[0]), events[1..], id);
    }
  }

  /** Each request launches execute at most once, over all repetitions of it, failed
      saves, crashes and restarts. */
  lemma AtMostOneLaunch(events: seq<Event>, id: Id)
    ensures Launched(FRESH, events, id) <= 1
  {
    RunKeepsInv(FRESH, events);
    RunCountsLaunches(FRESH, events, id);
  }
}
