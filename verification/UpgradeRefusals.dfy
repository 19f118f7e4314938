/** What the upgrade broker refuses and so keeps as it is, and what it leaves behind when a step fails. */
module UpgradeRefusals {
  import opened Options
  import opened UpgradeBroker
  import opened UpgradeSafety
  import opened UpgradeOutcomes

  // ---------- requests ----------

  /** The job that a repeated identifier is answered with. */
  predicate Recorded(b: Broker, id: Id, j: Job) {
    if b.job.Some? && b.job.value.id == id then j == b.job.value else id in b.records && b.records[id] == j
  }

  /** A known identifier starts nothing: it gets its job, or with another plan or actor a conflict. */
  lemma KnownRequest(b: Broker, id: Id, plan: Id, actor: Id, planned: bool, f: nat -> Fault, j: Job)
    requires b.up && Recorded(b, id, j)
    ensures Start(b, id, plan, actor, planned, f) == (b, if plan == j.plan && actor == j.actor then Existing(j) else Conflict)
  {
  }

  /** An unknown one is refused while the service restarts, unless the last job succeeded, was blocked or was
      recovered, and when its plan is not current; otherwise it is written down, and launched if that succeeds. */
  lemma NewRequest(b: Broker, id: Id, plan: Id, actor: Id, planned: bool, f: nat -> Fault)
    requires b.up && id !in b.records && (b.job.Some? ==> b.job.value.id != id)
    ensures var (b', reply) := Start(b, id, plan, actor, planned, f);
            var free := !b.restarting && (b.job.None? || b.job.value.state in {Succeeded, Blocked, Recovered});
            && (!planned || !free ==> b' == b && reply == Refused)
            && (planned && free ==> reply.Launched? || reply.Unsaved? || reply.Lost?)
            && (planned && free && f(0).Ok? && f(1).Ok? ==> reply.Launched?)
            && (reply.Launched? ==>
                  var job := Job(id, plan, actor, Checking, Unreported);
                  reply.job == job && b'.job == b'.current == Some(job) && id in b'.records && b'.records[id] == job
                  && b'.thread.PauseAdmission? && b'.row == b.row)
            && (reply.Unsaved? ==> b'.thread == b.thread && b'.row == b.row && b'.job == Some(Job(id, plan, actor, Failed, Open)))
  {
  }

  // ---------- an unhealthy host keeps admission closed ----------

  /** Somebody resumed on a host that the doctor command found healthy and that has nothing pending. */
  predicate HealthyResume(e: Event) {
    e.Resumed? && e.healthy
  }

  /** The row is held and no thread is at work. */
  predicate Held(b: Broker, id: Id) {
    Inv(b) && b.thread.Idle? && b.row == Some(id)
  }

  lemma HeldRefuses(b: Broker, id: Id, request: Id, plan: Id, actor: Id, planned: bool, f: nat -> Fault)
    requires Held(b, id) && b.up
    ensures Start(b, request, plan, actor, planned, f).0 == b
  {
  }

  lemma BootKeepsHeld(b: Broker, id: Id, f: nat -> Fault)
    requires Held(b, id) && !b.up
    ensures Held(Boot(b, f), id)
  {
    BootKeepsInv(b, f);
  }

  lemma ApplyKeepsHeld(b: Broker, id: Id, e: Event)
    requires Held(b, id) && !HealthyResume(e)
    ensures Held(Apply(b, e), id)
  {
    match e
    case Request(request, plan, actor, planned, f) => if b.up { HeldRefuses(b, id, request, plan, actor, planned, f); }
    case Thread(_, _) =>
    case Resumed(_, _, _, _) =>
    case Killed =>
    case Booted(f) => if !b.up { BootKeepsHeld(b, id, f); }
  }

  /** Through requests, deaths, boots and resumes on an unhealthy host a held row stays held. */
  lemma {:induction false} RowStaysHeld(b: Broker, id: Id, events: seq<Event>)
    requires Held(b, id) && forall e | e in events :: !HealthyResume(e)
    ensures Run(b, events).row == Some(id) && Held(Run(b, events), id)
    decreases |events|
  {
    if events != [] {
      assert events[0] in events;
      ApplyKeepsHeld(b, id, events[0]);
      RowStaysHeld(Apply(b, events[0]), id, events[1..]);
    }
  }

  /** The row is taken by the thread alone when it pauses, and freed by the thread after it has said so, or by
      a resume on a healthy host: each time for the job of job.json. */
  lemma RowChangesWhenDue(b: Broker, e: Event)
    requires Inv(b) && Apply(b, e).row != b.row
    ensures b.up && b.job.Some?
    ensures b.row.None? ==> e.Thread? && b.thread.PauseAdmission? && Apply(b, e).row == Some(b.job.value.id)
    ensures b.row.Some? ==> Apply(b, e).row.None? && b.row == Some(b.job.value.id)
    ensures b.row.Some? ==> HealthyResume(e) || (e.Thread? && (b.thread.Unpause? || b.thread.UnpauseBusy?) && b.current.value.admission.Reopening?)
  {
    match e
    case Request(id, plan, actor, planned, f) => if b.up { StartKeepsRow(b, id, plan, actor, planned, f); }
    case Thread(a, f) =>
      if b.up {
        ExecuteKeepsRow(b, a, f);
        if b.thread.PauseAdmission? || b.thread.Unpause? || b.thread.UnpauseBusy? { RowStepChanges(b, a, f); }
      }
    case Resumed(healthy, installs, restarts, f) => if b.up { ResumeFreesRow(b, healthy, installs, restarts, f); }
    case Killed =>
    case Booted(f) => if !b.up { BootAdopts(b, f); }
  }

  lemma RowStepChanges(b: Broker, a: Answer, f: nat -> Fault)
    requires Inv(b) && b.up && Execute(b, a, f).row != b.row
    requires b.thread.PauseAdmission? || b.thread.Unpause? || b.thread.UnpauseBusy?
    ensures b.job.Some? && Execute(b, a, f).row == if b.thread.PauseAdmission? then Some(b.job.value.id) else None
    ensures b.row == if b.thread.PauseAdmission? then None else Some(b.job.value.id)
  {
  }

  lemma StartKeepsRow(b: Broker, id: Id, plan: Id, actor: Id, planned: bool, f: nat -> Fault)
    requires b.up
    ensures Start(b, id, plan, actor, planned, f).0.row == b.row
  {
    var job := Job(id, plan, actor, Checking, Unreported);
    PersistEffect(b, job, true, f(0), f(1));
    var b1 := Persist(b, job, true, f(0), f(1)).0;
    PersistEffect(b1.(job := Some(job.(state := Failed))), job.(state := Failed, admission := Open), false, f(2), f(3));
  }

  lemma SaveStepKeepsRow(b: Broker, state: JobState, admission: Admission, f: nat -> Fault, next: Thread, failed: Admission)
    requires b.job.Some?
    ensures SaveStep(b, state, admission, f, next, failed).row == b.row
  {
    PersistEffect(b, b.job.value.(state := state, admission := admission), false, f(0), f(1));
  }

  lemma ExecuteKeepsRow(b: Broker, a: Answer, f: nat -> Fault)
    requires Inv(b) && b.up
    ensures !b.thread.PauseAdmission? && !b.thread.Unpause? && !b.thread.UnpauseBusy? ==> Execute(b, a, f).row == b.row
  {
    match b.thread
    case ReopenBusy => SaveStepKeepsRow(b, b.job.value.state, Reopening, f, UnpauseBusy, Paused);
    case Reopen => SaveStepKeepsRow(b, b.job.value.state, Reopening, f, Unpause, Paused);
    case SaveBlocked => SaveStepKeepsRow(b, Blocked, Open, f, Idle, Open);
    case FindRelease => SaveStepKeepsRow(b, Downloading, b.job.value.admission, f, Upgrade, Paused);
    case Upgrade => if a.progress.Some? { SaveStepKeepsRow(b, a.progress.value, b.job.value.admission, f, Upgrade, Paused); }
    case SaveSucceeded =>
      PersistEffect(b.(restarting := true), b.job.value.(state := Succeeded, admission := Open), false, f(0), f(1));
    case ReportFailure(admission) =>
      PersistEffect(b, b.job.value.(state := Failed, admission := admission), false, f(0), f(1));
    case _ =>
  }

  lemma ResumeFreesRow(b: Broker, healthy: bool, installs: bool, restarts: bool, f: nat -> Fault)
    requires Inv(b) && b.up
    ensures Resume(b, healthy, installs, restarts, f).row in {b.row, None}
    ensures !healthy || b.job.None? ==> Resume(b, healthy, installs, restarts, f).row == b.row
  {
    if b.job.Some? && !Active(b.job.value.state) && healthy {
      UpdateKeepsRow(b, b.job.value.state, Reopening, f(0), f(1));
      var (b1, o1) := Update(b, b.job.value.state, Reopening, f(0), f(1));
      if o1.Completed? {
        var (b2, o2) := if installs then UnpauseRow(b1, b1.job.value.id, f(2)) else (b1, Raised);
        if !o2.Crashed? {
          GiveUpKeepsRow(b2, Unknown, f);
          UpdateKeepsRow(b2.(restarting := true), Recovered, Open, f(3), f(4));
          var (b3, o3) := Update(b2.(restarting := true), Recovered, Open, f(3), f(4));
          if !o3.Crashed? { GiveUpKeepsRow(b3, Open, f); }
        }
      }
    }
  }

  lemma GiveUpKeepsRow(b: Broker, admission: Admission, f: nat -> Fault)
    requires b.job.Some?
    ensures GiveUp(b, admission, f).row == b.row
  {
    UpdateKeepsRow(b, Failed, admission, f(5), f(6));
  }

  lemma UpdateKeepsRow(b: Broker, state: JobState, admission: Admission, f: Fault, g: Fault)
    requires b.job.Some?
    ensures Update(b, state, admission, f, g).0.row == b.row
    ensures Update(b, state, admission, f, g).1.Crashed? || Update(b, state, admission, f, g).0.job.Some?
  {
    PersistEffect(b, b.job.value.(state := state, admission := admission), false, f, g);
  }

  /** Some file or the memory of the process shows j as recovered. */
  predicate ShowsRecovered(b: Broker, j: Job) {
    j.state.Recovered? && (b.current == Some(j) || (b.up && b.job == Some(j)) || exists id | id in b.records :: b.records[id] == j)
  }

  /** A save shows nothing new but the job that it saves. */
  lemma PersistShows(b: Broker, job: Job, initial: bool, f: Fault, g: Fault, j: Job)
    requires !job.state.Recovered? && ShowsRecovered(Persist(b, job, initial, f, g).0, j)
    ensures ShowsRecovered(b, j)
  {
    var b' := Persist(b, job, initial, f, g).0;
    assert b'.current in {b.current, Some(job)};
    assert b'.records == b.records || b'.records == b.records[job.id := job];
    if id :| id in b'.records && b'.records[id] == j {
      assert id in b.records && b.records[id] == j;
    }
  }

  lemma UpdateShows(b: Broker, state: JobState, admission: Admission, f: Fault, g: Fault, j: Job)
    requires b.job.Some? && !state.Recovered? && ShowsRecovered(Update(b, state, admission, f, g).0, j)
    ensures ShowsRecovered(b, j)
  {
    PersistShows(b, b.job.value.(state := state, admission := admission), false, f, g, j);
  }

  lemma SaveStepShows(b: Broker, state: JobState, admission: Admission, f: nat -> Fault, next: Thread, failed: Admission, j: Job)
    requires b.job.Some? && !state.Recovered? && ShowsRecovered(SaveStep(b, state, admission, f, next, failed), j)
    ensures ShowsRecovered(b, j)
  {
    var b' := Update(b, state, admission, f(0), f(1)).0;
    assert ShowsRecovered(b', j);
    UpdateShows(b, state, admission, f(0), f(1), j);
  }

  lemma FinishStepShows(b: Broker, restarts: bool, f: nat -> Fault, j: Job)
    requires b.job.Some? && ShowsRecovered(FinishStep(b, restarts, f), j)
    ensures ShowsRecovered(b, j)
  {
    var b1 := b.(restarting := true);
    assert ShowsRecovered(Update(b1, Succeeded, Open, f(0), f(1)).0, j);
    UpdateShows(b1, Succeeded, Open, f(0), f(1), j);
    assert ShowsRecovered(b, j);
  }

  lemma ReportStepShows(b: Broker, admission: Admission, f: nat -> Fault, j: Job)
    requires b.job.Some? && ShowsRecovered(ReportStep(b, admission, f), j)
    ensures ShowsRecovered(b, j)
  {
    RecordFailureShows(b, admission, f(0), f(1), j);
  }

  lemma RecordFailureShows(b: Broker, admission: Admission, f: Fault, g: Fault, j: Job)
    requires b.job.Some? && ShowsRecovered(RecordFailure(b, admission, f, g).0, j)
    ensures ShowsRecovered(b, j)
  {
    var b' := Update(b, Failed, admission, f, g).0;
    assert ShowsRecovered(b', j);
    UpdateShows(b, Failed, admission, f, g, j);
  }

  /** Neither file differs, and memory at most in that the process died. */
  predicate SameJobs(b: Broker, b': Broker) {
    b'.current == b.current && b'.records == b.records && (b'.up ==> b.up && b'.job == b.job)
  }

  lemma SameShows(b: Broker, b': Broker, j: Job)
    requires SameJobs(b, b') && ShowsRecovered(b', j)
    ensures ShowsRecovered(b, j)
  {
  }

  /** The steps that only speak to the database. */
  lemma RowStepKeepsJobs(b: Broker, a: Answer, f: nat -> Fault)
    requires b.up && b.job.Some? && (b.thread.PauseAdmission? || b.thread.UnpauseBusy? || b.thread.Unpause?)
    ensures SameJobs(b, Execute(b, a, f))
  {
    if b.thread.PauseAdmission? { PauseKeepsJobs(b, f(0), if a.busy then ReopenBusy else FindRelease); }
    else if b.thread.UnpauseBusy? { UnpauseKeepsJobs(b, f(0), SaveBlocked); }
    else { UnpauseKeepsJobs(b, f(0), SaveSucceeded); }
  }

  lemma PauseKeepsJobs(b: Broker, f: Fault, next: Thread)
    requires b.up && b.job.Some?
    ensures SameJobs(b, PauseStep(b, f, next))
  {
  }

  lemma UnpauseKeepsJobs(b: Broker, f: Fault, next: Thread)
    requires b.up && b.job.Some?
    ensures SameJobs(b, UnpauseStep(b, f, next))
  {
  }

  lemma RowStepShows(b: Broker, a: Answer, f: nat -> Fault, j: Job)
    requires b.up && b.job.Some? && (b.thread.PauseAdmission? || b.thread.UnpauseBusy? || b.thread.Unpause?)
    requires ShowsRecovered(Execute(b, a, f), j)
    ensures ShowsRecovered(b, j)
  {
    RowStepKeepsJobs(b, a, f);
    SameShows(b, Execute(b, a, f), j);
  }

  lemma ReopenShows(b: Broker, a: Answer, f: nat -> Fault, j: Job)
    requires Inv(b) && b.up && (b.thread.ReopenBusy? || b.thread.Reopen? || b.thread.SaveBlocked?)
    requires ShowsRecovered(Execute(b, a, f), j)
    ensures ShowsRecovered(b, j)
  {
    match b.thread
    case ReopenBusy => SaveStepShows(b, b.job.value.state, Reopening, f, UnpauseBusy, Paused, j);
    case Reopen => SaveStepShows(b, b.job.value.state, Reopening, f, Unpause, Paused, j);
    case SaveBlocked => SaveStepShows(b, Blocked, Open, f, Idle, Open, j);
  }

  lemma ProgressShows(b: Broker, a: Answer, f: nat -> Fault, j: Job)
    requires Inv(b) && b.up && (b.thread.FindRelease? || b.thread.Upgrade?) && ShowsRecovered(Execute(b, a, f), j)
    ensures ShowsRecovered(b, j)
  {
    if b.thread.FindRelease? && a.succeeds {
      SaveStepShows(b, Downloading, b.job.value.admission, f, Upgrade, Paused, j);
    } else if b.thread.Upgrade? && a.progress.Some? && Active(a.progress.value) {
      SaveStepShows(b, a.progress.value, b.job.value.admission, f, Upgrade, Paused, j);
    }
  }

  lemma ExecuteShows(b: Broker, a: Answer, f: nat -> Fault, j: Job)
    requires Inv(b) && b.up && ShowsRecovered(Execute(b, a, f), j)
    ensures ShowsRecovered(b, j)
  {
    match b.thread
    case PauseAdmission => RowStepShows(b, a, f, j);
    case UnpauseBusy => RowStepShows(b, a, f, j);
    case Unpause => RowStepShows(b, a, f, j);
    case ReopenBusy => ReopenShows(b, a, f, j);
    case Reopen => ReopenShows(b, a, f, j);
    case SaveBlocked => ReopenShows(b, a, f, j);
    case FindRelease => ProgressShows(b, a, f, j);
    case Upgrade => ProgressShows(b, a, f, j);
    case SaveSucceeded => FinishStepShows(b, a.succeeds, f, j);
    case ReportFailure(admission) => ReportStepShows(b, admission, f, j);
    case _ =>
  }

  lemma StartShows(b: Broker, id: Id, plan: Id, actor: Id, planned: bool, f: nat -> Fault, j: Job)
    requires b.up && ShowsRecovered(Start(b, id, plan, actor, planned, f).0, j)
    ensures ShowsRecovered(b, j)
  {
    var job := Job(id, plan, actor, Checking, Unreported);
    var (b1, o) := Persist(b, job, true, f(0), f(1));
    if Start(b, id, plan, actor, planned, f).0 != b {
      if o.Raised? {
        var b2 := b1.(job := Some(job.(state := Failed)));
        RecordFailureShows(b2, Open, f(2), f(3), j);
        assert ShowsRecovered(b1, j);
      }
      assert ShowsRecovered(b1, j);
      PersistShows(b, job, true, f(0), f(1), j);
    }
  }

  lemma BootShows(b: Broker, f: nat -> Fault, j: Job)
    requires !b.up && ShowsRecovered(Boot(b, f), j)
    ensures ShowsRecovered(b, j)
  {
    var b1 := b.(up := true, job := b.current, restarting := false, thread := Idle);
    if b.current.Some? && Active(b.current.value.state) {
      var b2 := Update(b1, Interrupted, b.current.value.admission, f(0), f(1)).0;
      assert ShowsRecovered(b2, j);
      UpdateShows(b1, Interrupted, b.current.value.admission, f(0), f(1), j);
    }
    assert ShowsRecovered(b1, j);
  }

  lemma ApplyShows(b: Broker, e: Event, j: Job)
    requires Inv(b) && !HealthyResume(e) && ShowsRecovered(Apply(b, e), j)
    ensures ShowsRecovered(b, j)
  {
    match e
    case Request(id, plan, actor, planned, f) => if b.up { StartShows(b, id, plan, actor, planned, f, j); }
    case Thread(answer, f) => if b.up { ExecuteShows(b, answer, f, j); }
    case Resumed(_, _, _, _) =>
    case Killed =>
    case Booted(f) => if !b.up { BootShows(b, f, j); }
  }

  /** Only a resume on a healthy host makes a job recovered. */
  lemma {:induction false} RecoveredNeedsHealth(b: Broker, events: seq<Event>, j: Job)
    requires Inv(b) && (forall e | e in events :: !HealthyResume(e)) && ShowsRecovered(Run(b, events), j)
    ensures ShowsRecovered(b, j)
    decreases |events|
  {
    if events != [] {
      assert events[0] in events;
      ApplyKeepsInv(b, events[0]);
      RecoveredNeedsHealth(Apply(b, events[0]), events[1..], j);
      ApplyShows(b, events[0], j);
    }
  }

  // ---------- what failures leave ----------

  /** The job is on disk twice and in memory, and nothing runs. */
  predicate Stopped(b: Broker, id: Id, state: JobState, admission: Admission) {
    && b.up && b.thread.Idle? && !b.restarting
    && b.job.Some? && b.job.value.id == id && b.job.value.state == state && b.job.value.admission == admission
    && b.current == b.job && id in b.records && b.records[id] == b.job.value
  }

  /** A failure that can be saved is. */
  lemma ReportSettles(b: Broker, a: Answer)
    requires b.up && b.job.Some? && b.thread.ReportFailure?
    ensures var b' := Execute(Execute(b, a, NoFaults), a, NoFaults);
            Stopped(b', b.job.value.id, Failed, b.thread.admission) && b'.row == b.row
  {
  }

  /** A failure that cannot be saved is in memory, where it keeps further upgrades out. */
  lemma UnsavedFailureIsShown(b: Broker, a: Answer, f: nat -> Fault)
    requires b.up && b.job.Some? && b.thread.ReportFailure?
    ensures var b' := Execute(b, a, f);
            b'.up ==> b'.job == Some(b.job.value.(state := Failed, admission := b.thread.admission)) && !MayStart(b')
  {
  }

  /** Once admission is paused: a release that is not found, an upgrade command that fails or a release that
      is not the one installed stop the upgrade as failed, and admission stays paused. */
  lemma FailedUpgradeStaysPaused(b: Broker, a: Answer)
    requires Inv(b) && b.up && (b.thread.FindRelease? || b.thread.Upgrade? || b.thread.Install?)
    requires !a.succeeds && a.progress.None?
    ensures var b' := Steps(b, [a, a, a]);
            Stopped(b', b.job.value.id, Failed, Paused) && b'.row == Some(b.job.value.id)
  {
    var b1 := Execute(b, a, NoFaults);
    assert b1 == b.(thread := ReportFailure(Paused));
    ReportSettles(b1, a);
    ThreeSteps(b, a);
  }

  lemma ThreeSteps(b: Broker, a: Answer)
    ensures Steps(b, [a, a, a])
            == Apply(Apply(Apply(b, Thread(a, NoFaults)), Thread(a, NoFaults)), Thread(a, NoFaults))
  {
    var b1 := Apply(b, Thread(a, NoFaults));
    var b2 := Apply(b1, Thread(a, NoFaults));
    assert [a, a, a] == [a] + [a, a] && [a, a] == [a] + [a] && [a] == [a] + [];
    StepsHead(b, a, [a, a]);
    StepsHead(b1, a, [a]);
    StepsHead(b2, a, []);
  }

  lemma RestartFails(b: Broker, a: Answer)
    requires Inv(b) && b.up && b.thread.SaveSucceeded? && !a.succeeds
    ensures var b' := Execute(b, a, NoFaults);
            && b'.thread == ReportFailure(Open) && b'.up && b'.row.None?
            && b'.job.Some? && b'.job.value.id == b.job.value.id
  {
  }

  /** A service that does not restart leaves the upgrade failed with admission open. */
  lemma FailedRestartIsReported(b: Broker, a: Answer)
    requires Inv(b) && b.up && b.thread.SaveSucceeded? && !a.succeeds
    ensures var b' := Steps(b, [a, a, a]);
            Stopped(b', b.job.value.id, Failed, Open) && b'.row.None?
  {
    var b1 := Execute(b, a, NoFaults);
    RestartFails(b, a);
    ReportSettles(b1, a);
    ThreeSteps(b, a);
  }

  /** A database call of the thread that reports an error leaves unknown whether admission is paused. */
  lemma FailedCallIsUnknown(b: Broker, a: Answer, f: nat -> Fault)
    requires b.up && b.job.Some? && (b.thread.PauseAdmission? || b.thread.UnpauseBusy? || b.thread.Unpause?) && f(0).Raise?
    ensures Execute(b, a, f).thread == ReportFailure(Unknown) && Execute(b, a, f).job == b.job
  {
  }

  /** Without a job, while one is active or on an unhealthy host a resume changes nothing. */
  lemma RefusedResume(b: Broker, healthy: bool, installs: bool, restarts: bool, f: nat -> Fault)
    requires b.up && (b.job.None? || !healthy || b.job.value.state in {Checking, Downloading, Applying, Verifying, Restoring})
    ensures Resume(b, healthy, installs, restarts, f) == b
  {
  }

  /** A resume that cannot install the runner leaves the row as it was, one that cannot restart the service
      has freed it; both leave the job failed. */
  lemma FailedResume(b: Broker, installs: bool)
    requires Inv(b) && b.up && b.thread.Idle? && b.job.Some? && !Active(b.job.value.state)
    ensures var b' := Resume(b, true, installs, false, NoFaults);
            Stopped(b', b.job.value.id, Failed, if installs then Open else Unknown) && b'.row == if installs then None else b.row
  {
  }

  /** A row held by another job is not freed, and what the caller reports is that admission is unknown. */
  lemma ForeignRowIsKept(b: Broker, a: Answer, other: Id)
    requires b.up && b.job.Some? && b.row == Some(other) && other != b.job.value.id
    ensures b.thread.UnpauseBusy? || b.thread.Unpause? ==> Execute(b, a, NoFaults) == b.(thread := ReportFailure(Unknown))
    ensures !Active(b.job.value.state) ==>
              var b' := Resume(b, true, true, true, NoFaults);
              b'.row == b.row && b'.job == Some(b.job.value.(state := Failed, admission := Unknown))
  {
  }

  /** Until the service has restarted after a resume no request is accepted. */
  lemma ResumedAwaitsRestart(b: Broker, id: Id, plan: Id, actor: Id, planned: bool, f: nat -> Fault)
    requires b.up && b.job.Some? && !Active(b.job.value.state) && (b.row.None? || b.row == Some(b.job.value.id))
    ensures var b' := Resume(b, true, true, true, NoFaults);
            b'.restarting && (Known(b', id).None? ==> Start(b', id, plan, actor, planned, f) == (b', Refused))
  {
  }

  /** A new process takes over the job of job.json; one that was active is interrupted, and the row is untouched. */
  lemma BootAdopts(b: Broker, f: nat -> Fault)
    requires !b.up
    ensures var b' := Boot(b, f);
            && b'.row == b.row && b'.thread.Idle? && !b'.restarting
            && (b'.up ==> b'.job == b'.current)
            && (b'.up && b.current.Some? && b.current.value.state in {Checking, Downloading, Applying, Verifying, Restoring} ==>
                  b'.current == Some(b.current.value.(state := Interrupted))
                  && b'.records == b.records[b.current.value.id := b'.current.value])
            && (b.current.None? || b.current.value.state !in {Checking, Downloading, Applying, Verifying, Restoring} ==>
                  b'.current == b.current && b'.records == b.records)
            && (f(0).Ok? && f(1).Ok? ==> b'.up)
  {
  }
}
