/** In which order the upgrade broker writes job.json and the records of the jobs, and what can therefore be found again. */
module UpgradeRecords {
  import opened Options
  import opened UpgradeBroker
  import opened UpgradeRefusals

  /** A job that job.json shows as no longer active has a record of its own. */
  predicate SettledIsRecorded(b: Broker) {
    b.current.Some? && !Active(b.current.value.state) ==> b.current.value.id in b.records
  }

  lemma PersistRecords(b: Broker, job: Job, initial: bool, f: Fault, g: Fault)
    requires SettledIsRecorded(b) && (initial ==> Active(job.state))
    ensures SettledIsRecorded(Persist(b, job, initial, f, g).0)
    ensures var b' := Persist(b, job, initial, f, g).0;
            !initial && b'.current != b.current ==> job.id in b'.records && b'.records[job.id] == job
  {
  }

  lemma UpdateRecords(b: Broker, state: JobState, admission: Admission, f: Fault, g: Fault)
    requires b.job.Some? && SettledIsRecorded(b)
    ensures SettledIsRecorded(Update(b, state, admission, f, g).0)
    ensures var b' := Update(b, state, admission, f, g).0;
            b'.current != b.current ==> var id := b.job.value.id; id in b'.records && b'.current == Some(b'.records[id])
  {
    PersistRecords(b, b.job.value.(state := state, admission := admission), false, f, g);
  }

  lemma SameRecords(b: Broker, b': Broker)
    requires SettledIsRecorded(b) && b'.current == b.current && b'.records == b.records
    ensures SettledIsRecorded(b')
  {
  }

  lemma FailureRecords(b: Broker, admission: Admission, f: Fault, g: Fault)
    requires b.job.Some? && SettledIsRecorded(b)
    ensures SettledIsRecorded(RecordFailure(b, admission, f, g).0)
  {
    UpdateRecords(b, Failed, admission, f, g);
    SameRecords(Update(b, Failed, admission, f, g).0, RecordFailure(b, admission, f, g).0);
  }

  /** What is put into job.json has been put into the record of the job before. */
  predicate RecordedFirst(b: Broker, b': Broker) {
    && SettledIsRecorded(b')
    && (b'.current != b.current ==>
          b'.current.Some? && b'.current.value.id in b'.records && b'.records[b'.current.value.id] == b'.current.value)
  }

  lemma SameRecordedFirst(b: Broker, b1: Broker, b2: Broker)
    requires RecordedFirst(b, b1) && b2.current == b1.current && b2.records == b1.records
    ensures RecordedFirst(b, b2)
  {
  }

  lemma UpdateRecordsFirst(b: Broker, state: JobState, admission: Admission, f: Fault, g: Fault)
    requires b.job.Some? && SettledIsRecorded(b)
    ensures RecordedFirst(b, Update(b, state, admission, f, g).0)
  {
    PersistRecords(b, b.job.value.(state := state, admission := admission), false, f, g);
  }

  lemma SaveStepRecords(b: Broker, state: JobState, admission: Admission, f: nat -> Fault, next: Thread, failed: Admission)
    requires b.job.Some? && SettledIsRecorded(b)
    ensures RecordedFirst(b, SaveStep(b, state, admission, f, next, failed))
  {
    UpdateRecordsFirst(b, state, admission, f(0), f(1));
    SameRecordedFirst(b, Update(b, state, admission, f(0), f(1)).0, SaveStep(b, state, admission, f, next, failed));
  }

  lemma FinishStepRecords(b: Broker, restarts: bool, f: nat -> Fault)
    requires b.job.Some? && SettledIsRecorded(b)
    ensures RecordedFirst(b, FinishStep(b, restarts, f))
  {
    var b1 := b.(restarting := true);
    UpdateRecordsFirst(b1, Succeeded, Open, f(0), f(1));
    SameRecordedFirst(b1, Update(b1, Succeeded, Open, f(0), f(1)).0, FinishStep(b, restarts, f));
  }

  lemma ReportStepRecords(b: Broker, admission: Admission, f: nat -> Fault)
    requires b.job.Some? && SettledIsRecorded(b)
    ensures RecordedFirst(b, ReportStep(b, admission, f))
  {
    UpdateRecordsFirst(b, Failed, admission, f(0), f(1));
    SameRecordedFirst(b, Update(b, Failed, admission, f(0), f(1)).0, ReportStep(b, admission, f));
  }

  lemma RowStepRecords(b: Broker, a: Answer, f: nat -> Fault)
    requires b.up && b.job.Some? && (b.thread.PauseAdmission? || b.thread.UnpauseBusy? || b.thread.Unpause?)
    requires SettledIsRecorded(b)
    ensures RecordedFirst(b, Execute(b, a, f))
  {
    RowStepKeepsJobs(b, a, f);
  }

  /** The thread writes the record of its job before job.json, whatever state it saves. */
  lemma ThreadRecordsFirst(b: Broker, a: Answer, f: nat -> Fault)
    requires b.up && (!b.thread.Idle? ==> b.job.Some?) && SettledIsRecorded(b)
    ensures RecordedFirst(b, Execute(b, a, f))
  {
    match b.thread
    case PauseAdmission => RowStepRecords(b, a, f);
    case UnpauseBusy => RowStepRecords(b, a, f);
    case Unpause => RowStepRecords(b, a, f);
    case ReopenBusy => SaveStepRecords(b, b.job.value.state, Reopening, f, UnpauseBusy, Paused);
    case Reopen => SaveStepRecords(b, b.job.value.state, Reopening, f, Unpause, Paused);
    case SaveBlocked => SaveStepRecords(b, Blocked, Open, f, Idle, Open);
    case FindRelease => SaveStepRecords(b, Downloading, b.job.value.admission, f, Upgrade, Paused);
    case Upgrade => if a.progress.Some? { SaveStepRecords(b, a.progress.value, b.job.value.admission, f, Upgrade, Paused); }
    case SaveSucceeded => FinishStepRecords(b, a.succeeds, f);
    case ReportFailure(admission) => ReportStepRecords(b, admission, f);
    case _ =>
  }

  lemma StartRecords(b: Broker, id: Id, plan: Id, actor: Id, planned: bool, f: nat -> Fault)
    requires b.up && SettledIsRecorded(b)
    ensures SettledIsRecorded(Start(b, id, plan, actor, planned, f).0)
  {
    var job := Job(id, plan, actor, Checking, Unreported);
    PersistRecords(b, job, true, f(0), f(1));
    var (b1, o) := Persist(b, job, true, f(0), f(1));
    if o.Raised? { FailureRecords(b1.(job := Some(job.(state := Failed))), Open, f(2), f(3)); }
  }

  lemma ResumeRecords(b: Broker, healthy: bool, installs: bool, restarts: bool, f: nat -> Fault)
    requires b.up && SettledIsRecorded(b)
    ensures SettledIsRecorded(Resume(b, healthy, installs, restarts, f))
  {
    if b.job.Some? && !Active(b.job.value.state) && healthy {
      UpdateKeepsRow(b, b.job.value.state, Reopening, f(0), f(1));
      UpdateRecords(b, b.job.value.state, Reopening, f(0), f(1));
      var (b1, o1) := Update(b, b.job.value.state, Reopening, f(0), f(1));
      if o1.Completed? {
        var (b2, o2) := if installs then UnpauseRow(b1, b1.job.value.id, f(2)) else (b1, Raised);
        SameRecords(b1, b2);
        if !o2.Crashed? { SecondHalfRecords(b2, f); }
      }
    }
  }

  lemma SecondHalfRecords(b: Broker, f: nat -> Fault)
    requires b.job.Some? && SettledIsRecorded(b)
    ensures SettledIsRecorded(GiveUp(b, Unknown, f))
    ensures var (b', o) := Update(b.(restarting := true), Recovered, Open, f(3), f(4));
            SettledIsRecorded(b') && (!o.Crashed? ==> b'.job.Some? && SettledIsRecorded(GiveUp(b', Open, f)))
  {
    FailureRecords(b, Unknown, f(5), f(6));
    UpdateRecords(b.(restarting := true), Recovered, Open, f(3), f(4));
    UpdateKeepsRow(b.(restarting := true), Recovered, Open, f(3), f(4));
    var (b', o) := Update(b.(restarting := true), Recovered, Open, f(3), f(4));
    if !o.Crashed? { FailureRecords(b', Open, f(5), f(6)); }
  }

  lemma BootRecords(b: Broker, f: nat -> Fault)
    requires !b.up && SettledIsRecorded(b)
    ensures SettledIsRecorded(Boot(b, f))
  {
    var b1 := b.(up := true, job := b.current, restarting := false, thread := Idle);
    if b.current.Some? { UpdateRecords(b1, Interrupted, b.current.value.admission, f(0), f(1)); }
  }

  lemma ApplyRecords(b: Broker, e: Event)
    requires SettledIsRecorded(b)
    ensures SettledIsRecorded(Apply(b, e))
  {
    match e
    case Request(id, plan, actor, planned, f) => if b.up { StartRecords(b, id, plan, actor, planned, f); }
    case Thread(a, f) => if b.up && (!b.thread.Idle? ==> b.job.Some?) { ThreadRecordsFirst(b, a, f); }
    case Resumed(healthy, installs, restarts, f) => if b.up { ResumeRecords(b, healthy, installs, restarts, f); }
    case Killed =>
    case Booted(f) => if !b.up { BootRecords(b, f); }
  }

  /** Over every run: as the record of a job is written before job.json whenever its state changes, a job that job.json
      shows as no longer active can be found again by its identifier. */
  lemma {:induction false} SettledStaysRecorded(b: Broker, events: seq<Event>)
    requires SettledIsRecorded(b)
    ensures SettledIsRecorded(Run(b, events))
    decreases |events|
  {
    if events != [] {
      ApplyRecords(b, events[0]);
      SettledStaysRecorded(Apply(b, events[0]), events[1..]);
    }
  }
}
