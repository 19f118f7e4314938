/** The thread of an upgrade on its own, nothing else happening meanwhile: what it meets
    on its way, and what each of its actions comes to. */
module UpgradeThread {
  import opened Options
  import opened UpgradeBroker

  /** What execute meets on its way when nothing else happens meanwhile; `progress` are the
      states that the lines of the command name. */
  datatype World = World(busy: bool, found: bool, progress: seq<JobState>, upgraded: bool, installed: bool, restarts: bool)

  /** The answer to its `i`-th action. */
  function AnswerAt(w: World, i: nat): Answer {
    var n := |w.progress|;
    Answer(w.busy, if i == 1 then w.found else if i == 2 + n then w.upgraded else if i == 3 + n then w.installed else w.restarts,
           if 2 <= i < 2 + n then Some(w.progress[i - 2]) else None)
  }

  function Step(b: Broker, a: Answer, f: nat -> Fault): Broker {
    if b.up && (!b.thread.Idle? ==> b.job.Some?) then Execute(b, a, f) else b
  }

  /** The `i`-th action of the thread. */
  function Acting(w: World, f: nat -> nat -> Fault): (Broker, nat) -> Broker {
    (b, i: nat) => Step(b, AnswerAt(w, i), f(i))
  }

  /** The first `n` actions. */
  function Steps(b: Broker, act: (Broker, nat) -> Broker, n: nat): Broker {
    if n == 0 then b else act(Steps(b, act, n - 1), n - 1)
  }

  /** `act` stands for the actions; it is only looked into where one is taken. */
  ghost predicate Acts(act: (Broker, nat) -> Broker, w: World, f: nat -> nat -> Fault) {
    forall b, i: nat {:trigger Step(b, AnswerAt(w, i), f(i))} :: act(b, i) == Step(b, AnswerAt(w, i), f(i))
  }

  /** A save of the thread: what it writes, and where the thread goes after it. */
  datatype Saving = Saving(state: JobState, admission: Admission, next: Thread, failed: Admission)

  function SaveAt(at: Thread, a: Answer, job: Job): Option<Saving> {
    match at
    case ReopenBusy => Some(Saving(job.state, Reopening, UnpauseBusy, Paused))
    case SaveBlocked => Some(Saving(Blocked, Open, Idle, Open))
    case FindRelease => if a.succeeds then Some(Saving(Downloading, job.admission, Upgrade, Paused)) else None
    case Upgrade =>
      if a.progress.Some? && Active(a.progress.value) then Some(Saving(a.progress.value, job.admission, Upgrade, Paused)) else None
    case Reopen => Some(Saving(job.state, Reopening, Unpause, Paused))
    case _ => None
  }

  lemma SaveIsStep(b: Broker, a: Answer, f: nat -> Fault)
    requires b.up && b.job.Some? && SaveAt(b.thread, a, b.job.value).Some?
    ensures var s := SaveAt(b.thread, a, b.job.value).value;
            Step(b, a, f) == SaveStep(b, s.state, s.admission, f, s.next, s.failed)
  {
  }

  /** A save comes to the same whatever step the thread is recorded at. */
  lemma UpdateAnywhere(b: Broker, t: Thread, state: JobState, admission: Admission, f: Fault, g: Fault)
    requires b.job.Some?
    ensures Update(b.(thread := t), state, admission, f, g).1 == Update(b, state, admission, f, g).1
    ensures var (b', o) := Update(b, state, admission, f, g);
            Update(b.(thread := t), state, admission, f, g).0 == if o.Crashed? then b' else b'.(thread := t)
  {
  }

  lemma Saved(b: Broker, at: Thread, state: JobState, admission: Admission, f: nat -> Fault, next: Thread, failed: Admission)
    requires b.job.Some?
    ensures var (b', o) := Update(b, state, admission, f(0), f(1));
            After(b', o, next, failed) == SaveStep(b.(thread := at), state, admission, f, next, failed)
  {
    UpdateAnywhere(b, at, state, admission, f(0), f(1));
  }

  lemma Freed(b: Broker, at: Thread, f: Fault, next: Thread)
    requires b.job.Some?
    ensures var (b', o) := UnpauseRow(b, b.job.value.id, f);
            After(b', o, next, Unknown) == UnpauseStep(b.(thread := at), f, next)
  {
    var id := b.job.value.id;
    var (b', o) := UnpauseRow(b, id, f);
    assert UnpauseRow(b.(thread := at), id, f) == (if o.Crashed? then b' else b'.(thread := at), o);
  }

  lemma Finished(b: Broker, at: Thread, restarts: bool, f: nat -> Fault)
    requires b.job.Some?
    ensures var (b', o) := Update(b.(restarting := true), Succeeded, Open, f(0), f(1));
            After(b', if o.Completed? && !restarts then Raised else o, Idle, Open) == FinishStep(b.(thread := at), restarts, f)
  {
    UpdateAnywhere(b.(restarting := true), at, Succeeded, Open, f(0), f(1));
  }

  lemma Reported(b: Broker, at: Thread, admission: Admission, f: nat -> Fault)
    requires b.job.Some?
    ensures var (b', o) := RecordFailure(b, admission, f(0), f(1));
            (if o.Crashed? then b' else b'.(thread := ClearRestarting)) == ReportStep(b.(thread := at), admission, f)
  {
    UpdateAnywhere(b, at, Failed, admission, f(0), f(1));
  }

  lemma Reporting(act: (Broker, nat) -> Broker, w: World, f: nat -> nat -> Fault, b: Broker, admission: Admission, n: nat)
    requires b.up && b.job.Some? && Acts(act, w, f)
    ensures var (b', o) := RecordFailure(b, admission, f(n)(0), f(n)(1));
            && act(b.(thread := ReportFailure(admission)), n) == (if o.Crashed? then b' else b'.(thread := ClearRestarting))
            && (if o.Crashed? then b'.thread.Idle? else b'.up && b'.job.Some?)
  {
    var at := b.(thread := ReportFailure(admission));
    assert act(at, n) == Step(at, AnswerAt(w, n), f(n)) == ReportStep(at, admission, f(n));
    Reported(b, ReportFailure(admission), admission, f(n));
  }

  /** Where the thread goes without a save or a call of the database. */
  lemma PassesOn(act: (Broker, nat) -> Broker, w: World, f: nat -> nat -> Fault, b: Broker, n: nat)
    requires b.up && b.job.Some? && Acts(act, w, f)
    ensures var a := AnswerAt(w, n);
            && (b.thread.FindRelease? && !a.succeeds ==> act(b, n) == b.(thread := ReportFailure(Paused)))
            && (b.thread.Upgrade? && a.progress.None?
                ==> act(b, n) == b.(thread := if a.succeeds then Install else ReportFailure(Paused)))
            && (b.thread.Install? ==> act(b, n) == b.(thread := if a.succeeds then Reopen else ReportFailure(Paused)))
            && (b.thread.ClearRestarting? ==> act(b, n) == b.(restarting := false, thread := Idle))
  {
    assert act(b, n) == Step(b, AnswerAt(w, n), f(n));
  }

  lemma Pausing(act: (Broker, nat) -> Broker, w: World, f: nat -> nat -> Fault, b: Broker)
    requires b.up && b.job.Some? && b.thread.PauseAdmission? && Acts(act, w, f)
    ensures var (b', o) := PauseRow(b, b.job.value.id, f(0)(0));
            act(b, 0) == After(b', o, if w.busy then ReopenBusy else FindRelease, Unknown)
  {
    assert act(b, 0) == Step(b, AnswerAt(w, 0), f(0));
  }

  /** A sequence of actions of the thread is a run of the broker. */
  lemma {:induction false} StepsAreARun(b: Broker, w: World, f: nat -> nat -> Fault, n: nat)
    ensures Steps(b, Acting(w, f), n) == Run(b, seq(n, i requires 0 <= i < n => Event.Thread(AnswerAt(w, i), f(i))))
  {
    if n > 0 {
      var events := seq(n, i requires 0 <= i < n => Event.Thread(AnswerAt(w, i), f(i)));
      StepsAreARun(b, w, f, n - 1);
      var before := Steps(b, Acting(w, f), n - 1);
      var last := Event.Thread(AnswerAt(w, n - 1), f(n - 1));
      assert events[n - 1] == last;
      assert Acting(w, f)(before, n - 1) == Step(before, AnswerAt(w, n - 1), f(n - 1));
      assert Apply(before, last) == Step(before, AnswerAt(w, n - 1), f(n - 1));
      assert events == events[..n - 1] + [events[n - 1]];
      RunThenOne(b, events[..n - 1], events[n - 1]);
      assert events[..n - 1] == seq(n - 1, i requires 0 <= i < n - 1 => Event.Thread(AnswerAt(w, i), f(i)));
    }
  }

  lemma {:induction false} RunThenOne(b: Broker, events: seq<Event>, e: Event)
    ensures Run(b, events + [e]) == Apply(Run(b, events), e)
    decreases |events|
  {
    if events == [] {
      assert [e][1..] == [] && Run(Apply(b, e), []) == Apply(b, e);
    } else {
      assert (events + [e])[1..] == events[1..] + [e];
      RunThenOne(Apply(b, events[0]), events[1..], e);
    }
  }
}
