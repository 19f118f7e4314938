/** The runner in its own form: an object whose methods reassign the current job, the
    files and the admission row, leaving early when a save or a call goes wrong.
    Each method is proved to do exactly what UpgradeBroker says. */
module UpgradeRunner {
  import opened Options
  import opened UpgradeBroker
  import opened UpgradeThread

  class Runner {
    var row: Option<Id>
    var current: Option<Job>
    var records: map<Id, Job>
    var up: bool
    var job: Option<Job>
    var restarting: bool
    var thread: Thread
    ghost var launches: map<Id, nat>

    ghost function State(): Broker
      reads this
    {
      Broker(row, current, records, up, job, restarting, thread, launches)
    }

    constructor ()
      ensures State() == FRESH
    {
      row, current, records, up, job, restarting, thread := None, None, map[], false, None, false, Idle;
      launches := map[];
    }

    method Die()
      modifies this
      ensures State() == Dead(old(State()))
    {
      up, job, restarting, thread := false, None, false, Idle;
    }

    method Save(file: File, value: Job, f: Fault) returns (o: Outcome)
      modifies this
      ensures (State(), o) == UpgradeBroker.Save(old(State()), file, value, f)
    {
      if Takes(f) {
        match file
        case Current => current := Some(value);
        case Record => records := records[value.id := value];
      }
      o := OutcomeOf(f);
      if o.Crashed? { Die(); }
    }

    method Persist(value: Job, initial: bool, f: Fault, g: Fault) returns (o: Outcome)
      modifies this
      ensures (State(), o) == UpgradeBroker.Persist(old(State()), value, initial, f, g)
    {
      var paths, faults := if initial then [Current, Record] else [Record, Current], [f, g];
      o := Completed;
      ghost var b := State();
      for i := 0 to |paths|
        invariant o.Completed?
        invariant i == 0 ==> State() == b
        invariant i == 1 ==> (State(), o) == UpgradeBroker.Save(b, paths[0], value, f)
        invariant i == 2 ==> var (b1, _) := UpgradeBroker.Save(b, paths[0], value, f);
                             (State(), o) == UpgradeBroker.Save(b1, paths[1], value, g)
                             && UpgradeBroker.Save(b, paths[0], value, f).1.Completed?
      {
        o := Save(paths[i], value, faults[i]);
        if !o.Completed? { return; }
      }
      job := Some(value);
    }

    method Update(state: JobState, admission: Admission, f: Fault, g: Fault) returns (o: Outcome)
      requires job.Some?
      modifies this
      ensures (State(), o) == UpgradeBroker.Update(old(State()), state, admission, f, g)
    {
      o := Persist(job.value.(state := state, admission := admission), false, f, g);
    }

    method RecordFailure(admission: Admission, f: Fault, g: Fault) returns (o: Outcome)
      requires job.Some?
      modifies this
      ensures (State(), o) == UpgradeBroker.RecordFailure(old(State()), admission, f, g)
    {
      var before := job.value;
      o := Update(Failed, admission, f, g);
      if o.Raised? {
        job := Some(before.(state := Failed, admission := admission));
        o := Completed;
      }
    }

    method PauseRow(id: Id, f: Fault) returns (o: Outcome)
      modifies this
      ensures (State(), o) == UpgradeBroker.PauseRow(old(State()), id, f)
    {
      if row.Some? && !f.Crash? { return Raised; }
      if Takes(f) && row.None? { row := Some(id); }
      o := OutcomeOf(f);
      if o.Crashed? { Die(); }
    }

    method UnpauseRow(id: Id, f: Fault) returns (o: Outcome)
      modifies this
      ensures (State(), o) == UpgradeBroker.UnpauseRow(old(State()), id, f)
    {
      var foreign := row.Some? && row.value != id;
      if foreign && !f.Crash? { return Raised; }
      if Takes(f) && !foreign { row := None; }
      o := OutcomeOf(f);
      if o.Crashed? { Die(); }
    }

    method Start(id: Id, plan: Id, actor: Id, planned: bool, f: nat -> Fault) returns (reply: Reply)
      requires up
      modifies this
      ensures (State(), reply) == UpgradeBroker.Start(old(State()), id, plan, actor, planned, f)
    {
      var previous := if job.Some? && job.value.id == id then job
                      else if id in records then Some(records[id]) else None;
      if previous.Some? {
        if previous.value.plan != plan || previous.value.actor != actor { return Conflict; }
        return Existing(previous.value);
      }
      if restarting || (job.Some? && !Final(job.value.state)) { return Refused; }
      if !planned { return Refused; }
      var request := Job(id, plan, actor, Checking, Unreported);
      var o := Persist(request, true, f(0), f(1));
      match o
      case Crashed => reply := Lost;
      case Raised =>
        job := Some(request.(state := Failed));
        o := RecordFailure(Open, f(2), f(3));
        reply := if o.Crashed? then Lost else Unsaved;
      case Completed =>
        thread, launches := PauseAdmission, launches[id := Count(launches, id) + 1];
        reply := UpgradeBroker.Reply.Launched(request);
    }

    /** Where the thread goes after a call or a save: on, to the except clause, or nowhere. */
    method Proceed(o: Outcome, next: Thread, failed: Admission)
      modifies this`thread
      ensures State() == After(old(State()), o, next, failed)
    {
      match o
      case Completed => thread := next;
      case Raised => thread := ReportFailure(failed);
      case Crashed =>
    }

    /** The next step of execute. */
    method Execute(a: Answer, f: nat -> Fault)
      requires up && (!thread.Idle? ==> job.Some?)
      modifies this
      ensures State() == UpgradeBroker.Execute(old(State()), a, f)
    {
      match thread
      case Idle =>
      case PauseAdmission =>
        var o := PauseRow(job.value.id, f(0));
        Proceed(o, if a.busy then ReopenBusy else FindRelease, Unknown);
      case ReopenBusy =>
        var o := Update(job.value.state, Reopening, f(0), f(1));
        Proceed(o, UnpauseBusy, Paused);
      case UnpauseBusy =>
        var o := UnpauseRow(job.value.id, f(0));
        Proceed(o, SaveBlocked, Unknown);
      case SaveBlocked =>
        var o := Update(Blocked, Open, f(0), f(1));
        Proceed(o, Idle, Open);
      case FindRelease =>
        if a.succeeds {
          var o := Update(Downloading, job.value.admission, f(0), f(1));
          Proceed(o, Upgrade, Paused);
        } else {
          thread := ReportFailure(Paused);
        }
      case Upgrade =>
        if a.progress.Some? && Active(a.progress.value) {
          var o := Update(a.progress.value, job.value.admission, f(0), f(1));
          Proceed(o, Upgrade, Paused);
        } else {
          thread := if a.succeeds then Install else ReportFailure(Paused);
        }
      case Install => thread := if a.succeeds then Reopen else ReportFailure(Paused);
      case Reopen =>
        var o := Update(job.value.state, Reopening, f(0), f(1));
        Proceed(o, Unpause, Paused);
      case Unpause =>
        var o := UnpauseRow(job.value.id, f(0));
        Proceed(o, SaveSucceeded, Unknown);
      case SaveSucceeded =>
        restarting := true;
        var o := Update(Succeeded, Open, f(0), f(1));
        Proceed(if o.Completed? && !a.succeeds then Raised else o, Idle, Open);
      case ReportFailure(admission) =>
        var o := RecordFailure(admission, f(0), f(1));
        if !o.Crashed? { thread := ClearRestarting; }
      case ClearRestarting =>
        restarting, thread := false, Idle;
    }

    // ---------- execute as it is written ----------

    /** The save that the thread has to make at `at`. */
    method SaveNext(ghost at: Thread, ghost to: Saving, state: JobState, admission: Admission,
                    w: World, f: nat -> nat -> Fault, n: nat, ghost act: (Broker, nat) -> Broker) returns (o: Outcome)
      requires up && job.Some? && Acts(act, w, f)
      requires SaveAt(at, AnswerAt(w, n), job.value) == Some(to) && state == to.state && admission == to.admission
      modifies this
      ensures After(State(), o, to.next, to.failed) == act(old(State()).(thread := at), n)
      ensures if o.Crashed? then thread.Idle? else up && job.Some?
    {
      ghost var b := State();
      o := Update(state, admission, f(n)(0), f(n)(1));
      SaveIsStep(b.(thread := at), AnswerAt(w, n), f(n));
      Saved(b, at, state, admission, f(n), to.next, to.failed);
    }

    method FreeNext(ghost at: Thread, ghost next: Thread, w: World, f: nat -> nat -> Fault, n: nat,
                    ghost act: (Broker, nat) -> Broker) returns (o: Outcome)
      requires up && job.Some? && Acts(act, w, f)
      requires (at.UnpauseBusy? && next == SaveBlocked) || (at.Unpause? && next == SaveSucceeded)
      modifies this
      ensures After(State(), o, next, Unknown) == act(old(State()).(thread := at), n)
      ensures if o.Crashed? then thread.Idle? else up && job.Some?
    {
      ghost var b := State();
      o := UnpauseRow(job.value.id, f(n)(0));
      Freed(b, at, f(n)(0), next);
      assert act(b.(thread := at), n) == Step(b.(thread := at), AnswerAt(w, n), f(n));
    }

    method FinishNext(w: World, f: nat -> nat -> Fault, n: nat, ghost act: (Broker, nat) -> Broker) returns (o: Outcome)
      requires up && job.Some? && Acts(act, w, f) && AnswerAt(w, n).succeeds == w.restarts
      modifies this
      ensures After(State(), o, Idle, Open) == act(old(State()).(thread := SaveSucceeded), n)
      ensures if o.Crashed? then thread.Idle? else up && job.Some?
    {
      ghost var b := State();
      restarting := true;
      o := Update(Succeeded, Open, f(n)(0), f(n)(1));
      if o.Completed? && !w.restarts { o := Raised; }
      Finished(b, SaveSucceeded, w.restarts, f(n));
      assert act(b.(thread := SaveSucceeded), n) == Step(b.(thread := SaveSucceeded), AnswerAt(w, n), f(n));
    }

    /** With work pending the row is freed again and the upgrade blocked. */
    method Block(w: World, f: nat -> nat -> Fault, ghost act: (Broker, nat) -> Broker, ghost start: Broker)
      returns (o: Outcome, admission: Admission, n: nat)
      requires up && job.Some? && Acts(act, w, f) && State().(thread := ReopenBusy) == Steps(start, act, 1)
      modifies this
      ensures After(State(), o, Idle, admission) == Steps(start, act, n)
      ensures if o.Crashed? then thread.Idle? else up && job.Some?
    {
      admission, n := Paused, 2;
      o := SaveNext(ReopenBusy, Saving(job.value.state, Reopening, UnpauseBusy, Paused), job.value.state, Reopening, w, f, 1, act);
      assert After(State(), o, UnpauseBusy, Paused) == Steps(start, act, 2);
      if !o.Completed? { return; }
      admission, n := Unknown, 3;
      o := FreeNext(UnpauseBusy, SaveBlocked, w, f, 2, act);
      assert After(State(), o, SaveBlocked, Unknown) == Steps(start, act, 3);
      if !o.Completed? { return; }
      admission, n := Open, 4;
      o := SaveNext(SaveBlocked, Saving(Blocked, Open, Idle, Open), Blocked, Open, w, f, 3, act);
    }

    /** The row is freed, the success saved and the service restarted. */
    method Settle(w: World, f: nat -> nat -> Fault, m: nat, ghost act: (Broker, nat) -> Broker, ghost start: Broker)
      returns (o: Outcome, admission: Admission, n: nat)
      requires m == |w.progress| + 4 && Acts(act, w, f)
      requires up && job.Some? && State().(thread := Reopen) == Steps(start, act, m)
      modifies this
      ensures After(State(), o, Idle, admission) == Steps(start, act, n)
      ensures if o.Crashed? then thread.Idle? else up && job.Some?
    {
      admission, n := Paused, m + 1;
      o := SaveNext(Reopen, Saving(job.value.state, Reopening, Unpause, Paused), job.value.state, Reopening, w, f, m, act);
      assert After(State(), o, Unpause, Paused) == Steps(start, act, m + 1);
      if !o.Completed? { return; }
      admission, n := Unknown, m + 2;
      o := FreeNext(Unpause, SaveSucceeded, w, f, m + 1, act);
      assert After(State(), o, SaveSucceeded, Unknown) == Steps(start, act, m + 2);
      if !o.Completed? { return; }
      admission, n := Open, m + 3;
      o := FinishNext(w, f, m + 2, act);
    }

    /** The progress lines are saved as they come. */
    method Follow(w: World, f: nat -> nat -> Fault, ghost act: (Broker, nat) -> Broker, ghost start: Broker)
      returns (o: Outcome, n: nat)
      requires up && job.Some? && Acts(act, w, f) && forall s | s in w.progress :: Active(s)
      requires State().(thread := Upgrade) == Steps(start, act, 2)
      modifies this
      ensures After(State(), o, Upgrade, Paused) == Steps(start, act, n)
      ensures if o.Crashed? then thread.Idle? else up && job.Some?
      ensures o.Completed? ==> n == |w.progress| + 2
    {
      o, n := Completed, 2;
      for i := 0 to |w.progress|
        invariant n == i + 2 && up && job.Some? && o.Completed?
        invariant State().(thread := Upgrade) == Steps(start, act, n)
      {
        assert w.progress[i] in w.progress;
        var s := w.progress[i];
        o := SaveNext(Upgrade, Saving(s, job.value.admission, Upgrade, Paused), s, job.value.admission, w, f, n, act);
        n := n + 1;
        assert After(State(), o, Upgrade, Paused) == Steps(start, act, n);
        if !o.Completed? { return; }
      }
    }

    /** The body of the try statement: how it ends, what was then known of admission, and after
        how many actions. */
    method Attempt(w: World, f: nat -> nat -> Fault, ghost act: (Broker, nat) -> Broker)
      returns (o: Outcome, admission: Admission, n: nat)
      requires up && job.Some? && thread.PauseAdmission? && Acts(act, w, f)
      requires forall s | s in w.progress :: Active(s)
      modifies this
      ensures After(State(), o, Idle, admission) == Steps(old(State()), act, n)
      ensures if o.Crashed? then thread.Idle? else up && job.Some?
    {
      ghost var start := State();
      Pausing(act, w, f, start);
      admission, n := Unknown, 1;
      o := PauseRow(job.value.id, f(0)(0));
      assert After(State(), o, if w.busy then ReopenBusy else FindRelease, Unknown) == Steps(start, act, 1);
      if !o.Completed? { return; }
      if w.busy {
        o, admission, n := Block(w, f, act, start);
        return;
      }
      admission := Paused;
      o, n := Download(w, f, act, start);
      if !o.Completed? { return; }
      o, admission, n := Settle(w, f, n, act, start);
    }

    /** The release is found, downloaded and installed. */
    method Download(w: World, f: nat -> nat -> Fault, ghost act: (Broker, nat) -> Broker, ghost start: Broker)
      returns (o: Outcome, n: nat)
      requires up && job.Some? && Acts(act, w, f) && forall s | s in w.progress :: Active(s)
      requires State().(thread := FindRelease) == Steps(start, act, 1)
      modifies this
      ensures After(State(), o, Reopen, Paused) == Steps(start, act, n)
      ensures if o.Crashed? then thread.Idle? else up && job.Some?
      ensures o.Completed? ==> n == |w.progress| + 4
    {
      if !w.found {
        PassesOn(act, w, f, State().(thread := FindRelease), 1);
        return Raised, 2;
      }
      n := 2;
      o := SaveNext(FindRelease, Saving(Downloading, job.value.admission, Upgrade, Paused), Downloading, job.value.admission, w, f, 1, act);
      assert After(State(), o, Upgrade, Paused) == Steps(start, act, 2);
      if !o.Completed? { return; }
      o, n := Follow(w, f, act, start);
      if !o.Completed? { return; }
      PassesOn(act, w, f, State().(thread := Upgrade), n);
      n := n + 1;
      if !w.upgraded { return Raised, n; }
      PassesOn(act, w, f, State().(thread := Install), n);
      n := n + 1;
      if !w.installed { return Raised, n; }
    }

    /** The handler. */
    method Handle(admission: Admission, w: World, f: nat -> nat -> Fault, k: nat, ghost act: (Broker, nat) -> Broker, ghost start: Broker)
      returns (o: Outcome, n: nat)
      requires up && job.Some? && Acts(act, w, f) && State().(thread := ReportFailure(admission)) == Steps(start, act, k)
      modifies this
      ensures o.Crashed? ==> State() == Steps(start, act, n) && thread.Idle?
      ensures !o.Crashed? ==> State().(thread := Idle) == Steps(start, act, n)
    {
      ghost var b := State();
      o := RecordFailure(admission, f(k)(0), f(k)(1));
      n := k + 1;
      Reporting(act, w, f, b, admission, k);
      if o.Crashed? { return; }
      PassesOn(act, w, f, State().(thread := ClearRestarting), n);
      restarting, n := false, n + 1;
    }

    /** The try statement and its handler, from beginning to end. */
    method ExecuteAll(w: World, f: nat -> nat -> Fault) returns (n: nat)
      requires up && job.Some? && thread.PauseAdmission? && forall s | s in w.progress :: Active(s)
      modifies this
      ensures State() == Steps(old(State()), Acting(w, f), n) && thread.Idle?
    {
      ghost var start, act := State(), Acting(w, f);
      var o, admission, k := Attempt(w, f, act);
      n := k;
      if o.Raised? {
        o, n := Handle(admission, w, f, k, act, start);
      }
      thread := Idle;
    }

    method GiveUp(admission: Admission, f: nat -> Fault)
      requires job.Some?
      modifies this
      ensures State() == UpgradeBroker.GiveUp(old(State()), admission, f)
    {
      var _ := RecordFailure(admission, f(5), f(6));
      restarting := false;
    }

    method Resume(healthy: bool, installs: bool, restarts: bool, f: nat -> Fault)
      requires up
      modifies this
      ensures State() == UpgradeBroker.Resume(old(State()), healthy, installs, restarts, f)
    {
      if job.None? || Active(job.value.state) || !healthy { return; }
      var o := Update(job.value.state, Reopening, f(0), f(1));
      if !o.Completed? { return; }
      o := Raised;
      if installs { o := UnpauseRow(job.value.id, f(2)); }
      if o.Raised? { GiveUp(Unknown, f); }
      if !o.Completed? { return; }
      restarting := true;
      o := Update(Recovered, Open, f(3), f(4));
      if o.Raised? || (o.Completed? && !restarts) { GiveUp(Open, f); }
    }

    method Boot(f: nat -> Fault)
      requires !up
      modifies this
      ensures State() == UpgradeBroker.Boot(old(State()), f)
    {
      up, job, restarting, thread := true, current, false, Idle;
      if job.Some? && Active(job.value.state) {
        var o := Update(Interrupted, job.value.admission, f(0), f(1));
        if !o.Completed? { Die(); }
      }
    }

    /** Any schedule of requests, thread steps, resumes, kills and boots. */
    method Serve(events: seq<Event>)
      modifies this
      ensures State() == Run(old(State()), events)
    {
      for i := 0 to |events|
        invariant Run(old(State()), events) == Run(State(), events[i..])
      {
        match events[i]
        case Request(id, plan, actor, planned, f) => if up { var _ := Start(id, plan, actor, planned, f); }
        case Thread(answer, f) => if up && (!thread.Idle? ==> job.Some?) { Execute(answer, f); }
        case Resumed(healthy, installs, restarts, f) => if up { Resume(healthy, installs, restarts, f); }
        case Killed => Die();
        case Booted(f) => if !up { Boot(f); }
        assert events[i..][1..] == events[i + 1..];
      }
    }
  }
}
