/** What the upgrade broker achieves when nothing fails, and how it gets out of
    every interruption. */
module UpgradeOutcomes {
  import opened Options
  import opened UpgradeBroker
  import opened UpgradeSafety

  function NoFaults(n: nat): Fault { Ok }

  function Steps(b: Broker, answers: seq<Answer>): Broker
    decreases |answers|
  {
    if answers == [] then b else Steps(Apply(b, Thread(answers[0], NoFaults)), answers[1..])
  }

  /** The progress lines that the upgrade command prints, as answers. */
  function Printing(lines: seq<JobState>): seq<Answer> {
    if lines == [] then [] else [Answer(false, true, Some(lines[0]))] + Printing(lines[1..])
  }

  const GOES_WELL := Answer(false, true, None)

  predicate Upgrading(b: Broker) {
    Inv(b) && b.up && b.thread.Upgrade?
  }

  lemma {:induction false} ProgressIsSaved(b: Broker, lines: seq<JobState>)
    requires Upgrading(b) && b.current == b.job && forall s | s in lines :: Active(s)
    ensures var b' := Steps(b, Printing(lines));
            Upgrading(b') && b'.current == b'.job && b'.job.value.id == b.job.value.id && b'.restarting == b.restarting
    ensures lines != [] ==> Steps(b, Printing(lines)).job.value.state == lines[|lines| - 1]
    ensures lines == [] ==> Steps(b, Printing(lines)) == b
    decreases |lines|
  {
    if lines != [] {
      var b1 := Apply(b, Thread(Printing(lines)[0], NoFaults));
      ExecuteKeepsInv(b, Printing(lines)[0], NoFaults);
      assert b1.thread.Upgrade? && b1.current == b1.job && b1.job.value.state == lines[0];
      ProgressIsSaved(b1, lines[1..]);
      assert Printing(lines)[1..] == Printing(lines[1..]);
    }
  }

  lemma {:induction false} StepsAppend(b: Broker, xs: seq<Answer>, ys: seq<Answer>)
    ensures Steps(b, xs + ys) == Steps(Steps(b, xs), ys)
    decreases |xs|
  {
    if xs == [] {
      assert xs + ys == ys;
    } else {
      assert (xs + ys)[1..] == xs[1..] + ys;
      StepsAppend(Apply(b, Thread(xs[0], NoFaults)), xs[1..], ys);
    }
  }

  /** The result of a job is on disk twice and in memory, and admission is open. */
  predicate Settled(b: Broker, id: Id, state: JobState) {
    && b.row.None? && b.up && b.thread.Idle?
    && b.job.Some? && b.job.value.id == id && b.job.value.state == state && b.job.value.admission.Open?
    && b.current == b.job && id in b.records && b.records[id] == b.job.value
  }

  lemma HeadCompletes(b: Broker)
    requires Inv(b) && b.up && b.thread.PauseAdmission?
    ensures var b' := Steps(b, [GOES_WELL, GOES_WELL]);
            Upgrading(b') && b'.current == b'.job && b'.job.value.id == b.job.value.id
  {
    var b1 := Execute(b, GOES_WELL, NoFaults);
    ExecuteKeepsInv(b, GOES_WELL, NoFaults);
    assert b1.thread.FindRelease?;
    ExecuteKeepsInv(b1, GOES_WELL, NoFaults);
    assert [GOES_WELL, GOES_WELL][1..] == [GOES_WELL];
    assert Steps(b1, [GOES_WELL]) == Steps(Execute(b1, GOES_WELL, NoFaults), []);
  }

  lemma MiddleCompletes(b: Broker)
    requires Upgrading(b)
    ensures var b' := Steps(b, [GOES_WELL, GOES_WELL]);
            Inv(b') && b'.up && b'.thread.Reopen? && b'.job == b.job
  {
    var b1 := Execute(b, GOES_WELL, NoFaults);
    ExecuteKeepsInv(b, GOES_WELL, NoFaults);
    assert b1.thread.Install?;
    ExecuteKeepsInv(b1, GOES_WELL, NoFaults);
    assert [GOES_WELL, GOES_WELL][1..] == [GOES_WELL];
    assert Steps(b1, [GOES_WELL]) == Steps(Execute(b1, GOES_WELL, NoFaults), []);
  }

  lemma ReopensWell(b: Broker)
    requires Inv(b) && b.up && b.thread.Reopen?
    ensures var b' := Execute(b, GOES_WELL, NoFaults);
            && Inv(b') && b'.up && b'.thread.Unpause? && b'.job.Some? && b'.job.value.id == b.job.value.id
            && Apply(b, Thread(GOES_WELL, NoFaults)) == b'
  {
    ExecuteKeepsInv(b, GOES_WELL, NoFaults);
  }

  lemma UnpausesWell(b: Broker)
    requires Inv(b) && b.up && b.thread.Unpause?
    ensures var b' := Execute(b, GOES_WELL, NoFaults);
            && Inv(b') && b'.up && b'.thread.SaveSucceeded? && b'.row.None? && b'.job == b.job
            && Apply(b, Thread(GOES_WELL, NoFaults)) == b'
  {
    ExecuteKeepsInv(b, GOES_WELL, NoFaults);
  }

  lemma FinishesWell(b: Broker)
    requires Inv(b) && b.up && b.thread.SaveSucceeded? && b.row.None?
    ensures var b' := Execute(b, GOES_WELL, NoFaults);
            && Settled(b', b.job.value.id, Succeeded) && b'.restarting
            && Apply(b, Thread(GOES_WELL, NoFaults)) == b'
  {
  }

  lemma StepsHead(b: Broker, a: Answer, rest: seq<Answer>)
    ensures Steps(b, [a] + rest) == Steps(Apply(b, Thread(a, NoFaults)), rest)
  {
    assert ([a] + rest)[1..] == rest;
  }

  lemma TailCompletes(b: Broker)
    requires Inv(b) && b.up && b.thread.Reopen?
    ensures var b' := Steps(b, [GOES_WELL, GOES_WELL, GOES_WELL]);
            Settled(b', b.job.value.id, Succeeded) && b'.restarting
  {
    ReopensWell(b);
    var b1 := Execute(b, GOES_WELL, NoFaults);
    UnpausesWell(b1);
    var b2 := Execute(b1, GOES_WELL, NoFaults);
    FinishesWell(b2);
    StepsHead(b, GOES_WELL, [GOES_WELL, GOES_WELL]);
    StepsHead(b1, GOES_WELL, [GOES_WELL]);
    StepsHead(b2, GOES_WELL, []);
    assert [GOES_WELL] + [GOES_WELL, GOES_WELL] == [GOES_WELL, GOES_WELL, GOES_WELL];
    assert [GOES_WELL] + [GOES_WELL] == [GOES_WELL, GOES_WELL];
    assert [GOES_WELL] + [] == [GOES_WELL];
  }

  lemma StepsInTurn(b: Broker, first: seq<Answer>, second: seq<Answer>, third: seq<Answer>, fourth: seq<Answer>)
    ensures Steps(b, first + second + third + fourth) == Steps(Steps(Steps(Steps(b, first), second), third), fourth)
  {
    StepsAppend(b, first, second);
    StepsAppend(b, first + second, third);
    StepsAppend(b, first + second + third, fourth);
  }

  /** An accepted upgrade that meets no failure ends as succeeded with admission open,
      whatever progress it reports on the way. */
  lemma UpgradeCompletes(b: Broker, lines: seq<JobState>)
    requires Inv(b) && b.up && b.thread.PauseAdmission? && forall s | s in lines :: Active(s)
    ensures var tail := [GOES_WELL, GOES_WELL, GOES_WELL, GOES_WELL, GOES_WELL];
            var b' := Steps(b, [GOES_WELL, GOES_WELL] + Printing(lines) + tail);
            Settled(b', b.job.value.id, Succeeded) && b'.restarting
  {
    var start, middle, tail := [GOES_WELL, GOES_WELL], [GOES_WELL, GOES_WELL], [GOES_WELL, GOES_WELL, GOES_WELL];
    HeadCompletes(b);
    ProgressIsSaved(Steps(b, start), lines);
    MiddleCompletes(Steps(Steps(b, start), Printing(lines)));
    TailCompletes(Steps(Steps(Steps(b, start), Printing(lines)), middle));
    StepsInTurn(b, start, Printing(lines), middle, tail);
    assert start + Printing(lines) + middle + tail ==
           [GOES_WELL, GOES_WELL] + Printing(lines) + [GOES_WELL, GOES_WELL, GOES_WELL, GOES_WELL, GOES_WELL];
  }

  /** Pending work turns an upgrade away and leaves admission open. */
  lemma BusyUpgradeIsBlocked(b: Broker, busy: Answer)
    requires Inv(b) && b.up && b.thread.PauseAdmission? && busy.busy
    ensures var b1 := Execute(b, busy, NoFaults); var b2 := Execute(b1, busy, NoFaults);
            var b3 := Execute(b2, busy, NoFaults);
            Settled(Execute(b3, busy, NoFaults), b.job.value.id, Blocked)
  {
    var b1 := Execute(b, busy, NoFaults);
    assert b1.thread.ReopenBusy? && b1.row == Some(b.job.value.id);
    var b2 := Execute(b1, busy, NoFaults);
    assert b2.thread.UnpauseBusy? && b2.row == b1.row && b2.job.value.id == b.job.value.id;
    var b3 := Execute(b2, busy, NoFaults);
    assert b3.thread.SaveBlocked? && b3.row.None? && b3.job == b2.job;
  }

  /** After any history in which the process stopped, starting it and resuming on a
      healthy host, with nothing failing now, opens admission again and settles the job. */
  lemma ResumeAfterAnyCrash(events: seq<Event>)
    requires var b := Run(FRESH, events); b.current.Some?
    ensures var b := Run(FRESH, events);
            var b' := Resume(Boot(Dead(b), NoFaults), true, true, true, NoFaults);
            Settled(b', b.current.value.id, Recovered)
  {
    var b := Run(FRESH, events);
    RunKeepsInv(FRESH, events);
    ApplyKeepsInv(b, Killed);
    var b1 := Boot(Dead(b), NoFaults);
    BootKeepsInv(Dead(b), NoFaults);
    assert b1.up && b1.job.Some? && !Active(b1.job.value.state) && b1.job.value.id == b.current.value.id;
    ResumeSettles(b1);
  }

  lemma ResumeSettles(b: Broker)
    requires Inv(b) && b.up && b.job.Some? && !Active(b.job.value.state) && b.thread.Idle?
    ensures Settled(Resume(b, true, true, true, NoFaults), b.job.value.id, Recovered)
  {
  }

  /** A request whose first record was written before the process died is found again as
      interrupted; repeating it returns that job and starts nothing. */
  lemma PartialRequestIsFoundAgain(b: Broker, id: Id, plan: Id, actor: Id, f: nat -> Fault, planned: bool)
    requires Inv(b) && b.up && Known(b, id).None? && MayStart(b)
    requires Takes(f(0)) && Start(b, id, plan, actor, true, f).1.Lost? && !f(0).Raise? && !f(1).Raise?
    ensures var b1 := Boot(Start(b, id, plan, actor, true, f).0, NoFaults);
            var job := Job(id, plan, actor, Interrupted, Unreported);
            b1.up && b1.job == Some(job) && Start(b1, id, plan, actor, planned, NoFaults) == (b1, Existing(job))
  {
  }
}
