/** The storage script in its own form: loops over mutable host state, with a
    clean-up clause.  It is proved to take exactly the steps of the machine. */
module AppStorageScript {
  import opened AppStorage

  /** `exec` are the states of a run, one per step. */
  predicate StepsAt(run: Run, faults: nat -> Fault, exec: nat -> State, k: nat) {
    WithinBounds(run, exec(k).pc) && exec(k + 1) == Step(run, exec(k), faults(k))
  }

  ghost predicate IsRun(run: Run, faults: nat -> Fault, exec: nat -> State) {
    forall k: nat :: StepsAt(run, faults, exec, k)
  }

  class Host {
    var volumes: map<string, Volume>
    var ready: set<string>
    var temporary: set<string>
    var pending: map<string, string>
    var helpers: map<string, Helper>
    var inUse: set<string>
    var previous: Previous

    function World(): World
      reads this
    {
      AppStorage.World(volumes, ready, temporary, pending, helpers, inUse, previous)
    }

    // ---------- commands and file operations ----------

    method RemoveContainer(name: string, f: Fault) returns (ok: bool)
      modifies this`helpers
      ensures ok == f.Ok? && helpers == if Happens(f) then old(helpers) - {name} else old(helpers)
    {
      if Happens(f) { helpers := helpers - {name}; }
      ok := f.Ok?;
    }

    /** Docker refuses while some container references the volume. */
    method RemoveVolume(name: string, f: Fault) returns (ok: bool)
      modifies this`volumes
      ensures ok == (f.Ok? && !Referenced(old(World()), name))
      ensures volumes == if Happens(f) && !Referenced(old(World()), name) then old(volumes) - {name} else old(volumes)
    {
      var referenced := Referenced(World(), name);
      if Happens(f) && !referenced { volumes := volumes - {name}; }
      ok := f.Ok? && !referenced;
    }

    method WritePending(name: string, content: string, f: Fault) returns (ok: bool)
      modifies this`pending
      ensures ok == f.Ok? && pending == if Happens(f) then old(pending)[name := content] else old(pending)
    {
      if Happens(f) { pending := pending[name := content]; }
      ok := f.Ok?;
    }

    method UnlinkPending(name: string, f: Fault) returns (ok: bool)
      modifies this`pending
      ensures ok == f.Ok? && pending == if Happens(f) then old(pending) - {name} else old(pending)
    {
      if Happens(f) { pending := pending - {name}; }
      ok := f.Ok?;
    }

    /** Creating a volume that exists changes nothing, not even its labels. */
    method CreateVolume(name: string, initializer: string, f: Fault) returns (ok: bool)
      modifies this`volumes
      ensures ok == f.Ok?
      ensures volumes == if Happens(f) && name !in old(volumes)
                         then old(volumes)[name := Volume(true, initializer, Empty)] else old(volumes)
    {
      if Happens(f) && name !in volumes { volumes := volumes[name := Volume(true, initializer, Empty)]; }
      ok := f.Ok?;
    }

    method Fill(name: string, data: Data)
      modifies this`volumes
      ensures World() == WithData(old(World()), name, data)
    {
      if name in volumes { volumes := volumes[name := volumes[name].(data := data)]; }
    }

    // ---------- the script ----------

    /** An unfinished volume goes first, the record of it afterwards. */
    method Discard(run: Run, i: nat, faults: nat -> Fault, n: nat, ghost exec: nat -> State) returns (ok: bool, m: nat)
      requires IsRun(run, faults, exec) && i < |run.declared| && exec(n) == State(World(), Pc.RemoveVolume(i))
      modifies this`volumes, this`pending
      ensures exec(m) == State(World(), if ok then Admit(run, World(), i) else Raised)
      ensures ok ==> run.declared[i].name !in volumes
    {
      var name := run.declared[i].name;
      assert StepsAt(run, faults, exec, n);
      ok := RemoveVolume(name, faults(n));
      m := n + 1;
      if !ok { return; }
      assert StepsAt(run, faults, exec, m);
      ok := UnlinkPending(name, faults(m));
      m := m + 1;
    }

    method Recover(run: Run, i: nat, faults: nat -> Fault, n: nat, ghost exec: nat -> State) returns (ok: bool, m: nat)
      requires IsRun(run, faults, exec) && i < |run.declared| && exec(n) == State(World(), Validate(i))
      requires run.declared[i].name in volumes && run.declared[i].name !in ready && volumes[run.declared[i].name].owned
      requires faults(n).Ok?
      modifies this`volumes, this`pending, this`helpers
      ensures exec(m) == State(World(), if ok then Admit(run, World(), i) else Raised)
      ensures ok ==> run.declared[i].name !in volumes
    {
      var name := run.declared[i].name;
      var helper := if name in pending then pending[name] else "";
      m := n + 1;
      assert StepsAt(run, faults, exec, n);
      if helper == "" || volumes[name].initializer != helper { return false, m; }
      if helper in helpers {
        var scratch := helpers[helper];
        if !scratch.owned || scratch.initializer != helper || scratch.running { return false, m; }
        assert StepsAt(run, faults, exec, m);
        ok := RemoveContainer(helper, faults(m));
        m := m + 1;
        if !ok { return; }
      }
      ok, m := Discard(run, i, faults, m, exec);
    }

    method ValidateAll(run: Run, faults: nat -> Fault, ghost exec: nat -> State) returns (ok: bool, m: nat)
      requires IsRun(run, faults, exec) && exec(0) == State(World(), Validate(0))
      modifies this`volumes, this`pending, this`helpers
      ensures exec(m) == State(World(), if ok then Validate(|run.declared|) else Raised)
    {
      m := 0;
      for i := 0 to |run.declared|
        invariant exec(m) == State(World(), Validate(i))
      {
        var name := run.declared[i].name;
        if faults(m).Ok? && name in volumes && name !in ready && volumes[name].owned {
          ok, m := Recover(run, i, faults, m, exec);
          if !ok { return; }
        } else {
          assert StepsAt(run, faults, exec, m);
          m := m + 1;
          if !faults(m - 1).Ok? || (name in volumes && !volumes[name].owned) { return false, m; }
          if name in volumes { continue; }
        }
        var old' := run.named && previous.Present?;
        var initial := if !old' && run.preview then Image else run.declared[i].initialData;
        if name in ready { return false, m; }
        if old' && initial.Unset? { return false, m; }
        if initial.PreviousContainer? && !old' { return false, m; }
      }
      ok := true;
    }

    /** The first half of the try clause: a helper over the new volume, and its data. */
    method Populate(run: Run, i: nat, faults: nat -> Fault, n: nat, ghost exec: nat -> State) returns (ok: bool, m: nat)
      requires IsRun(run, faults, exec) && i < |run.declared| && exec(n) == State(World(), CreateHelper(i))
      modifies this`volumes, this`helpers
      ensures exec(m) == State(World(), if ok then DropHelper(i) else FinallyHelper(i, false, true))
    {
      var name, helper := run.declared[i].name, HelperName(run, i);
      var old' := run.named && previous.Present?;
      var importing := (old' || !run.preview) && run.declared[i].initialData.PreviousContainer?;
      assert StepsAt(run, faults, exec, n);
      m := n + 1;
      if helper in helpers { return false, m; }
      if Happens(faults(n)) { helpers := helpers[helper := Helper(true, helper, false, name)]; }
      if !importing { Fill(name, if faults(n).Ok? then Complete(FromImage) else Partial); }
      ok := faults(n).Ok?;
      if ok && importing {
        assert StepsAt(run, faults, exec, m);
        if !old' { return false, m + 1; }
        ok := faults(m).Ok?;
        if ok { Fill(name, if previous.running then Partial else Complete(FromPrevious)); }
        else if faults(m).applied { Fill(name, Partial); }
        m := m + 1;
      }
    }

    /** The second half: drop the helper and publish the marker. */
    method Publish(run: Run, i: nat, faults: nat -> Fault, n: nat, ghost exec: nat -> State) returns (ok: bool, m: nat)
      requires IsRun(run, faults, exec) && i < |run.declared| && exec(n) == State(World(), DropHelper(i))
      modifies this`helpers, this`ready, this`temporary
      ensures exec(m) == State(World(), if ok then NoteInitialized(i) else FinallyHelper(i, false, true))
    {
      var name := run.declared[i].name;
      assert StepsAt(run, faults, exec, n);
      ok := RemoveContainer(HelperName(run, i), faults(n));
      m := n + 1;
      if !ok { return; }
      assert StepsAt(run, faults, exec, m);
      if Happens(faults(m)) { temporary := temporary + {name}; }
      ok, m := faults(m).Ok?, m + 1;
      if !ok { return; }
      assert StepsAt(run, faults, exec, m);
      if Happens(faults(m)) { ready, temporary := ready + {name}, temporary - {name}; }
      ok, m := faults(m).Ok?, m + 1;
    }

    /** The end of the try clause: the marker is noted and the pending file retired. */
    method Retire(run: Run, i: nat, faults: nat -> Fault, n: nat, ghost exec: nat -> State)
      returns (initialized: bool, raised: bool, m: nat)
      requires IsRun(run, faults, exec) && i < |run.declared| && exec(n) == State(World(), NoteInitialized(i))
      modifies this`pending
      ensures exec(m) == State(World(), FinallyHelper(i, initialized, raised))
    {
      assert StepsAt(run, faults, exec, n);
      initialized, raised := Happens(faults(n)), true;
      m := n + 1;
      if !faults(n).Ok? { return; }
      assert StepsAt(run, faults, exec, m);
      var ok := UnlinkPending(run.declared[i].name, faults(m));
      m, raised := m + 1, !ok;
    }

    /** The finally clause. */
    method Finally(run: Run, i: nat, initialized: bool, raised: bool, faults: nat -> Fault, n: nat, ghost exec: nat -> State)
      returns (ok: bool, m: nat)
      requires IsRun(run, faults, exec) && i < |run.declared|
      requires exec(n) == State(World(), FinallyHelper(i, initialized, raised))
      modifies this`volumes, this`helpers
      ensures exec(m) == State(World(), if ok then Begin(i + 1) else Raised)
    {
      assert StepsAt(run, faults, exec, n);
      var _ := RemoveContainer(HelperName(run, i), faults(n));
      m := n + 1;
      if faults(n).Signal? { return false, m; }
      if !initialized {
        assert StepsAt(run, faults, exec, m);
        var _ := RemoveVolume(run.declared[i].name, faults(m));
        return false, m + 1;
      }
      ok := !raised;
    }

    /** One pass of the second loop for a volume that is not ready. */
    method Initialize(run: Run, i: nat, faults: nat -> Fault, n: nat, ghost exec: nat -> State) returns (ok: bool, m: nat)
      requires IsRun(run, faults, exec) && i < |run.declared| && exec(n) == State(World(), TruncatePending(i))
      modifies this`volumes, this`pending, this`helpers, this`ready, this`temporary
      ensures exec(m) == State(World(), if ok then Begin(i + 1) else Raised)
    {
      var name, helper := run.declared[i].name, HelperName(run, i);
      assert StepsAt(run, faults, exec, n);
      ok := WritePending(name, "", faults(n));
      m := n + 1;
      if !ok { return; }
      assert StepsAt(run, faults, exec, m);
      ok := WritePending(name, helper, faults(m));
      m := m + 1;
      if !ok { return; }
      assert StepsAt(run, faults, exec, m);
      ok := CreateVolume(name, helper, faults(m));
      m := m + 1;
      if !ok { return; }
      ok, m := Populate(run, i, faults, m, exec);
      var initialized, raised := false, true;
      if ok { ok, m := Publish(run, i, faults, m, exec); }
      if ok { initialized, raised, m := Retire(run, i, faults, m, exec); }
      ok, m := Finally(run, i, initialized, raised, faults, m, exec);
    }

    method InitializeAll(run: Run, faults: nat -> Fault, n: nat, ghost exec: nat -> State) returns (ok: bool, m: nat)
      requires IsRun(run, faults, exec) && exec(n) == State(World(), Begin(0))
      modifies this`volumes, this`pending, this`helpers, this`ready, this`temporary
      ensures exec(m) == State(World(), if ok then Done else Raised)
    {
      m := n;
      for i := 0 to |run.declared|
        invariant exec(m) == State(World(), Begin(i))
      {
        assert StepsAt(run, faults, exec, m);
        m := m + 1;
        if !faults(m - 1).Ok? { return false, m; }
        if run.declared[i].name in ready { continue; }
        ok, m := Initialize(run, i, faults, m, exec);
        if !ok { return; }
      }
      assert StepsAt(run, faults, exec, m);
      ok, m := faults(m).Ok?, m + 1;
    }

    /** Between the two loops the serving container is stopped. */
    method StopPrevious(run: Run, faults: nat -> Fault, n: nat, ghost exec: nat -> State) returns (ok: bool, m: nat)
      requires IsRun(run, faults, exec) && exec(n) == State(World(), Validate(|run.declared|))
      modifies this`previous
      ensures exec(m) == State(World(), if ok then Begin(0) else Raised)
    {
      assert StepsAt(run, faults, exec, n);
      ok, m := faults(n).Ok?, n + 1;
      if ok && run.named && previous.Present? && (|run.declared| > 0 || previous.storage) {
        assert StepsAt(run, faults, exec, m);
        if Happens(faults(m)) { previous := previous.(running := false); }
        ok, m := faults(m).Ok?, m + 1;
      }
    }

    /** The whole script.  A run that is killed leaves the world of the first few
        of these m steps; the machine's theorems hold of every one of them. */
    method PrepareStorage(run: Run, faults: nat -> Fault) returns (completed: bool, m: nat)
      modifies this
      ensures Exec(run, old(World()), faults, m) == State(World(), if completed then Done else Raised)
    {
      ghost var w0 := World();
      ghost var exec := (k: nat) => Exec(run, w0, faults, k);
      ExecIsRun(run, w0, faults, exec);
      if run.named && previous.Present? && !previous.owned { return false, 0; }
      completed, m := ValidateAll(run, faults, exec);
      if completed { completed, m := StopPrevious(run, faults, m, exec); }
      if completed { completed, m := InitializeAll(run, faults, m, exec); }
    }
  }

  lemma ExecIsRun(run: Run, w: World, faults: nat -> Fault, exec: nat -> State)
    requires forall k: nat :: exec(k) == Exec(run, w, faults, k)
    ensures IsRun(run, faults, exec) && exec(0) == Start(run, w)
  {
    forall k: nat ensures StepsAt(run, faults, exec, k) {
      assert exec(k + 1) == Exec(run, w, faults, k + 1);
    }
  }
}
