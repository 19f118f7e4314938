/** The buffer and the sender in their own form: objects that their methods update,
    proved to do exactly what SampleQueue and SendLoop say. */
module AgentSender {
  import opened Options
  import opened SampleNames
  import opened SampleQueue
  import opened SendLoop

  /** The files with f at position i, in the place of the file of its name. */
  function Placed(fs: seq<File>, i: nat, f: File): seq<File>
    requires i <= |fs|
  {
    fs[..i] + Behind(fs, i, f)
  }

  function Behind(fs: seq<File>, i: nat, f: File): seq<File>
    requires i <= |fs|
  {
    [f] + if i < |fs| && NameOf(fs[i].at) == NameOf(f.at) then fs[i + 1..] else fs[i..]
  }

  lemma SameBehind(first: File, rest: seq<File>, i: nat, f: File)
    requires i <= |rest|
    ensures Behind([first] + rest, i + 1, f) == Behind(rest, i, f)
  {
    var fs := [first] + rest;
    assert fs[i + 1..] == rest[i..];
    if i < |rest| { assert fs[i + 2..] == rest[i + 1..]; }
  }

  lemma PlacedBehind(first: File, rest: seq<File>, i: nat, f: File)
    requires i <= |rest|
    ensures Placed([first] + rest, i + 1, f) == [first] + Placed(rest, i, f)
  {
    SameBehind(first, rest, i, f);
    assert ([first] + rest)[..i + 1] == [first] + rest[..i];
    Joined([first], rest[..i], Behind(rest, i, f));
  }

  lemma Joined(a: seq<File>, b: seq<File>, c: seq<File>)
    ensures (a + b) + c == a + (b + c)
  {
  }

  lemma SurvivorsFrom(fs: seq<File>, i: nat, total: int, now: int, reserve: nat)
    requires i < |fs|
    ensures Survivors(fs[i..], total, now, reserve)
            == if Expired(fs[i], now) || total + reserve > MAX_QUEUE_BYTES
               then Survivors(fs[i + 1..], total - fs[i].size, now, reserve)
               else [fs[i]] + Survivors(fs[i + 1..], total, now, reserve)
  {
    assert fs[i..][1..] == fs[i + 1..];
  }

  lemma {:induction false} PutInPlace(fs: seq<File>, i: nat, f: File)
    requires i <= |fs| && (forall j | 0 <= j < i :: Before(NameOf(fs[j].at), NameOf(f.at)))
    requires i < |fs| ==> !Before(NameOf(fs[i].at), NameOf(f.at))
    ensures Put(fs, f) == Placed(fs, i, f)
    decreases i
  {
    if fs != [] {
      NamesInOrder(fs[0].at, f.at);
      PutByTime(fs, f);
    }
    if i > 0 {
      PutInPlace(fs[1..], i - 1, f);
      PlacedBehind(fs[0], fs[1..], i - 1, f);
      assert fs == [fs[0]] + fs[1..];
    }
  }

  class Buffer {
    var files: seq<File>
    var dropped: nat

    function State(): Queue
      reads this
    {
      Queue(files, dropped)
    }

    constructor (found: seq<File>, restored: nat)
      ensures State() == Queue(found, restored)
    {
      files, dropped := found, restored;
    }

    method TotalBytes() returns (total: int)
      ensures total == Bytes(files)
    {
      total := 0;
      for i := 0 to |files|
        invariant total + Bytes(files[i..]) == Bytes(files)
      {
        assert files[i..][1..] == files[i + 1..];
        total := total + files[i].size;
      }
    }

    method Prune(now: int, reserve: nat)
      modifies this
      ensures State() == SampleQueue.Prune(old(State()), now, reserve)
    {
      var total := TotalBytes();
      var listed := files;
      var kept: seq<File> := [];
      for i := 0 to |listed|
        invariant kept + Survivors(listed[i..], total, now, reserve) == Survivors(listed, Bytes(listed), now, reserve)
        invariant dropped + |kept| == old(dropped) + i
      {
        SurvivorsFrom(listed, i, total, now, reserve);
        if now - listed[i].modified > MAX_AGE || total + reserve > MAX_QUEUE_BYTES {
          total := total - listed[i].size;
          dropped := dropped + 1;
        } else {
          Joined(kept, [listed[i]], Survivors(listed[i + 1..], total, now, reserve));
          kept := kept + [listed[i]];
        }
      }
      files := kept;
    }

    method Write(f: File)
      modifies this`files
      ensures files == Put(old(files), f)
    {
      var i := 0;
      while i < |files| && Before(NameOf(files[i].at), NameOf(f.at))
        invariant i <= |files| && forall j | 0 <= j < i :: Before(NameOf(files[j].at), NameOf(f.at))
      {
        i := i + 1;
      }
      PutInPlace(files, i, f);
      var rest := if i < |files| && NameOf(files[i].at) == NameOf(f.at) then files[i + 1..] else files[i..];
      files := files[..i] + ([f] + rest);
    }

    method Add(at: Instant, size: nat, modified: int, now: int) returns (ok: bool)
      modifies this
      ensures (State(), ok) == SampleQueue.Add(old(State()), at, size, modified, now)
    {
      Prune(now, MAX_SAMPLE_BYTES);
      if size > MAX_SAMPLE_BYTES {
        dropped := dropped + 1;
        return false;
      }
      Write(File(at, size, modified));
      ok := true;
    }

    method Next(now: int) returns (next: Option<File>)
      modifies this
      ensures (State(), next) == SampleQueue.Next(old(State()), now)
    {
      Prune(now, 0);
      if files == [] { return None; }
      if files[0].size > MAX_SAMPLE_BYTES {
        files, dropped := files[1..], dropped + 1;
        return None;
      }
      next := Some(files[0]);
    }

    method RemoveFirst()
      requires files != []
      modifies this`files
      ensures files == old(files)[1..]
    {
      files := files[1..];
    }
  }

  class Loop {
    const queue: Buffer
    var lastId: string
    var nextRead: int
    var nextSend: int
    var backoff: int
    var revoked: bool
    ghost var offered: nat
    ghost var delivered: nat
    ghost var replaced: nat

    ghost function State(): Sender
      reads this, queue
    {
      Sender(queue.State(), lastId, nextRead, nextSend, backoff, revoked, offered, delivered, replaced)
    }

    constructor (buffer: Buffer)
      ensures queue == buffer && State() == Fresh(buffer.files, buffer.dropped)
    {
      queue := buffer;
      lastId, nextRead, nextSend, backoff, revoked := "", 0, 0, SECOND, false;
      offered, delivered, replaced := 0, 0, 0;
    }

    method Read(snapshot: Option<Snapshot>, modified: int, now: int)
      modifies this, queue
      ensures State() == SendLoop.Read(old(State()), snapshot, modified, now)
    {
      if now < nextRead { return; }
      nextRead := now + SAMPLE_INTERVAL;
      if snapshot.None? { return; }
      var sample := snapshot.value;
      if sample.size > MAX_SAMPLE_BYTES || sample.id == lastId
         || now - sample.at >= 2 * SAMPLE_INTERVAL || sample.at >= now + 60 * SECOND { return; }
      Offer(sample, modified, now);
    }

    method Offer(sample: Snapshot, modified: int, now: int)
      modifies this, queue
      ensures State() == SendLoop.Offer(old(State()), sample, modified, now)
    {
      ghost var there := Has(SampleQueue.Prune(queue.State(), now, MAX_SAMPLE_BYTES).files, sample.at);
      var ok := queue.Add(sample.at, sample.encoded, modified, now);
      offered := offered + 1;
      if ok {
        lastId := sample.id;
        replaced := replaced + if there then 1 else 0;
      }
    }

    method Conclude(a: Answer, now: int)
      requires queue.files != []
      modifies this, queue
      ensures State() == SendLoop.Conclude(old(State()), a, now)
    {
      if Delivered(a) {
        queue.RemoveFirst();
        delivered, backoff, nextSend := delivered + 1, SECOND, now + SECOND;
      } else if Revoked(a) {
        queue.files := [];
        revoked := true;
      } else if Rejected(a) {
        queue.RemoveFirst();
        queue.dropped := queue.dropped + 1;
        nextSend := now + SAMPLE_INTERVAL;
      } else {
        var retryAfter := if a.Status? then a.retryAfter else 0;
        if retryAfter > backoff { backoff := retryAfter; }
        if backoff > MAX_BACKOFF { backoff := MAX_BACKOFF; }
        nextSend := now + backoff;
        backoff := Min(2 * backoff, MAX_BACKOFF);
      }
    }

    method Send(a: Answer, now: int)
      modifies this, queue
      ensures State() == SendLoop.Send(old(State()), a, now)
    {
      if now < nextSend { return; }
      var next := queue.Next(now);
      if next.Some? { Conclude(a, now); }
    }

    /** The loop, until its last tick or until the credential is revoked. */
    method Serve(ticks: seq<Tick>)
      modifies this, queue
      ensures State() == Run(old(State()), ticks)
    {
      ghost var start := State();
      for i := 0 to |ticks|
        invariant Run(start, ticks) == Run(State(), ticks[i..])
      {
        if revoked { Done(State(), ticks[i..]); return; }
        Read(ticks[i].snapshot, ticks[i].modified, ticks[i].now);
        Send(ticks[i].answer, ticks[i].now);
        assert ticks[i..][1..] == ticks[i + 1..];
      }
    }
  }

  lemma {:induction false} Done(s: Sender, ticks: seq<Tick>)
    requires s.revoked
    ensures Run(s, ticks) == s
    decreases |ticks|
  {
    if ticks != [] { Done(s, ticks[1..]); }
  }
}
