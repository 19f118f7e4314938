/** The retry buffer of the monitoring agent: one file per sample, in the order of their
    names, bounded by age and by bytes. */
module SampleQueue {
  import opened Options
  import opened SampleNames

  const MAX_SAMPLE_BYTES := 1_048_576
  const MAX_QUEUE_BYTES := 10_485_760
  const MAX_AGE := 3_600 * NANOS

  /** A file is named after the collection time of its sample; times are in nanoseconds. */
  datatype File = File(at: Instant, size: nat, modified: int)
  datatype Queue = Queue(files: seq<File>, dropped: nat)

  function Bytes(fs: seq<File>): nat {
    if fs == [] then 0 else fs[0].size + Bytes(fs[1..])
  }

  predicate Expired(f: File, now: int) {
    now - f.modified > MAX_AGE
  }

  /** What one pass over the files keeps, given the bytes of all that is left. */
  function Survivors(fs: seq<File>, total: int, now: int, reserve: nat): seq<File> {
    if fs == [] then []
    else if Expired(fs[0], now) || total + reserve > MAX_QUEUE_BYTES then
      Survivors(fs[1..], total - fs[0].size, now, reserve)
    else [fs[0]] + Survivors(fs[1..], total, now, reserve)
  }

  lemma {:induction false} SurvivorsAreFewer(fs: seq<File>, total: int, now: int, reserve: nat)
    ensures |Survivors(fs, total, now, reserve)| <= |fs|
    ensures forall f | f in Survivors(fs, total, now, reserve) :: f in fs
  {
    if fs != [] {
      SurvivorsAreFewer(fs[1..], total - fs[0].size, now, reserve);
      SurvivorsAreFewer(fs[1..], total, now, reserve);
    }
  }

  function Prune(q: Queue, now: int, reserve: nat): Queue {
    var kept := Survivors(q.files, Bytes(q.files), now, reserve);
    SurvivorsAreFewer(q.files, Bytes(q.files), now, reserve);
    Queue(kept, q.dropped + |q.files| - |kept|)
  }

  /** The directory is listed in the order of names; writing a file replaces one of the same name. */
  function Put(fs: seq<File>, f: File): seq<File> {
    if fs == [] || Before(NameOf(f.at), NameOf(fs[0].at)) then [f] + fs
    else if NameOf(f.at) == NameOf(fs[0].at) then [f] + fs[1..]
    else [fs[0]] + Put(fs[1..], f)
  }

  predicate Has(fs: seq<File>, at: Instant) {
    exists i | 0 <= i < |fs| :: fs[i].at == at
  }

  /** Pruning leaves room for any sample; one that is too large itself is refused. */
  function Add(q: Queue, at: Instant, size: nat, modified: int, now: int): (Queue, bool) {
    var q' := Prune(q, now, MAX_SAMPLE_BYTES);
    if size > MAX_SAMPLE_BYTES then (q'.(dropped := q'.dropped + 1), false)
    else (q'.(files := Put(q'.files, File(at, size, modified))), true)
  }

  function Next(q: Queue, now: int): (Queue, Option<File>) {
    var q' := Prune(q, now, 0);
    if q'.files == [] then (q', None)
    else if q'.files[0].size > MAX_SAMPLE_BYTES then (Queue(q'.files[1..], q'.dropped + 1), None)
    else (q', Some(q'.files[0]))
  }

  // ---------- bounds ----------

  lemma {:induction false} SurvivorsFit(fs: seq<File>, extra: nat, now: int, reserve: nat)
    requires extra + reserve <= MAX_QUEUE_BYTES
    ensures extra + Bytes(Survivors(fs, Bytes(fs) + extra, now, reserve)) + reserve <= MAX_QUEUE_BYTES
  {
    if fs != [] {
      if Expired(fs[0], now) || Bytes(fs) + extra + reserve > MAX_QUEUE_BYTES {
        SurvivorsFit(fs[1..], extra, now, reserve);
      } else {
        SurvivorsFit(fs[1..], extra + fs[0].size, now, reserve);
      }
    }
  }

  lemma {:induction false} PutBytes(fs: seq<File>, f: File)
    ensures Bytes(Put(fs, f)) <= Bytes(fs) + f.size
  {
    if fs != [] { PutBytes(fs[1..], f); }
  }

  /** Whatever the clock does, the buffer is within its bound after every add and every read. */
  lemma QueueIsBounded(q: Queue, at: Instant, size: nat, modified: int, now: int)
    ensures Bytes(Add(q, at, size, modified, now).0.files) <= 10_485_760
    ensures Bytes(Next(q, now).0.files) <= 10_485_760
  {
    AddIsBounded(q, at, size, modified, now);
    NextIsBounded(q, now);
  }

  lemma AddIsBounded(q: Queue, at: Instant, size: nat, modified: int, now: int)
    ensures Bytes(Add(q, at, size, modified, now).0.files) <= MAX_QUEUE_BYTES
  {
    PrunedFits(q, now, MAX_SAMPLE_BYTES);
    PutBytes(Prune(q, now, MAX_SAMPLE_BYTES).files, File(at, size, modified));
  }

  lemma NextIsBounded(q: Queue, now: int)
    ensures Bytes(Next(q, now).0.files) <= MAX_QUEUE_BYTES
  {
    PrunedFits(q, now, 0);
  }

  lemma PrunedFits(q: Queue, now: int, reserve: nat)
    requires reserve <= MAX_QUEUE_BYTES
    ensures Bytes(Prune(q, now, reserve).files) + reserve <= MAX_QUEUE_BYTES
  {
    SurvivorsFit(q.files, 0, now, reserve);
  }

  /** Every add makes room for a mebibyte before it takes a sample, and takes none that is larger. */
  lemma AddTakes(q: Queue, at: Instant, size: nat, modified: int, now: int)
    ensures var (q', ok) := Add(q, at, size, modified, now);
            var kept := Prune(q, now, 1_048_576);
            if size <= 1_048_576 then ok && q'.dropped == kept.dropped && q'.files == Put(kept.files, File(at, size, modified))
            else !ok && q' == Queue(kept.files, kept.dropped + 1)
  {
  }

  /** A read takes the first file that is kept, and gives it up when it is larger than a mebibyte. */
  lemma NextTakes(q: Queue, now: int)
    ensures var (q', next) := Next(q, now);
            var kept := Prune(q, now, 0);
            && (kept.files == [] ==> next.None? && q' == kept)
            && (kept.files != [] && kept.files[0].size <= 1_048_576 ==> next == Some(kept.files[0]) && q' == kept)
            && (kept.files != [] && kept.files[0].size > 1_048_576 ==>
                  next.None? && q' == Queue(kept.files[1..], kept.dropped + 1))
  {
  }

  /** Every file that pruning removes is counted. */
  lemma PruneCounts(q: Queue, now: int, reserve: nat)
    ensures Prune(q, now, reserve).dropped + |Prune(q, now, reserve).files| == q.dropped + |q.files|
  {
  }

  // ---------- which files are kept ----------

  predicate Aging(fs: seq<File>) {
    forall i, j | 0 <= i < j < |fs| :: fs[i].modified <= fs[j].modified
  }

  /** All of these files can stay. */
  predicate Fits(fs: seq<File>, now: int, reserve: nat) {
    (forall f | f in fs :: now - f.modified <= 3_600_000_000_000) && Bytes(fs) + reserve <= 10_485_760
  }

  lemma {:induction false} AllStay(fs: seq<File>, total: int, now: int, reserve: nat)
    requires (forall f | f in fs :: !Expired(f, now)) && total + reserve <= MAX_QUEUE_BYTES
    ensures Survivors(fs, total, now, reserve) == fs
  {
    if fs != [] { AllStay(fs[1..], total, now, reserve); }
  }

  lemma FirstStopsAll(fs: seq<File>, now: int, reserve: nat)
    requires fs != [] && (Expired(fs[0], now) || Bytes(fs) + reserve > MAX_QUEUE_BYTES)
    ensures !Fits(fs[0..], now, reserve)
  {
    assert fs[0] in fs && fs[0..] == fs;
  }

  lemma SuffixesShift(fs: seq<File>, n: nat, now: int, reserve: nat)
    requires fs != [] && n < |fs| && !Fits(fs[0..], now, reserve)
    requires forall j {:trigger Fits(fs[1..][j..], now, reserve)} | 0 <= j < n :: !Fits(fs[1..][j..], now, reserve)
    ensures forall j {:trigger Fits(fs[j..], now, reserve)} | 0 <= j < n + 1 :: !Fits(fs[j..], now, reserve)
  {
    forall j | 0 < j < n + 1 ensures !Fits(fs[j..], now, reserve) {
      assert fs[1..][j - 1..] == fs[j..];
    }
  }

  lemma SuffixAges(fs: seq<File>, k: nat)
    requires k <= |fs| && Aging(fs)
    ensures Aging(fs[k..]) && forall f | f in fs[k..] :: f in fs
  {
    forall i, j | 0 <= i < j < |fs| - k ensures fs[k..][i].modified <= fs[k..][j].modified {
      assert fs[k..][i] == fs[k + i] && fs[k..][j] == fs[k + j];
    }
  }

  /** When files age in the order of their names, pruning keeps exactly the longest tail that fits. */
  lemma {:induction false} KeepsLongestSuffix(fs: seq<File>, now: int, reserve: nat) returns (k: nat)
    requires Aging(fs)
    ensures k <= |fs| && Survivors(fs, Bytes(fs), now, reserve) == fs[k..]
    ensures k < |fs| ==> Fits(fs[k..], now, reserve)
    ensures forall j {:trigger Fits(fs[j..], now, reserve)} | 0 <= j < k :: !Fits(fs[j..], now, reserve)
  {
    if fs == [] { return 0; }
    if Expired(fs[0], now) || Bytes(fs) + reserve > MAX_QUEUE_BYTES {
      SuffixAges(fs, 1);
      var n := KeepsLongestSuffix(fs[1..], now, reserve);
      k := n + 1;
      assert fs[1..][n..] == fs[k..];
      FirstStopsAll(fs, now, reserve);
      SuffixesShift(fs, n, now, reserve);
    } else {
      k := 0;
      forall f | f in fs ensures !Expired(f, now) {
        var i :| 0 <= i < |fs| && fs[i] == f;
      }
      AllStay(fs, Bytes(fs), now, reserve);
      assert fs[0..] == fs;
    }
  }

  // ---------- order ----------

  predicate Chronological(fs: seq<File>) {
    forall i, j | 0 <= i < j < |fs| :: fs[i].at < fs[j].at
  }

  lemma {:induction false} SurvivorsStayChronological(fs: seq<File>, total: int, now: int, reserve: nat)
    requires Chronological(fs)
    ensures Chronological(Survivors(fs, total, now, reserve))
  {
    if fs != [] {
      SurvivorsStayChronological(fs[1..], total - fs[0].size, now, reserve);
      SurvivorsStayChronological(fs[1..], total, now, reserve);
      SurvivorsAreFewer(fs[1..], total, now, reserve);
      forall f | f in Survivors(fs[1..], total, now, reserve) ensures fs[0].at < f.at {
        assert f in fs[1..];
      }
    }
  }

  lemma PutMembers(fs: seq<File>, f: File)
    ensures f in Put(fs, f) && forall g | g in Put(fs, f) :: g == f || g in fs
    ensures forall g | g in fs && g.at != f.at :: g in Put(fs, f)
  {
    PutMember(fs, f, f);
    forall g | g in Put(fs, f) ensures g == f || g in fs { PutMember(fs, f, g); }
    forall g | g in fs && g.at != f.at ensures g in Put(fs, f) { PutMember(fs, f, g); }
  }

  lemma {:induction false} PutMember(fs: seq<File>, f: File, g: File)
    ensures f in Put(fs, f) && (g in Put(fs, f) ==> g == f || g in fs)
    ensures g in fs && g.at != f.at ==> g in Put(fs, f)
  {
    if fs != [] {
      PutByTime(fs, f);
      if fs[0].at < f.at { PutMember(fs[1..], f, g); }
    }
  }

  /** As names sort as times, a file goes where its time belongs. */
  lemma PutByTime(fs: seq<File>, f: File)
    requires fs != []
    ensures Put(fs, f) == if f.at < fs[0].at then [f] + fs
                          else if f.at == fs[0].at then [f] + fs[1..] else [fs[0]] + Put(fs[1..], f)
  {
    NamesInOrder(f.at, fs[0].at);
  }

  lemma HeadOrRest(fs: seq<File>, g: File)
    requires fs != [] && Chronological(fs)
    ensures g in fs <==> g == fs[0] || g in fs[1..]
    ensures Chronological(fs[1..]) && (g in fs[1..] ==> g.at > fs[0].at)
  {
    assert fs == [fs[0]] + fs[1..];
  }

  /** A file that is put takes the place of the one of the same time, if there is one, and of no other. */
  lemma {:induction false} PutReplaces(fs: seq<File>, f: File, g: File)
    requires Chronological(fs)
    ensures g in Put(fs, f) <==> g == f || (g in fs && g.at != f.at)
  {
    if fs != [] {
      PutByTime(fs, f);
      HeadOrRest(fs, g);
      if fs[0].at < f.at { PutReplaces(fs[1..], f, g); }
    }
  }

  lemma {:induction false} PutIsChronological(fs: seq<File>, f: File)
    requires Chronological(fs)
    ensures Chronological(Put(fs, f))
  {
    if fs == [] {
      assert Put(fs, f) == [f];
    } else {
      PutByTime(fs, f);
      RestIsNewer(fs);
      if f.at < fs[0].at {
        FirstIsOldest(f, fs);
      } else if f.at == fs[0].at {
        FirstIsOldest(f, fs[1..]);
      } else {
        PutIsChronological(fs[1..], f);
        PutMembers(fs[1..], f);
        FirstIsOldest(fs[0], Put(fs[1..], f));
      }
    }
  }

  lemma RestIsNewer(fs: seq<File>)
    requires fs != [] && Chronological(fs)
    ensures Chronological(fs[1..]) && (forall g | g in fs[1..] :: fs[0].at < g.at) && forall g | g in fs :: fs[0].at <= g.at
  {
  }

  lemma FirstIsOldest(f: File, rest: seq<File>)
    requires Chronological(rest) && forall g | g in rest :: f.at < g.at
    ensures Chronological([f] + rest)
  {
    forall j | 0 <= j < |rest| ensures f.at < rest[j].at { assert rest[j] in rest; }
  }

  lemma {:induction false} PutCounts(fs: seq<File>, f: File)
    requires Chronological(fs)
    ensures |Put(fs, f)| == |fs| + if Has(fs, f.at) then 0 else 1
  {
    if fs != [] {
      PutByTime(fs, f);
      HasInRest(fs, f.at);
      if fs[0].at < f.at { PutCounts(fs[1..], f); }
    }
  }

  lemma HasInRest(fs: seq<File>, at: Instant)
    requires fs != [] && Chronological(fs)
    ensures Has(fs, at) <==> fs[0].at == at || (fs[0].at < at && Has(fs[1..], at))
  {
    if Has(fs[1..], at) {
      var i :| 0 <= i < |fs[1..]| && fs[1..][i].at == at;
      assert fs[i + 1].at == at;
    }
    if Has(fs, at) && fs[0].at != at {
      var i :| 0 <= i < |fs| && fs[i].at == at;
      assert fs[1..][i - 1].at == at;
    }
  }

  lemma ChronologyIsKept(q: Queue, at: Instant, size: nat, modified: int, now: int)
    requires Chronological(q.files)
    ensures Chronological(Add(q, at, size, modified, now).0.files) && Chronological(Next(q, now).0.files)
  {
    SurvivorsStayChronological(q.files, Bytes(q.files), now, MAX_SAMPLE_BYTES);
    SurvivorsStayChronological(q.files, Bytes(q.files), now, 0);
    PutIsChronological(Prune(q, now, MAX_SAMPLE_BYTES).files, File(at, size, modified));
  }

  /** The order in which the directory is listed. */
  predicate InNameOrder(fs: seq<File>) {
    forall i, j | 0 <= i < j < |fs| :: Before(NameOf(fs[i].at), NameOf(fs[j].at))
  }

  lemma NameOrderIsChronological(fs: seq<File>)
    ensures InNameOrder(fs) <==> Chronological(fs)
  {
    forall i, j | 0 <= i < j < |fs| ensures Before(NameOf(fs[i].at), NameOf(fs[j].at)) <==> fs[i].at < fs[j].at {
      NamesInOrder(fs[i].at, fs[j].at);
    }
  }

  /** Adds and reads keep the files in the order of their names, and because names sort as times,
      what is read next is the oldest of those that are kept. */
  lemma QueueStaysChronological(q: Queue, at: Instant, size: nat, modified: int, now: int)
    requires InNameOrder(q.files)
    ensures InNameOrder(Add(q, at, size, modified, now).0.files)
    ensures var (q', next) := Next(q, now);
            && InNameOrder(q'.files)
            && (next.Some? ==> next.value in q'.files && forall f | f in q'.files :: next.value.at <= f.at)
  {
    NameOrderIsChronological(q.files);
    ChronologyIsKept(q, at, size, modified, now);
    NameOrderIsChronological(Add(q, at, size, modified, now).0.files);
    NameOrderIsChronological(Next(q, now).0.files);
  }

  /** While collection times and the clock advance, files age in the order of their names. */
  lemma AddKeepsAging(q: Queue, at: Instant, size: nat, modified: int, now: int)
    requires Chronological(q.files) && Aging(q.files)
    requires forall f | f in q.files :: f.at < at && f.modified <= modified
    ensures Aging(Add(q, at, size, modified, now).0.files)
  {
    var k := KeepsLongestSuffix(q.files, now, MAX_SAMPLE_BYTES);
    var kept := q.files[k..];
    SuffixAges(q.files, k);
    assert Prune(q, now, MAX_SAMPLE_BYTES).files == kept;
    PutAtEnd(kept, File(at, size, modified));
  }

  lemma {:induction false} PutAtEnd(fs: seq<File>, f: File)
    requires forall g | g in fs :: g.at < f.at
    ensures Put(fs, f) == fs + [f]
  {
    if fs != [] {
      PutByTime(fs, f);
      PutAtEnd(fs[1..], f);
    }
  }

  // ---------- counting ----------

  /** Every offered sample is queued, refused, or replaces one of the same time; pruning
      moves samples from the queue to the dropped. */
  lemma AddCounts(q: Queue, at: Instant, size: nat, modified: int, now: int)
    requires Chronological(q.files)
    ensures var (q', ok) := Add(q, at, size, modified, now);
            |q'.files| + q'.dropped + (if ok && Has(Prune(q, now, MAX_SAMPLE_BYTES).files, at) then 1 else 0)
            == |q.files| + q.dropped + 1
  {
    SurvivorsStayChronological(q.files, Bytes(q.files), now, MAX_SAMPLE_BYTES);
    PutCounts(Prune(q, now, MAX_SAMPLE_BYTES).files, File(at, size, modified));
  }

  lemma NextCounts(q: Queue, now: int)
    ensures |Next(q, now).0.files| + Next(q, now).0.dropped == |q.files| + q.dropped
  {
  }
}
