/** The sender of the monitoring agent: it buffers samples on one schedule and delivers
    them on another, backing off while the receiver does not answer. */
module SendLoop {
  import opened Options
  import opened SampleNames
  import opened SampleQueue

  const SECOND: int := NANOS
  const SAMPLE_INTERVAL := 30 * SECOND
  const MAX_BACKOFF := 300 * SECOND

  /** A snapshot of the collector; `encoded` is its size once analytics are attached. */
  datatype Snapshot = Snapshot(id: string, at: Instant, size: nat, encoded: nat)

  /** The receiver's answer: a status, or no answer at all, with the Retry-After it asked for. */
  datatype Answer = Status(code: int, retryAfter: int) | NoAnswer

  /** `offered`, `delivered` and `replaced` are history. */
  datatype Sender = Sender(
    queue: Queue,
    lastId: string,
    nextRead: int,
    nextSend: int,
    backoff: int,
    revoked: bool,
    offered: nat,
    delivered: nat,
    replaced: nat)

  function Fresh(files: seq<File>, dropped: nat): Sender {
    Sender(Queue(files, dropped), "", 0, 0, SECOND, false, 0, 0, 0)
  }

  // ---------- buffering ----------

  predicate Accepts(s: Sender, snapshot: Option<Snapshot>, now: int) {
    snapshot.Some? && snapshot.value.size <= MAX_SAMPLE_BYTES && snapshot.value.id != s.lastId
    && now - snapshot.value.at < 2 * SAMPLE_INTERVAL && snapshot.value.at < now + 60 * SECOND
  }

  function Offer(s: Sender, snapshot: Snapshot, modified: int, now: int): Sender {
    var (q, ok) := Add(s.queue, snapshot.at, snapshot.encoded, modified, now);
    var overwrites := ok && Has(Prune(s.queue, now, MAX_SAMPLE_BYTES).files, snapshot.at);
    s.(queue := q, offered := s.offered + 1, lastId := if ok then snapshot.id else s.lastId,
       replaced := s.replaced + if overwrites then 1 else 0)
  }

  function Read(s: Sender, snapshot: Option<Snapshot>, modified: int, now: int): Sender {
    if now < s.nextRead then s
    else
      var s' := s.(nextRead := now + SAMPLE_INTERVAL);
      if Accepts(s, snapshot, now) then Offer(s', snapshot.value, modified, now) else s'
  }

  // ---------- delivering ----------

  function Min(a: int, b: int): int { if a < b then a else b }
  function Max(a: int, b: int): int { if a > b then a else b }

  /** How long to wait after an attempt that may be repeated, and the backoff for the next one. */
  function Wait(backoff: int, retryAfter: int): int {
    Min(Max(backoff, retryAfter), MAX_BACKOFF)
  }

  function NextBackoff(backoff: int, retryAfter: int): int {
    Min(2 * Wait(backoff, retryAfter), MAX_BACKOFF)
  }

  predicate Delivered(a: Answer) { a.Status? && 200 <= a.code < 300 }
  predicate Revoked(a: Answer) { a.Status? && (a.code == 401 || a.code == 403) }
  predicate Rejected(a: Answer) { a.Status? && (a.code == 400 || a.code == 413 || a.code == 422) }

  /** The oldest file is in flight. */
  function Conclude(s: Sender, a: Answer, now: int): Sender
    requires s.queue.files != []
  {
    var rest := s.queue.files[1..];
    if Delivered(a) then
      s.(queue := s.queue.(files := rest), delivered := s.delivered + 1, backoff := SECOND, nextSend := now + SECOND)
    else if Revoked(a) then s.(queue := s.queue.(files := []), revoked := true)
    else if Rejected(a) then
      s.(queue := Queue(rest, s.queue.dropped + 1), nextSend := now + SAMPLE_INTERVAL)
    else
      var retryAfter := if a.Status? then a.retryAfter else 0;
      s.(nextSend := now + Wait(s.backoff, retryAfter), backoff := NextBackoff(s.backoff, retryAfter))
  }

  function Send(s: Sender, a: Answer, now: int): Sender {
    if now < s.nextSend then s
    else
      var (q, next) := Next(s.queue, now);
      var s' := s.(queue := q);
      if next.None? then s' else Conclude(s', a, now)
  }

  datatype Tick = Tick(now: int, snapshot: Option<Snapshot>, modified: int, answer: Answer)

  /** One pass of the loop; a revoked sender has left it. */
  function Step(s: Sender, t: Tick): Sender {
    if s.revoked then s else Send(Read(s, t.snapshot, t.modified, t.now), t.answer, t.now)
  }

  function Run(s: Sender, ticks: seq<Tick>): Sender
    decreases |ticks|
  {
    if ticks == [] then s else Run(Step(s, ticks[0]), ticks[1..])
  }

  // ---------- conservation ----------

  /** What has become of the samples, relative to the files and the counter at the start. */
  predicate Accounted(s: Sender, files: nat, dropped: nat) {
    && Chronological(s.queue.files) && s.queue.dropped >= dropped
    && (!s.revoked ==>
          files + s.offered == s.delivered + |s.queue.files| + (s.queue.dropped - dropped) + s.replaced)
  }

  predicate Paced(s: Sender) {
    1_000_000_000 <= s.backoff <= 300_000_000_000
  }

  lemma ReadAccounts(s: Sender, snapshot: Option<Snapshot>, modified: int, now: int, files: nat, dropped: nat)
    requires Accounted(s, files, dropped) && !s.revoked
    ensures Accounted(Read(s, snapshot, modified, now), files, dropped)
  {
    if now >= s.nextRead && Accepts(s, snapshot, now) {
      var at, size := snapshot.value.at, snapshot.value.encoded;
      AddCounts(s.queue, at, size, modified, now);
      ChronologyIsKept(s.queue, at, size, modified, now);
      SurvivorsAreFewer(s.queue.files, Bytes(s.queue.files), now, MAX_SAMPLE_BYTES);
    }
  }

  lemma SendAccounts(s: Sender, a: Answer, now: int, files: nat, dropped: nat)
    requires Accounted(s, files, dropped) && !s.revoked
    ensures Accounted(Send(s, a, now), files, dropped)
  {
    NextCounts(s.queue, now);
    SurvivorsStayChronological(s.queue.files, Bytes(s.queue.files), now, 0);
    SurvivorsAreFewer(s.queue.files, Bytes(s.queue.files), now, 0);
  }

  lemma {:induction false} RunAccounts(s: Sender, ticks: seq<Tick>, files: nat, dropped: nat)
    requires Accounted(s, files, dropped)
    ensures Accounted(Run(s, ticks), files, dropped)
    decreases |ticks|
  {
    if ticks != [] {
      var t := ticks[0];
      if !s.revoked {
        ReadAccounts(s, t.snapshot, t.modified, t.now, files, dropped);
        SendAccounts(Read(s, t.snapshot, t.modified, t.now), t.answer, t.now, files, dropped);
      }
      RunAccounts(Step(s, t), ticks[1..], files, dropped);
    }
  }

  /** Until the credential is revoked no sample disappears: those found at the start and those
      offered are delivered, still queued, counted as dropped, or replaced by one collected at the same time. */
  lemma NothingDisappears(files: seq<File>, dropped: nat, ticks: seq<Tick>)
    requires Chronological(files)
    ensures var s := Run(Fresh(files, dropped), ticks);
            !s.revoked ==>
              |files| + s.offered == s.delivered + |s.queue.files| + (s.queue.dropped - dropped) + s.replaced
  {
    RunAccounts(Fresh(files, dropped), ticks, |files|, dropped);
  }

  // ---------- backoff ----------

  lemma {:induction false} RunIsPaced(s: Sender, ticks: seq<Tick>)
    requires Paced(s)
    ensures Paced(Run(s, ticks))
    decreases |ticks|
  {
    if ticks != [] { RunIsPaced(Step(s, ticks[0]), ticks[1..]); }
  }

  function Pow2(k: nat): nat {
    if k == 0 then 1 else 2 * Pow2(k - 1)
  }

  /** The backoff after k attempts that have to be repeated. */
  function Backoff(k: nat): int {
    Min(Pow2(k) * SECOND, MAX_BACKOFF)
  }

  lemma {:induction false} PowIsPositive(k: nat)
    ensures Pow2(k) >= 1
  {
    if k > 0 { PowIsPositive(k - 1); }
  }

  predicate Retryable(a: Answer) {
    !Delivered(a) && !Revoked(a) && !Rejected(a)
  }

  function RetryAfter(a: Answer): int {
    if a.Status? then a.retryAfter else 0
  }

  /** What an answer does, by its status. */
  lemma ConcludesByStatus(s: Sender, a: Answer, now: int)
    requires s.queue.files != []
    ensures var s' := Conclude(s, a, now);
            var rest, code := s.queue.files[1..], if a.Status? then a.code else 0;
            if 200 <= code <= 299 then
              s' == s.(queue := Queue(rest, s.queue.dropped), delivered := s.delivered + 1,
                       backoff := 1_000_000_000, nextSend := now + 1_000_000_000)
            else if code in {401, 403} then s' == s.(queue := Queue([], s.queue.dropped), revoked := true)
            else if code in {400, 413, 422} then
              s' == s.(queue := Queue(rest, s.queue.dropped + 1), nextSend := now + 30_000_000_000)
            else
              var asked := if a.Status? then a.retryAfter else 0;
              var longer := if asked > s.backoff then asked else s.backoff;
              var wait := if longer > 300_000_000_000 then 300_000_000_000 else longer;
              s' == s.(nextSend := now + wait, backoff := if 2 * wait > 300_000_000_000 then 300_000_000_000 else 2 * wait)
  {
  }

  predicate Wanted(s: Sender, snapshot: Option<Snapshot>, now: int) {
    && snapshot.Some? && snapshot.value.size <= 1_048_576 && snapshot.value.id != s.lastId
    && now - 60_000_000_000 < snapshot.value.at < now + 60_000_000_000
  }

  /** A snapshot is looked at every thirty seconds at most, and buffered when it is not too large, new, less than a
      minute old and not from more than a minute ahead. */
  lemma OffersInTime(s: Sender, snapshot: Option<Snapshot>, modified: int, now: int)
    ensures now < s.nextRead ==> Read(s, snapshot, modified, now) == s
    ensures now >= s.nextRead ==>
              var s', wanted := Read(s, snapshot, modified, now), Wanted(s, snapshot, now);
              && s'.nextRead == now + 30_000_000_000 && s'.offered == s.offered + (if wanted then 1 else 0)
              && (!wanted ==> s'.queue == s.queue && s'.lastId == s.lastId)
              && (wanted && snapshot.value.encoded <= 1_048_576 ==> Has(s'.queue.files, snapshot.value.at) && s'.lastId == snapshot.value.id)
              && (wanted && snapshot.value.encoded > 1_048_576 ==> s'.lastId == s.lastId)
  {
    if Accepts(s, snapshot, now) && now >= s.nextRead {
      var f := File(snapshot.value.at, snapshot.value.encoded, modified);
      PutMembers(Prune(s.queue, now, MAX_SAMPLE_BYTES).files, f);
    }
  }

  /** An attempt that may be repeated changes neither the buffer nor the counts, only the schedule:
      the next one is between one second and five minutes away, and the backoff doubles up to five minutes. */
  lemma RetryableAttempt(s: Sender, a: Answer, now: int)
    requires Paced(s) && s.queue.files != [] && Retryable(a)
    ensures var s' := Conclude(s, a, now);
            && s' == s.(nextSend := s'.nextSend, backoff := s'.backoff)
            && 1_000_000_000 <= s'.nextSend - now <= 300_000_000_000
            && s'.backoff == Min(2 * (s'.nextSend - now), 300_000_000_000)
            && (RetryAfter(a) <= s.backoff ==> s'.nextSend - now == s.backoff)
            && (s.backoff < RetryAfter(a) <= 300_000_000_000 ==> s'.nextSend - now == RetryAfter(a))
  {
  }

  // ---------- backoff over runs ----------

  /** The tick finds the sender due and with a sample to deliver. */
  predicate Attempts(s: Sender, t: Tick) {
    !s.revoked && t.now >= s.nextSend && Next(Read(s, t.snapshot, t.modified, t.now).queue, t.now).1.Some?
  }

  /** Every attempt is to be repeated, without being asked to wait longer than the backoff, or its
      sample is rejected; reads and ticks without an attempt may come between. */
  predicate Failing(s: Sender, ticks: seq<Tick>)
    decreases |ticks|
  {
    ticks != [] ==>
      && (Attempts(s, ticks[0]) ==>
            Rejected(ticks[0].answer) || (Retryable(ticks[0].answer) && RetryAfter(ticks[0].answer) <= s.backoff))
      && Failing(Step(s, ticks[0]), ticks[1..])
  }

  /** The number of attempts that are to be repeated. */
  function Repeats(s: Sender, ticks: seq<Tick>): nat
    decreases |ticks|
  {
    if ticks == [] then 0
    else (if Attempts(s, ticks[0]) && Retryable(ticks[0].answer) then 1 else 0) + Repeats(Step(s, ticks[0]), ticks[1..])
  }

  lemma ReadKeepsSchedule(s: Sender, snapshot: Option<Snapshot>, modified: int, now: int)
    ensures var s' := Read(s, snapshot, modified, now);
            s'.backoff == s.backoff && s'.nextSend == s.nextSend && s'.revoked == s.revoked
  {
  }

  /** One tick: an attempt to be repeated is followed by a wait of the backoff, which then doubles. */
  lemma TickBacksOff(s: Sender, t: Tick, k: nat)
    requires s.backoff == Backoff(k) && Failing(s, [t])
    ensures var s' := Step(s, t);
            if Attempts(s, t) && Retryable(t.answer)
            then s'.nextSend == t.now + Backoff(k) && s'.backoff == Backoff(k + 1)
            else s'.backoff == Backoff(k)
  {
    ReadKeepsSchedule(s, t.snapshot, t.modified, t.now);
    PowIsPositive(k);
  }

  lemma {:induction false} RunBacksOff(s: Sender, ticks: seq<Tick>, k: nat)
    requires s.backoff == Backoff(k) && Failing(s, ticks)
    ensures Run(s, ticks).backoff == Backoff(k + Repeats(s, ticks))
    decreases |ticks|
  {
    if ticks != [] {
      var t := ticks[0];
      TickBacksOff(s, t, k);
      RunBacksOff(Step(s, t), ticks[1..], k + if Attempts(s, t) && Retryable(t.answer) then 1 else 0);
    }
  }

  lemma {:induction false} RunInTurn(s: Sender, first: seq<Tick>, second: seq<Tick>)
    ensures Run(s, first + second) == Run(Run(s, first), second)
    decreases |first|
  {
    if first == [] {
      assert first + second == second;
    } else {
      assert (first + second)[1..] == first[1..] + second;
      RunInTurn(Step(s, first[0]), first[1..], second);
    }
  }

  /** A delivery sets the backoff to one second. */
  lemma DeliveryResets(s: Sender, t: Tick)
    requires Attempts(s, t) && Delivered(t.answer)
    ensures Step(s, t).backoff == Backoff(0)
  {
    ReadKeepsSchedule(s, t.snapshot, t.modified, t.now);
  }

  lemma RunInThree(s: Sender, before: seq<Tick>, t: Tick, after: seq<Tick>)
    ensures Run(s, before + [t] + after) == Run(Step(Run(s, before), t), after)
  {
    assert before + [t] + after == before + ([t] + after);
    RunInTurn(s, before, [t] + after);
    assert ([t] + after)[1..] == after;
  }

  /** An attempt at backoff k that is to be repeated. */
  lemma NextWaits(s: Sender, t: Tick, k: nat)
    requires s.backoff == Backoff(k) && Attempts(s, t) && Retryable(t.answer) && RetryAfter(t.answer) <= s.backoff
    ensures Step(s, t).nextSend == t.now + Backoff(k)
  {
    assert Failing(s, [t]);
    TickBacksOff(s, t, k);
  }

  /** In any run: after a delivery, k attempts that have to be repeated, and whatever else happens between
      them, the backoff is min(2^k, 300) seconds, and an attempt made then that has to be repeated is
      followed by a wait of just that. */
  lemma SenderBacksOff(s: Sender, before: seq<Tick>, delivery: Tick, after: seq<Tick>, next: Tick)
    requires Attempts(Run(s, before), delivery) && Delivered(delivery.answer)
    requires Failing(Step(Run(s, before), delivery), after)
    ensures var s' := Run(s, before + [delivery] + after);
            var k := Repeats(Step(Run(s, before), delivery), after);
            && s'.backoff == Min(Pow2(k) * 1_000_000_000, 300_000_000_000)
            && (Attempts(s', next) && Retryable(next.answer) && RetryAfter(next.answer) <= s'.backoff ==>
                  Step(s', next).nextSend == next.now + Min(Pow2(k) * 1_000_000_000, 300_000_000_000))
  {
    var s1 := Step(Run(s, before), delivery);
    DeliveryResets(Run(s, before), delivery);
    RunBacksOff(s1, after, 0);
    RunInThree(s, before, delivery, after);
    var s', k := Run(s1, after), Repeats(s1, after);
    if Attempts(s', next) && Retryable(next.answer) && RetryAfter(next.answer) <= s'.backoff { NextWaits(s', next, k); }
  }

  // ---------- aging over runs ----------

  /** The snapshot of this tick goes to the buffer. */
  predicate Offers(s: Sender, t: Tick) {
    !s.revoked && t.now >= s.nextRead && Accepts(s, t.snapshot, t.now)
  }

  /** Modification times never go back, and every sample offered is newer than those before it. */
  predicate Advancing(s: Sender, ticks: seq<Tick>, at: int, modified: int)
    decreases |ticks|
  {
    ticks != [] ==>
      var t := ticks[0];
      && modified <= t.modified && (Offers(s, t) ==> at < t.snapshot.value.at)
      && Advancing(Step(s, t), ticks[1..], if Offers(s, t) then t.snapshot.value.at else at, t.modified)
  }

  /** The files age in the order of their names and are not newer than the last ones seen. */
  predicate Aged(fs: seq<File>, at: int, modified: int) {
    Chronological(fs) && Aging(fs) && forall f | f in fs :: f.at <= at && f.modified <= modified
  }

  lemma PrunedIsAged(q: Queue, now: int, reserve: nat, at: int, modified: int)
    requires Aged(q.files, at, modified)
    ensures Aged(Prune(q, now, reserve).files, at, modified)
  {
    var k := KeepsLongestSuffix(q.files, now, reserve);
    SuffixAges(q.files, k);
    SurvivorsStayChronological(q.files, Bytes(q.files), now, reserve);
  }

  lemma RestIsAged(fs: seq<File>, at: int, modified: int)
    requires Aged(fs, at, modified) && fs != []
    ensures Aged(fs[1..], at, modified)
  {
    SuffixAges(fs, 1);
  }

  lemma ReadIsAged(s: Sender, t: Tick, at: int, modified: int)
    requires Aged(s.queue.files, at, modified) && !s.revoked && modified <= t.modified
    requires Offers(s, t) ==> at < t.snapshot.value.at
    ensures Aged(Read(s, t.snapshot, t.modified, t.now).queue.files, if Offers(s, t) then t.snapshot.value.at else at, t.modified)
  {
    if Offers(s, t) {
      var q := Prune(s.queue, t.now, MAX_SAMPLE_BYTES);
      PrunedIsAged(s.queue, t.now, MAX_SAMPLE_BYTES, at, modified);
      PutAtEnd(q.files, File(t.snapshot.value.at, t.snapshot.value.encoded, t.modified));
    }
  }

  lemma SendIsAged(s: Sender, a: Answer, now: int, at: int, modified: int)
    requires Aged(s.queue.files, at, modified)
    ensures Aged(Send(s, a, now).queue.files, at, modified)
  {
    PrunedIsAged(s.queue, now, 0, at, modified);
    var q := Prune(s.queue, now, 0);
    if q.files != [] { RestIsAged(q.files, at, modified); }
  }

  lemma {:induction false} RunIsAged(s: Sender, ticks: seq<Tick>, at: int, modified: int)
    requires Aged(s.queue.files, at, modified) && Advancing(s, ticks, at, modified)
    ensures Chronological(Run(s, ticks).queue.files) && Aging(Run(s, ticks).queue.files)
    decreases |ticks|
  {
    if ticks != [] {
      var t := ticks[0];
      var at' := if Offers(s, t) then t.snapshot.value.at else at;
      if !s.revoked {
        ReadIsAged(s, t, at, modified);
        SendIsAged(Read(s, t.snapshot, t.modified, t.now), t.answer, t.now, at', t.modified);
      }
      RunIsAged(Step(s, t), ticks[1..], at', t.modified);
    }
  }

  /** So at any moment of such a run pruning keeps exactly the longest suffix that fits. */
  lemma RunKeepsLongestSuffix(s: Sender, ticks: seq<Tick>, at: int, modified: int, now: int, reserve: nat) returns (k: nat)
    requires Aged(s.queue.files, at, modified) && Advancing(s, ticks, at, modified)
    ensures var fs := Run(s, ticks).queue.files;
            && k <= |fs| && Prune(Run(s, ticks).queue, now, reserve).files == fs[k..]
            && (k < |fs| ==> SampleQueue.Fits(fs[k..], now, reserve))
            && forall j {:trigger SampleQueue.Fits(fs[j..], now, reserve)} | 0 <= j < k :: !SampleQueue.Fits(fs[j..], now, reserve)
  {
    RunIsAged(s, ticks, at, modified);
    k := KeepsLongestSuffix(Run(s, ticks).queue.files, now, reserve);
  }
}
